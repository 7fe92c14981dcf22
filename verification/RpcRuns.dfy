/**
 What holds in every run of the remote-call protocol: replies come home to the request they answer,
 the data handler of a fetch runs at most once and its finalize handler exactly once if it is
 removed, no handler runs after its removal, commits send exactly one reply each, and printed ids
 never collide.
 */
module RpcRuns {
  import opened Wrappers
  import opened Json
  import opened Decimal
  import opened BrokerModel
  import opened D = Deferred
  import opened RpcSystem
  import R = Replay

  ghost predicate Possible(s: System, es: seq<Event>, codec: Codec)
    decreases |es|
  {
    es == [] || (Enabled(s, es[0]) && FreshQueue(s, es[0]) && Possible(Apply(s, es[0], codec), es[1..], codec))
  }

  ghost function After(s: System, es: seq<Event>, codec: Codec): System
    requires Possible(s, es, codec)
    decreases |es|
  {
    if es == [] then s else After(Apply(s, es[0], codec), es[1..], codec)
  }

  /** A state that some run of fresh brokers reaches. */
  ghost predicate Reachable(s: System, codec: Codec) {
    exists s0, es :: Initial(s0) && Possible(s0, es, codec) && After(s0, es, codec) == s
  }

  lemma {:induction false} RunKeepsInv(s: System, es: seq<Event>, codec: Codec)
    requires Inv(s, codec) && Possible(s, es, codec)
    ensures Inv(After(s, es, codec), codec)
    decreases |es|
  {
    if es != [] {
      StepKeepsInv(s, es[0], codec);
      RunKeepsInv(Apply(s, es[0], codec), es[1..], codec);
    }
  }

  lemma ReachableInv(s: System, codec: Codec)
    requires Reachable(s, codec)
    ensures Inv(s, codec)
  {
    var s0, es :| Initial(s0) && Possible(s0, es, codec) && After(s0, es, codec) == s;
    InitialInv(s0, codec);
    RunKeepsInv(s0, es, codec);
  }

  /**
   Isolation. Whatever a data handler of a fetch is given was committed, by a listener's handler, in
   answer to a request which that same fetch published with its own message. Nothing is assumed of
   correlation ids: those of different brokers may be equal, and no step compares them.
   */
  lemma RepliesComeHome(s: System, codec: Codec, i: nat)
    requires Reachable(s, codec) && i < |s.log| && s.log[i].call.DataCall?
    ensures s.log[i].from.Some? && Sent(s, s.log[i].from.value)
    ensures var note := s.log[i];
            var made := s.made[note.from.value.replay];
            && made.handed && made.request < |s.requests|
            && note.fetch in s.asked
            && s.requests[made.request] ==
               Request(note.fetch, Envoy(MessageOf(s, note.from.value).queue, note.fetch.id, codec.encode(s.asked[note.fetch])))
            && note.from.value.commit < |made.life.answers|
            && var answer := R.Answer(made.life.answers[note.from.value.commit]);
               codec.decode(codec.encode(answer)) == Some(note.call.data)
               && (Lossless(codec) ==> note.call.data == answer && !Empty(note.call.data))
  {
    ReachableInv(s, codec);
    var note := s.log[i];
    assert NoteOk(s, note, codec);
    var source := note.from.value;
    assert MadeOk(s, s.made[source.replay], codec);
    assert RequestOk(s, s.requests[s.made[source.replay].request], codec);
  }

  /** In every order and repetition of callbacks: one data call and one removal per fetch, at most. */
  lemma OnceOnly(s: System, codec: Codec)
    requires Reachable(s, codec)
    ensures forall i, j :: 0 <= i < j < |s.log| && s.log[i].call.DataCall? && s.log[j].call.DataCall? ==>
              s.log[i].fetch != s.log[j].fetch
    ensures forall i, j :: 0 <= i < j < |s.removals| ==> s.removals[i] != s.removals[j]
    // the fetches begun are the live ones and the removed ones
    ensures forall f :: f in s.asked <==> (Live(s, f) || f in s.removals)
    ensures forall f :: !(Live(s, f) && f in s.removals)
  {
    ReachableInv(s, codec);
  }

  lemma StepIsSilentFor(s: System, e: Event, codec: Codec, f: Agent)
    requires Inv(s, codec) && Enabled(s, e) && f in s.asked && !Live(s, f)
    ensures var s' := Apply(s, e, codec);
            && f in s'.asked && !Live(s', f) && s.log <= s'.log
            && forall i :: |s.log| <= i < |s'.log| ==> s'.log[i].fetch != f
  {
    var s' := Apply(s, e, codec);
    if Quiet(e) {
      QuietStep(s, e, codec);
    } else if !e.NewFetch? && !e.NewListener? {
      var (g, cb, from) := Reaction(s, e);
      assert s' == React(s, g, cb, from, codec);
    }
  }

  /** Once removed, a fetch never comes back, and none of its handlers runs again. */
  lemma {:induction false} SilentAfterRemoval(s: System, es: seq<Event>, codec: Codec, f: Agent)
    requires Inv(s, codec) && Possible(s, es, codec) && f in s.asked && !Live(s, f)
    ensures var s' := After(s, es, codec);
            && f in s'.asked && !Live(s', f) && s.log <= s'.log
            && forall i :: |s.log| <= i < |s'.log| ==> s'.log[i].fetch != f
    decreases |es|
  {
    if es != [] {
      var next := Apply(s, es[0], codec);
      StepIsSilentFor(s, es[0], codec, f);
      StepKeepsInv(s, es[0], codec);
      SilentAfterRemoval(next, es[1..], codec, f);
    }
  }

  /** The same from any reachable state: removal silences a fetch for good. */
  lemma RemovedMeansSilent(s: System, es: seq<Event>, codec: Codec, f: Agent)
    requires Reachable(s, codec) && Possible(s, es, codec) && f in s.removals
    ensures var s' := After(s, es, codec);
            && !Live(s', f) && s.log <= s'.log
            && forall i :: |s.log| <= i < |s'.log| ==> s'.log[i].fetch != f
  {
    ReachableInv(s, codec);
    SilentAfterRemoval(s, es, codec, f);
  }

  // ---- reply objects --------------------------------------------------------------------------------

  /**
   Every commit publishes exactly one reply, to its own request's queue with its own request's id;
   frees are accounted for by commits and deletions; and a complete handler that ran was registered
   after the last commit made before it ran.
   */
  lemma ReplyAccounting(s: System, codec: Codec, r: nat)
    requires Reachable(s, codec) && r < |s.made|
    ensures s.made[r].request < |s.requests|
    ensures var life, envoy := s.made[r].life, s.requests[s.made[r].request].envoy;
            && |life.sent| == |life.answers|
            && (forall k :: 0 <= k < |life.sent| ==>
                  life.sent[k] == R.Envelope(envoy.replyTo, envoy.cid, codec.encode(R.Answer(life.answers[k]))))
            && life.freed + |life.pending| == |life.sent| + life.discards
            // the channel opened by each commit is freed once its transaction is resolved
            && (forall c: nat :: multiset(life.closed)[c] == if c < |life.sent| && c !in life.pending then 1 else 0)
            && forall k :: 0 <= k < |life.ran| ==> life.ran[k].registeredAt == life.ran[k].ranAt
    // a reply object that no handler was given is never committed or freed
    ensures !s.made[r].handed ==> s.made[r].life.sent == [] && s.made[r].life.freed == 0
  {
    ReachableInv(s, codec);
    assert MadeOk(s, s.made[r], codec);
  }

  /**
   When its transactions are resolved, a reply object has been freed at most once exactly if user
   code committed it at most once and deleted it only instead; the channel of each commit has been
   freed exactly once in any case, and no other.
   */
  lemma FreedAtMostOnce(s: System, codec: Codec, r: nat)
    requires Reachable(s, codec) && r < |s.made| && s.made[r].life.pending == {}
    ensures s.made[r].life.freed <= 1 <==> |s.made[r].life.sent| + s.made[r].life.discards <= 1
    ensures forall c: nat :: multiset(s.made[r].life.closed)[c] == if c < |s.made[r].life.sent| then 1 else 0
  {
    ReplyAccounting(s, codec, r);
  }

  /** At any time: no more frees than commits and deletions. */
  lemma DisciplinedUseIsSafe(s: System, codec: Codec, r: nat)
    requires Reachable(s, codec) && r < |s.made|
    requires |s.made[r].life.sent| + s.made[r].life.discards <= 1
    ensures s.made[r].life.freed <= 1 && forall c: nat :: multiset(s.made[r].life.closed)[c] <= 1
  {
    ReplyAccounting(s, codec, r);
  }

  /** Committing twice before the transactions resolve frees the object twice. */
  lemma TwoCommitsFreeTwice(route: R.Route, m: R.Payload, codec: Codec)
    ensures var l0 := R.Born(route);
            && R.Enabled(l0, R.Commit(m))
            && var l1 := R.Apply(l0, R.Commit(m), codec);
               R.Enabled(l1, R.Commit(m))
               && var l2 := R.Apply(l1, R.Commit(m), codec);
                  R.Enabled(l2, R.Resolve(0)) && R.Enabled(R.Apply(l2, R.Resolve(0), codec), R.Resolve(1))
                  && R.Apply(R.Apply(l2, R.Resolve(0), codec), R.Resolve(1), codec).freed == 2
  {
    var l1 := R.Apply(R.Born(route), R.Commit(m), codec);
    var l2 := R.Apply(l1, R.Commit(m), codec);
    assert l2.pending == {0, 1};
    var l3 := R.Apply(l2, R.Resolve(0), codec);
    assert l3.freed == 1 && l3.pending == {1};
  }

  /** A complete handler registered before a commit never runs after it. */
  lemma CommitDropsHandler(l: R.Life, es: seq<R.Event>, m: R.Payload, route: R.Route, codec: Codec)
    requires R.Inv(l, route, codec) && R.Enabled(l, R.Commit(m))
    requires LifePossible(R.Apply(l, R.Commit(m), codec), es, codec)
    ensures var l' := LifeAfter(R.Apply(l, R.Commit(m), codec), es, codec);
            && l.ran <= l'.ran
            && forall k :: |l.ran| <= k < |l'.ran| ==> l'.ran[k].registeredAt > |l.sent|
  {
    var l1 := R.Apply(l, R.Commit(m), codec);
    R.StepKeepsInv(l, R.Commit(m), route, codec);
    LaterRunsAreLater(l1, es, route, codec);
  }

  ghost predicate LifePossible(l: R.Life, es: seq<R.Event>, codec: Codec)
    decreases |es|
  {
    es == [] || (R.Enabled(l, es[0]) && LifePossible(R.Apply(l, es[0], codec), es[1..], codec))
  }

  ghost function LifeAfter(l: R.Life, es: seq<R.Event>, codec: Codec): R.Life
    requires LifePossible(l, es, codec)
    decreases |es|
  {
    if es == [] then l else LifeAfter(R.Apply(l, es[0], codec), es[1..], codec)
  }

  lemma {:induction false} LaterRunsAreLater(l: R.Life, es: seq<R.Event>, route: R.Route, codec: Codec)
    requires R.Inv(l, route, codec) && LifePossible(l, es, codec)
    ensures var l' := LifeAfter(l, es, codec);
            && l.ran <= l'.ran
            && forall k :: |l.ran| <= k < |l'.ran| ==> l'.ran[k].registeredAt >= |l.sent|
    decreases |es|
  {
    if es != [] {
      R.StepKeepsInv(l, es[0], route, codec);
      LaterRunsAreLater(R.Apply(l, es[0], codec), es[1..], route, codec);
    }
  }

  /** Nothing in `es` registers another complete handler or commits. */
  predicate KeepsHandler(es: seq<R.Event>) {
    forall i :: 0 <= i < |es| ==> !es[i].OnComplete? && !es[i].Commit?
  }

  lemma {:induction false} HandlerStays(l: R.Life, es: seq<R.Event>, codec: Codec)
    requires LifePossible(l, es, codec) && KeepsHandler(es)
    ensures var l' := LifeAfter(l, es, codec);
            l'.cell.complete == l.cell.complete && l'.registeredAt == l.registeredAt && |l'.sent| == |l.sent|
    decreases |es|
  {
    if es != [] {
      assert KeepsHandler(es[1..]) by {
        forall i | 0 <= i < |es[1..]| ensures !es[1..][i].OnComplete? && !es[1..][i].Commit? { assert es[1..][i] == es[i + 1]; }
      }
      HandlerStays(R.Apply(l, es[0], codec), es[1..], codec);
    }
  }

  /** A complete handler that is registered, with no other and no commit after it, runs when the object is freed. */
  lemma CompleteRunsWhenFreed(l: R.Life, h: R.Handler, es: seq<R.Event>, free: R.Event, codec: Codec)
    requires R.Enabled(l, R.OnComplete(h))
    requires LifePossible(R.Apply(l, R.OnComplete(h), codec), es, codec) && KeepsHandler(es)
    requires free.Discard? || free.Resolve?
    requires R.Enabled(LifeAfter(R.Apply(l, R.OnComplete(h), codec), es, codec), free)
    ensures var l' := LifeAfter(R.Apply(l, R.OnComplete(h), codec), es, codec);
            && R.Apply(l', free, codec).ran == l'.ran + [R.Ran(h, |l.sent|, |l.sent|)]
            && R.Apply(l', free, codec).freed == l'.freed + 1
  {
    HandlerStays(R.Apply(l, R.OnComplete(h), codec), es, codec);
  }

  /** Registration never overwrites: a newly printed id is that of no live or former entry. */
  lemma NewIdIsUnused(s: System, codec: Codec, e: Event)
    requires Reachable(s, codec) && Enabled(s, e) && (e.NewFetch? || e.NewListener?)
    ensures var id := Print(e.number);
            && id !in s.brokers[e.broker].fetchers && id !in s.brokers[e.broker].listeners
            && Agent(e.broker, id) !in s.asked
            && var bs := Apply(s, e, codec).brokers[e.broker];
               if e.NewFetch? then id in bs.fetchers else id in bs.listeners
  {
    ReachableInv(s, codec);
    var f := Agent(e.broker, Print(e.number));
    assert f !in s.asked;
    assert !Live(s, f);
  }

  // ---- two clients with equal ids -------------------------------------------------------------------

  const CLIENT_A := Agent(0, Print(1))
  const CLIENT_B := Agent(1, Print(1))
  const WORKER := Agent(0, Print(2))

  const FRESH := BrokerState(1, map[], map[])
  const START := System([FRESH, FRESH], map[], {}, map[], [], [], [], [])
  const UNHEARD := State(false, OK, NO_HANDLERS)
  const OPEN := State(false, OK, NO_HANDLERS.(data := true))

  /** Two clients begin a fetch under the same id, in different processes; a worker listens. */
  function Opening(): seq<Event> {
    [NewFetch(0, 1, Text("a"), false), AttachToFetch(CLIENT_A, DataHandler),
     NewFetch(1, 1, Text("b"), false), AttachToFetch(CLIENT_B, DataHandler),
     NewListener(0, 2, false), AttachToListener(WORKER, DataHandler)]
  }

  /** The server declares both reply queues; the worker answers the first client. */
  function Exchange(qa: string, qb: string, answer: Json): seq<Event> {
    [OnFetch(CLIENT_A, DeclareOk(qa)), OnFetch(CLIENT_B, DeclareOk(qb)),
     Deliver(WORKER, 0), OnReplay(0, R.Commit(Ok(answer))), Receive(Source(0, 0))]
  }

  /**
   `ss` are the states that the events `es` lead through, whatever queue names the server chose: a
   run in the sense of `Possible` but for the freshness of the names (see `TraceIsRun`).
   */
  ghost predicate Trace(ss: seq<System>, es: seq<Event>, codec: Codec) {
    && |ss| == |es| + 1
    && forall i :: 0 <= i < |es| ==> Enabled(ss[i], es[i]) && ss[i + 1] == Apply(ss[i], es[i], codec)
  }

  function Registered(): System {
    START.(brokers := [BrokerState(3, map[Print(1) := OPEN], map[Print(2) := OPEN]),
                       BrokerState(2, map[Print(1) := OPEN], map[])],
           asked := map[CLIENT_A := Text("a"), CLIENT_B := Text("b")])
  }

  lemma OpeningRuns(codec: Codec) returns (ss: seq<System>)
    ensures Trace(ss, Opening(), codec) && ss[0] == START && ss[6] == Registered()
  {
    var es := Opening();
    var a := BrokerState(2, map[Print(1) := OPEN], map[]);
    assert map[Print(1) := UNHEARD][Print(1) := OPEN] == map[Print(1) := OPEN];
    var s1 := Apply(START, es[0], codec);
    assert s1.brokers == [BrokerState(2, map[Print(1) := UNHEARD], map[]), FRESH];
    var s2 := Apply(s1, es[1], codec);
    assert s2.brokers == [a, FRESH];
    var s3 := Apply(s2, es[2], codec);
    assert s3.brokers == [a, BrokerState(2, map[Print(1) := UNHEARD], map[])];
    var s4 := Apply(s3, es[3], codec);
    assert s4.brokers == [a, a];
    var s5, s6 := ListenerOpens(s4, a, codec);
    assert s6.asked == Registered().asked;
    ss := [START, s1, s2, s3, s4, s5, s6];
  }

  lemma ListenerOpens(s: System, a: BrokerState, codec: Codec) returns (s1: System, s2: System)
    requires s.brokers == [a, a] && a == BrokerState(2, map[Print(1) := OPEN], map[])
    ensures Enabled(s, NewListener(0, 2, false)) && s1 == Apply(s, NewListener(0, 2, false), codec)
    ensures Enabled(s1, AttachToListener(WORKER, DataHandler)) && s2 == Apply(s1, AttachToListener(WORKER, DataHandler), codec)
    ensures s2 == s.(brokers := Registered().brokers)
  {
    s1 := Apply(s, NewListener(0, 2, false), codec);
    assert s1.brokers == [BrokerState(3, a.fetchers, map[Print(2) := UNHEARD]), a];
    s2 := Apply(s1, AttachToListener(WORKER, DataHandler), codec);
    assert map[Print(2) := UNHEARD][Print(2) := OPEN] == map[Print(2) := OPEN];
    assert s2.brokers == Registered().brokers;
  }

  /** Both requests are published, each with its reply queue. */
  function Asked(qa: string, qb: string, codec: Codec): System {
    Registered().(
    issued := {qa, qb},
    consumers := map[qa := CLIENT_A][qb := CLIENT_B],
    requests := [Request(CLIENT_A, Envoy(qa, Print(1), codec.encode(Text("a")))),
                 Request(CLIENT_B, Envoy(qb, Print(1), codec.encode(Text("b"))))])
  }

  /** The worker has answered the first request. */
  function Answered(qa: string, qb: string, answer: Json, codec: Codec): System {
    Asked(qa, qb, codec).(made := [Made(0, WORKER, true, R.Apply(R.Born(R.Route(Print(1), qa)), R.Commit(Ok(answer)), codec))])
  }

  lemma JoinTraces(ss: seq<System>, es: seq<Event>, ts: seq<System>, fs: seq<Event>, codec: Codec)
    requires Trace(ss, es, codec) && Trace(ts, fs, codec) && ss[|es|] == ts[0]
    ensures Trace(ss + ts[1..], es + fs, codec)
    ensures (ss + ts[1..])[|es + fs|] == ts[|fs|] && (ss + ts[1..])[0] == ss[0]
  {
    var us, gs := ss + ts[1..], es + fs;
    forall i | 0 <= i < |gs|
      ensures Enabled(us[i], gs[i]) && us[i + 1] == Apply(us[i], gs[i], codec)
    {
      if i < |es| {
        assert us[i] == ss[i] && us[i + 1] == ss[i + 1] && gs[i] == es[i];
      } else {
        assert us[i] == ts[i - |es|] && us[i + 1] == ts[i + 1 - |es|] && gs[i] == fs[i - |es|];
      }
    }
  }

  lemma BothAsk(qa: string, qb: string, codec: Codec) returns (ss: seq<System>)
    ensures Trace(ss, [OnFetch(CLIENT_A, DeclareOk(qa)), OnFetch(CLIENT_B, DeclareOk(qb))], codec)
    ensures ss[0] == Registered() && ss[1].issued == {qa} && ss[2] == Asked(qa, qb, codec)
  {
    var s1 := Apply(Registered(), OnFetch(CLIENT_A, DeclareOk(qa)), codec);
    assert s1.requests == [Request(CLIENT_A, Envoy(qa, Print(1), codec.encode(Text("a"))))];
    var s2 := Apply(s1, OnFetch(CLIENT_B, DeclareOk(qb)), codec);
    assert s2.requests == Asked(qa, qb, codec).requests;
    assert s2.issued == {qa, qb};
    ss := [Registered(), s1, s2];
  }

  function Taken(qa: string, qb: string, codec: Codec): System {
    Asked(qa, qb, codec).(made := [Made(0, WORKER, true, R.Born(R.Route(Print(1), qa)))])
  }

  lemma WorkerTakes(qa: string, qb: string, codec: Codec)
    requires Lossless(codec)
    ensures Enabled(Asked(qa, qb, codec), Deliver(WORKER, 0))
    ensures Apply(Asked(qa, qb, codec), Deliver(WORKER, 0), codec) == Taken(qa, qb, codec)
  {
    var s := Asked(qa, qb, codec);
    assert codec.decode(codec.encode(Text("a"))) == Some(Text("a"));
    assert Apply(s, Deliver(WORKER, 0), codec).brokers == Registered().brokers;
  }

  lemma WorkerAnswers(qa: string, qb: string, answer: Json, codec: Codec) returns (ss: seq<System>)
    requires Lossless(codec)
    ensures Trace(ss, [Deliver(WORKER, 0), OnReplay(0, R.Commit(Ok(answer)))], codec)
    ensures ss[0] == Asked(qa, qb, codec) && ss[2] == Answered(qa, qb, answer, codec)
  {
    WorkerTakes(qa, qb, codec);
    var s := Taken(qa, qb, codec);
    var e := OnReplay(0, R.Commit(Ok(answer)));
    assert Enabled(s, e);
    assert Apply(s, e, codec) == Answered(qa, qb, answer, codec);
    ss := [Asked(qa, qb, codec), s, Answered(qa, qb, answer, codec)];
  }

  /** The one reply, to a request of the first client, went to the consumer of the queue `qa`. */
  predicate Outcome(s: System, qa: string, qb: string, answer: Json) {
    && |s.made| == 1 && s.made[0].request < |s.requests|
    && s.requests[s.made[0].request].origin == CLIENT_A
    && s.log == [Heard(if qa == qb then CLIENT_B else CLIENT_A, DataCall(answer), Some(Source(0, 0)))]
  }

  lemma ReplyArrives(qa: string, qb: string, answer: Json, codec: Codec) returns (ss: seq<System>)
    requires Lossless(codec) && !Empty(answer)
    ensures Trace(ss, [Receive(Source(0, 0))], codec)
    ensures ss[0] == Answered(qa, qb, answer, codec) && Outcome(ss[1], qa, qb, answer)
  {
    var s := Answered(qa, qb, answer, codec);
    var f := if qa == qb then CLIENT_B else CLIENT_A;
    assert s.made[0].life.sent == [R.Envelope(qa, Print(1), codec.encode(answer))];
    assert s.consumers[qa] == f;
    assert codec.decode(codec.encode(answer)) == Some(answer);
    var m := map[Print(1) := OPEN];
    assert s.brokers[f.broker].fetchers == m;
    AcceptedBody(m, Print(1), codec.encode(answer), codec, answer);
    assert CallbackCalls(m, Print(1), Received(codec.encode(answer)), codec) == [DataCall(answer)];
    ss := [s, Apply(s, Receive(Source(0, 0)), codec)];
  }

  /**
   Reply queue names are all that keeps the clients apart. With two names the first client gets its
   answer; were the server to give both the same name, the second would get it instead.
   */
  lemma QueueNamesDecide(qa: string, qb: string, answer: Json, codec: Codec) returns (ss: seq<System>)
    requires Lossless(codec) && !Empty(answer)
    ensures Trace(ss, Exchange(qa, qb, answer), codec) && ss[0] == Registered()
    ensures Outcome(ss[5], qa, qb, answer)
    ensures FreshQueue(ss[1], OnFetch(CLIENT_B, DeclareOk(qb))) <==> qa != qb
  {
    var ask := BothAsk(qa, qb, codec);
    var work := WorkerAnswers(qa, qb, answer, codec);
    var end := ReplyArrives(qa, qb, answer, codec);
    var es := Exchange(qa, qb, answer);
    JoinTraces(ask, es[..2], work, es[2..4], codec);
    assert es[..2] + es[2..4] == es[..4];
    var most := ask + work[1..];
    JoinTraces(most, es[..4], end, es[4..], codec);
    assert es[..4] + es[4..] == es;
    ss := most + end[1..];
    assert ss[1] == ask[1];
  }

  /** With fresh queue names a trace is a run. */
  lemma {:induction false} TraceIsRun(ss: seq<System>, es: seq<Event>, codec: Codec)
    requires Trace(ss, es, codec) && forall i :: 0 <= i < |es| ==> FreshQueue(ss[i], es[i])
    ensures Possible(ss[0], es, codec) && After(ss[0], es, codec) == ss[|es|]
    decreases |es|
  {
    if es != [] {
      forall i | 0 <= i < |es[1..]|
        ensures FreshQueue(ss[1..][i], es[1..][i])
      {
        assert FreshQueue(ss[i + 1], es[i + 1]);
      }
      TraceIsRun(ss[1..], es[1..], codec);
    }
  }

  /** Replies do arrive: with two queue names the first client's answer is heard in a reachable state. */
  lemma RepliesArrive(qa: string, qb: string, answer: Json, codec: Codec) returns (s: System)
    requires Lossless(codec) && !Empty(answer) && qa != qb
    ensures Reachable(s, codec)
    ensures s.log == [Heard(CLIENT_A, DataCall(answer), Some(Source(0, 0)))]
  {
    var open := OpeningRuns(codec);
    var exchange := QueueNamesDecide(qa, qb, answer, codec);
    var es, fs := Opening(), Exchange(qa, qb, answer);
    JoinTraces(open, es, exchange, fs, codec);
    var all := open + exchange[1..];
    forall i | 0 <= i < |es + fs|
      ensures FreshQueue(all[i], (es + fs)[i])
    {
      NamesAreFresh(open, exchange, qa, qb, answer, i);
    }
    TraceIsRun(all, es + fs, codec);
    s := exchange[5];
    assert Initial(START);
  }

  lemma NamesAreFresh(open: seq<System>, exchange: seq<System>, qa: string, qb: string, answer: Json, i: nat)
    requires |open| == 7 && |exchange| == 6 && i < 11
    requires open[6].issued == {} && FreshQueue(exchange[1], OnFetch(CLIENT_B, DeclareOk(qb)))
    ensures FreshQueue((open + exchange[1..])[i], (Opening() + Exchange(qa, qb, answer))[i])
  {
    if i >= 6 {
      assert (Opening() + Exchange(qa, qb, answer))[i] == Exchange(qa, qb, answer)[i - 6];
    } else {
      assert (Opening() + Exchange(qa, qb, answer))[i] == Opening()[i];
    }
  }
}
