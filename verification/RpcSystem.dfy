/**
 The remote-call protocol as a step system: any number of brokers (client and worker processes),
 each with its own id counter, fetches and listeners; requests delivered to any listener any number
 of times; replies received any number of times. Every callback is one atomic step and may fire in
 any order and repeatedly. What the environment must keep is said in `Enabled` and `FreshQueue`.
 */
module RpcSystem {
  import opened Wrappers
  import opened Json
  import opened Decimal
  import opened BrokerModel
  import opened D = Deferred
  import R = Replay

  /** `next` is the number the broker's process prints next. */
  datatype BrokerState = BrokerState(next: nat, fetchers: map<Id, State>, listeners: map<Id, State>)

  /** A fetch or a listener: its broker and its printed id. Ids of different brokers may be equal. */
  datatype Agent = Agent(broker: nat, id: Id)

  datatype Request = Request(origin: Agent, envoy: Envoy)

  /** A reply object: the request it answers, who made it, and whether a data handler was given it. */
  datatype Made = Made(request: nat, listener: Agent, handed: bool, life: R.Life)

  /** The message a fetch was receiving: the reply object that sent it, and which of its commits. */
  datatype Source = Source(replay: nat, commit: nat)

  /** A handler of a fetch ran. */
  datatype Heard = Heard(fetch: Agent, call: Call<Json>, from: Option<Source>)

  datatype System = System(
    brokers: seq<BrokerState>,
    asked: map<Agent, Json>,          // every fetch ever begun, with its message
    issued: set<string>,              // reply queue names the server has given out
    consumers: map<string, Agent>,    // which fetch consumes from a reply queue
    requests: seq<Request>,           // every request published
    made: seq<Made>,                  // every reply object made; what they sent is in flight
    log: seq<Heard>,                  // handlers of fetches, as they ran
    removals: seq<Agent>)             // fetches, as they were removed

  datatype Event =
    // `number` is at least the counter: other brokers of the process may have used some
    | NewFetch(broker: nat, number: nat, message: Json, garbage: bool)
    | NewListener(broker: nat, number: nat, garbage: bool)
    | AttachToFetch(agent: Agent, attachment: Attachment)
    | AttachToListener(agent: Agent, attachment: Attachment)
    | OnFetch(agent: Agent, callback: Callback)
    | Receive(source: Source)
    | OnListener(agent: Agent, listenerCallback: ListenerCallback)
    | Deliver(agent: Agent, request: nat)
    | OnReplay(replay: nat, event: R.Event)
    | ReplyResolved(replay: nat, commit: nat, ok: bool)

  predicate Live(s: System, f: Agent) {
    f.broker < |s.brokers| && f.id in s.brokers[f.broker].fetchers
  }

  predicate Listens(s: System, a: Agent) {
    a.broker < |s.brokers| && a.id in s.brokers[a.broker].listeners
  }

  /** The message that a receive step takes from a reply queue. */
  predicate Sent(s: System, source: Source) {
    source.replay < |s.made| && source.commit < |s.made[source.replay].life.sent|
  }

  function MessageOf(s: System, source: Source): R.Envelope
    requires Sent(s, source)
  {
    s.made[source.replay].life.sent[source.commit]
  }

  /**
   Handlers are attached while the callback object is alive; listener callbacks, which do not guard
   their lookup, come while the listener is alive; user code touches a reply object only if a data
   handler was given it.
   */
  predicate Enabled(s: System, e: Event) {
    match e
    case NewFetch(b, n, _, _) => b < |s.brokers| && s.brokers[b].next <= n < INT_MAX
    case NewListener(b, n, _) => b < |s.brokers| && s.brokers[b].next <= n < INT_MAX
    case AttachToFetch(f, _) => Live(s, f)
    case AttachToListener(a, _) => Listens(s, a)
    case OnFetch(f, cb) => f in s.asked && f.broker < |s.brokers| && !cb.Received?
    case Receive(source) =>
      && Sent(s, source) && MessageOf(s, source).queue in s.consumers
      && s.consumers[MessageOf(s, source).queue].broker < |s.brokers|
    case OnListener(a, _) => Listens(s, a)
    case Deliver(a, i) => Listens(s, a) && i < |s.requests|
    case OnReplay(r, ev) => r < |s.made| && s.made[r].handed && !ev.Resolve? && R.Enabled(s.made[r].life, ev)
    case ReplyResolved(r, c, ok) =>
      r < |s.made| && R.Enabled(s.made[r].life, R.Resolve(c)) && (!ok ==> Listens(s, s.made[r].listener))
  }

  /** The server never gives out a reply queue name twice (queue.declare with an empty name). */
  predicate FreshQueue(s: System, e: Event) {
    e.OnFetch? && e.callback.DeclareOk? ==> e.callback.queue !in s.issued
  }

  // ---- the effect of each event ---------------------------------------------------------------

  function WithFetchers(s: System, b: nat, m: map<Id, State>): System
    requires b < |s.brokers|
  {
    s.(brokers := s.brokers[b := s.brokers[b].(fetchers := m)])
  }

  function WithListeners(s: System, b: nat, m: map<Id, State>): System
    requires b < |s.brokers|
  {
    s.(brokers := s.brokers[b := s.brokers[b].(listeners := m)])
  }

  function Notes(f: Agent, calls: seq<Call<Json>>, from: Option<Source>): seq<Heard> {
    seq(|calls|, i requires 0 <= i < |calls| => Heard(f, calls[i], from))
  }

  /** A callback of fetch `f` runs its handlers and perhaps removes the fetch. */
  function React(s: System, f: Agent, cb: Callback, from: Option<Source>, codec: Codec): System
    requires f.broker < |s.brokers|
  {
    var m := s.brokers[f.broker].fetchers;
    WithFetchers(s, f.broker, AfterCallback(m, f.id, cb, codec))
    .(log := s.log + Notes(f, CallbackCalls(m, f.id, cb, codec), from),
      removals := if f.id in m && Removes(cb) then s.removals + [f] else s.removals)
  }

  /** The reply queue is declared: a live fetch publishes its request and starts to consume. */
  function Declared(s: System, f: Agent, queue: string, codec: Codec): System
    requires f in s.asked && f.broker < |s.brokers|
  {
    var request := Asking(s.brokers[f.broker].fetchers, f.id, queue, s.asked[f], codec);
    var s' := s.(issued := s.issued + {queue});
    if request.None? then s'
    else s'.(requests := s.requests + [Request(f, request.value)], consumers := s.consumers[queue := f])
  }

  function Delivered(s: System, a: Agent, i: nat, codec: Codec): System
    requires Listens(s, a) && i < |s.requests|
  {
    var m, envoy := s.brokers[a.broker].listeners, s.requests[i].envoy;
    var s' := WithListeners(s, a.broker, AfterDelivery(m, a.id, envoy.body, codec));
    if codec.decode(envoy.body).None? then s'
    else
      // the handler has the reply object if it ran
      var handed := !m[a.id].failed && m[a.id].on.data;
      s'.(made := s.made + [Made(i, a, handed, R.Born(R.Route(envoy.cid, envoy.replyTo)))])
  }

  function OnMade(s: System, r: nat, e: R.Event, codec: Codec): System
    requires r < |s.made| && R.Enabled(s.made[r].life, e)
  {
    s.(made := s.made[r := s.made[r].(life := R.Apply(s.made[r].life, e, codec))])
  }

  function ListenerStep(s: System, a: Agent, cb: ListenerCallback): System
    requires Listens(s, a)
  {
    WithListeners(s, a.broker, AfterListener(s.brokers[a.broker].listeners, a.id, cb))
  }

  /** The fetch callback that an event amounts to. */
  function Reaction(s: System, e: Event): (Agent, Callback, Option<Source>)
    requires Enabled(s, e) && (e.OnFetch? || e.Receive?)
  {
    match e
    case OnFetch(f, cb) => (f, cb, None)
    case Receive(source) =>
      var message := MessageOf(s, source);
      (s.consumers[message.queue], Received(message.body), Some(source))
  }

  function Apply(s: System, e: Event, codec: Codec): System
    requires Enabled(s, e)
  {
    match e
    case NewFetch(b, n, message, garbage) =>
      var bs := s.brokers[b];
      var st := State(garbage, OK, NO_HANDLERS);
      s.(brokers := s.brokers[b := bs.(next := n + 1, fetchers := bs.fetchers[Print(n) := st])],
         asked := s.asked[Agent(b, Print(n)) := message])
    case NewListener(b, n, garbage) =>
      var bs := s.brokers[b];
      var st := State(garbage, OK, NO_HANDLERS);
      s.(brokers := s.brokers[b := bs.(next := n + 1, listeners := bs.listeners[Print(n) := st])])
    case AttachToFetch(f, h) =>
      var m := s.brokers[f.broker].fetchers;
      WithFetchers(s, f.broker, m[f.id := Attached(m[f.id], h)])
    case AttachToListener(a, h) =>
      var m := s.brokers[a.broker].listeners;
      WithListeners(s, a.broker, m[a.id := Attached(m[a.id], h)])
    case OnFetch(f, cb) =>
      if cb.DeclareOk? then Declared(s, f, cb.queue, codec) else React(s, f, cb, None, codec)
    case Receive(_) => var (f, cb, from) := Reaction(s, e); React(s, f, cb, from, codec)
    case OnListener(a, cb) => ListenerStep(s, a, cb)
    case Deliver(a, i) => Delivered(s, a, i, codec)
    case OnReplay(r, ev) => OnMade(s, r, ev, codec)
    case ReplyResolved(r, c, ok) =>
      OnMade(if ok then s else ListenerStep(s, s.made[r].listener, ReplyFailed), r, R.Resolve(c), codec)
  }

  // ---- the invariant ----------------------------------------------------------------------------

  /** Ids still to be printed are unused, and live fetches were begun. */
  ghost predicate IdsInv(s: System) {
    && (forall f :: f in s.asked ==> f.broker < |s.brokers|)
    && (forall b, n: nat :: 0 <= b < |s.brokers| && s.brokers[b].next <= n ==>
          Agent(b, Print(n)) !in s.asked && Print(n) !in s.brokers[b].listeners)
    && (forall f :: Live(s, f) ==> f in s.asked && s.brokers[f.broker].fetchers[f.id].error.OK?)
  }

  /** A request carries its fetch's message, id and own reply queue. */
  predicate RequestOk(s: System, q: Request, codec: Codec) {
    && q.origin in s.asked
    && q.envoy.replyTo in s.consumers && s.consumers[q.envoy.replyTo] == q.origin
    && q.envoy.cid == q.origin.id && q.envoy.body == codec.encode(s.asked[q.origin])
  }

  ghost predicate MadeOk(s: System, m: Made, codec: Codec) {
    && m.request < |s.requests|
    && var envoy := s.requests[m.request].envoy;
       var route := R.Route(envoy.cid, envoy.replyTo);
       R.Inv(m.life, route, codec) && (!m.handed ==> m.life == R.Born(route))
  }

  ghost predicate WireInv(s: System, codec: Codec) {
    && s.consumers.Keys <= s.issued
    && (forall q :: q in s.consumers ==> s.consumers[q] in s.asked)
    && (forall i :: 0 <= i < |s.requests| ==> RequestOk(s, s.requests[i], codec))
    && (forall r :: 0 <= r < |s.made| ==> MadeOk(s, s.made[r], codec))
  }

  /** A data call hands over what some reply object sent in answer to a request of that very fetch. */
  predicate NoteOk(s: System, note: Heard, codec: Codec) {
    note.call.DataCall? ==>
      && note.from.Some? && Sent(s, note.from.value)
      && s.made[note.from.value.replay].request < |s.requests|
      && s.requests[s.made[note.from.value.replay].request].origin == note.fetch
      && codec.decode(MessageOf(s, note.from.value).body) == Some(note.call.data)
  }

  ghost predicate LogInv(s: System, codec: Codec) {
    && (forall i :: 0 <= i < |s.log| ==>
          NoteOk(s, s.log[i], codec) && (s.log[i].call.DataCall? ==> s.log[i].fetch in s.removals))
    && (forall i, j :: 0 <= i < j < |s.log| && s.log[i].call.DataCall? && s.log[j].call.DataCall? ==>
          s.log[i].fetch != s.log[j].fetch)
    && (forall i :: 0 <= i < |s.removals| ==> s.removals[i] in s.asked && !Live(s, s.removals[i]))
    && (forall i, j :: 0 <= i < j < |s.removals| ==> s.removals[i] != s.removals[j])
    && (forall f :: f in s.asked && !Live(s, f) ==> f in s.removals)
  }

  ghost predicate Inv(s: System, codec: Codec) {
    IdsInv(s) && WireInv(s, codec) && LogInv(s, codec)
  }

  predicate Initial(s: System) {
    && (forall b :: 0 <= b < |s.brokers| ==> s.brokers[b].fetchers == map[] && s.brokers[b].listeners == map[])
    && s.asked == map[] && s.consumers == map[]
    && s.requests == [] && s.made == [] && s.log == [] && s.removals == []
  }

  lemma InitialInv(s: System, codec: Codec)
    requires Initial(s)
    ensures Inv(s, codec)
  {
  }

  // ---- every step keeps it ------------------------------------------------------------------------

  lemma NewFetchKeepsIds(s: System, e: Event, codec: Codec)
    requires IdsInv(s) && Enabled(s, e) && e.NewFetch?
    ensures IdsInv(Apply(s, e, codec))
  {
    var s' := Apply(s, e, codec);
    var f := Agent(e.broker, Print(e.number));
    forall k: nat | e.number < k ensures Print(k) != f.id { PrintInjective(e.number, k); }
    forall g | Live(s', g)
      ensures g in s'.asked && s'.brokers[g.broker].fetchers[g.id].error.OK?
    {
      if g != f { assert Live(s, g); }
    }
  }

  lemma NewListenerKeepsIds(s: System, e: Event, codec: Codec)
    requires IdsInv(s) && Enabled(s, e) && e.NewListener?
    ensures IdsInv(Apply(s, e, codec))
  {
    var s' := Apply(s, e, codec);
    forall k: nat | e.number < k ensures Print(k) != Print(e.number) { PrintInjective(e.number, k); }
    forall g | Live(s', g)
      ensures g in s'.asked && s'.brokers[g.broker].fetchers[g.id].error.OK?
    {
      assert Live(s, g);
    }
  }

  /** Events that begin nothing and run no handler of a fetch. */
  predicate Quiet(e: Event) {
    !e.NewFetch? && !e.NewListener? && !e.Receive? && (e.OnFetch? ==> e.callback.DeclareOk?)
  }

  /** The same fetches are live, and no new listener is. */
  ghost predicate SameAgents(s: System, s': System) {
    && |s'.brokers| == |s.brokers| && s'.asked == s.asked
    && forall b :: 0 <= b < |s.brokers| ==>
         && s'.brokers[b].next == s.brokers[b].next
         && s'.brokers[b].fetchers.Keys == s.brokers[b].fetchers.Keys
         && s'.brokers[b].listeners.Keys <= s.brokers[b].listeners.Keys
         && forall id :: id in s.brokers[b].fetchers ==>
              s'.brokers[b].fetchers[id].error == s.brokers[b].fetchers[id].error
  }

  predicate OfListener(e: Event) {
    e.AttachToListener? || e.OnListener? || e.Deliver? || e.ReplyResolved?
  }

  lemma ListenerStepIsQuiet(s: System, e: Event, codec: Codec)
    requires Enabled(s, e) && OfListener(e)
    ensures SameAgents(s, Apply(s, e, codec))
    ensures Apply(s, e, codec).log == s.log && Apply(s, e, codec).removals == s.removals
    ensures Apply(s, e, codec).requests == s.requests && Apply(s, e, codec).consumers == s.consumers
  {
  }

  lemma QuietStep(s: System, e: Event, codec: Codec)
    requires Enabled(s, e) && Quiet(e)
    ensures SameAgents(s, Apply(s, e, codec))
    ensures Apply(s, e, codec).log == s.log && Apply(s, e, codec).removals == s.removals
  {
    if OfListener(e) { ListenerStepIsQuiet(s, e, codec); }
  }

  lemma QuietKeepsIds(s: System, s': System)
    requires IdsInv(s) && SameAgents(s, s')
    ensures IdsInv(s')
  {
    forall f | Live(s', f)
      ensures f in s'.asked && s'.brokers[f.broker].fetchers[f.id].error.OK?
    {
      assert Live(s, f);
    }
  }

  lemma StepKeepsIds(s: System, e: Event, codec: Codec)
    requires IdsInv(s) && Enabled(s, e)
    ensures IdsInv(Apply(s, e, codec))
  {
    if Quiet(e) {
      QuietStep(s, e, codec);
      QuietKeepsIds(s, Apply(s, e, codec));
    } else if e.NewFetch? {
      NewFetchKeepsIds(s, e, codec);
    } else if e.NewListener? {
      NewListenerKeepsIds(s, e, codec);
    } else {
      var (f, cb, from) := Reaction(s, e);
      ReactKeepsIds(s, f, cb, from, codec);
    }
  }

  lemma ReactKeepsIds(s: System, f: Agent, cb: Callback, from: Option<Source>, codec: Codec)
    requires IdsInv(s) && f.broker < |s.brokers|
    ensures IdsInv(React(s, f, cb, from, codec))
  {
    var s' := React(s, f, cb, from, codec);
    forall g | Live(s', g)
      ensures g in s'.asked && s'.brokers[g.broker].fetchers[g.id].error.OK?
    {
      assert Live(s, g);
      NoErrorLeft(s.brokers[g.broker].fetchers[g.id], cb, codec);
    }
  }

  /** What was sent, asked and routed stays. */
  ghost predicate Extends(s: System, s': System) {
    && |s.made| <= |s'.made| && s.requests <= s'.requests
    && (forall r :: 0 <= r < |s.made| ==>
          s'.made[r].request == s.made[r].request && s.made[r].life.sent <= s'.made[r].life.sent)
    && (forall f :: f in s.asked ==> f in s'.asked && s'.asked[f] == s.asked[f])
    && (forall q :: q in s.consumers ==> q in s'.consumers && s'.consumers[q] == s.consumers[q])
  }

  lemma StepExtends(s: System, e: Event, codec: Codec)
    requires IdsInv(s) && s.consumers.Keys <= s.issued && Enabled(s, e) && FreshQueue(s, e)
    ensures Extends(s, Apply(s, e, codec))
  {
    if OfListener(e) { ListenerStepIsQuiet(s, e, codec); }
  }

  lemma StepKeepsWire(s: System, e: Event, codec: Codec)
    requires IdsInv(s) && WireInv(s, codec) && Enabled(s, e) && FreshQueue(s, e)
    ensures WireInv(Apply(s, e, codec), codec)
  {
    var s' := Apply(s, e, codec);
    StepExtends(s, e, codec);
    forall i | 0 <= i < |s'.requests|
      ensures RequestOk(s', s'.requests[i], codec)
    {
      if i < |s.requests| { assert RequestOk(s, s.requests[i], codec); }
    }
    forall r | 0 <= r < |s'.made|
      ensures MadeOk(s', s'.made[r], codec)
    {
      MadeStaysOk(s, e, r, codec);
    }
  }

  lemma MadeStaysOk(s: System, e: Event, r: nat, codec: Codec)
    requires WireInv(s, codec) && Enabled(s, e) && r < |Apply(s, e, codec).made|
    requires Extends(s, Apply(s, e, codec))
    ensures MadeOk(Apply(s, e, codec), Apply(s, e, codec).made[r], codec)
  {
    if r < |s.made| {
      assert MadeOk(s, s.made[r], codec);
      var envoy := s.requests[s.made[r].request].envoy;
      var route := R.Route(envoy.cid, envoy.replyTo);
      if e.OnReplay? && e.replay == r {
        R.StepKeepsInv(s.made[r].life, e.event, route, codec);
      } else if e.ReplyResolved? && e.replay == r {
        R.StepKeepsInv(s.made[r].life, R.Resolve(e.commit), route, codec);
      } else {
        OthersUntouched(s, e, r, codec);
      }
    }
  }

  lemma OthersUntouched(s: System, e: Event, r: nat, codec: Codec)
    requires Enabled(s, e) && r < |s.made|
    requires !((e.OnReplay? || e.ReplyResolved?) && e.replay == r)
    ensures r < |Apply(s, e, codec).made| && Apply(s, e, codec).made[r] == s.made[r]
  {
  }

  lemma NotesStayOk(s: System, s': System, note: Heard, codec: Codec)
    requires Extends(s, s') && NoteOk(s, note, codec)
    ensures NoteOk(s', note, codec)
  {
    if note.call.DataCall? {
      var source := note.from.value;
      assert s'.made[source.replay].life.sent[source.commit] == s.made[source.replay].life.sent[source.commit];
    }
  }

  /** Steps that run no handler of a fetch and remove none. */
  lemma QuietKeepsLog(s: System, s': System, codec: Codec)
    requires LogInv(s, codec) && Extends(s, s') && s'.log == s.log && s'.removals == s.removals
    requires forall f :: f in s.asked ==> (Live(s', f) <==> Live(s, f))
    requires forall f :: f in s'.asked && f !in s.asked ==> Live(s', f)
    ensures LogInv(s', codec)
  {
    forall i | 0 <= i < |s'.log| ensures NoteOk(s', s'.log[i], codec) { NotesStayOk(s, s', s.log[i], codec); }
  }

  /** What a received message may say: it was sent by a reply object that answers a request of `f`. */
  predicate Answers(s: System, f: Agent, cb: Callback, from: Option<Source>) {
    cb.Received? ==>
      && from.Some? && Sent(s, from.value)
      && s.made[from.value.replay].request < |s.requests|
      && s.requests[s.made[from.value.replay].request].origin == f
      && MessageOf(s, from.value).body == cb.body
  }

  /** The notes that one callback adds: at most one data call, and that one well sourced. */
  lemma NewNote(s: System, f: Agent, cb: Callback, from: Option<Source>, codec: Codec, i: nat)
    requires Live(s, f) && s.brokers[f.broker].fetchers[f.id].error.OK? && Answers(s, f, cb, from)
    requires |s.log| <= i < |React(s, f, cb, from, codec).log|
    ensures var s' := React(s, f, cb, from, codec);
            && s'.log[i].fetch == f && NoteOk(s', s'.log[i], codec)
            && (s'.log[i].call.DataCall? ==>
                  Removes(cb) && forall j :: i < j < |s'.log| ==> !s'.log[j].call.DataCall?)
  {
    var s' := React(s, f, cb, from, codec);
    var calls := EntryCalls(s.brokers[f.broker].fetchers[f.id], cb, codec);
    var n := |s.log|;
    assert s'.log[i] == Heard(f, calls[i - n], from);
    if calls[i - n].DataCall? {
      DataCallsOf(s.brokers[f.broker].fetchers[f.id], cb, codec, i - n);
      forall j | i < j < |s'.log| ensures s'.log[j] == Heard(f, calls[j - n], from) {}
    }
  }

  lemma LiveReactKeepsLog(s: System, f: Agent, cb: Callback, from: Option<Source>, codec: Codec)
    requires IdsInv(s) && LogInv(s, codec) && Live(s, f) && Answers(s, f, cb, from)
    ensures LogInv(React(s, f, cb, from, codec), codec)
  {
    var s' := React(s, f, cb, from, codec);
    assert f !in s.removals;
    RemovalsGrow(s, s', f, Removes(cb));
    forall i | 0 <= i < |s'.log|
      ensures NoteOk(s', s'.log[i], codec)
      ensures s'.log[i].call.DataCall? ==> s'.log[i].fetch in s'.removals
      ensures |s.log| <= i && s'.log[i].call.DataCall? ==> forall j :: i < j < |s'.log| ==> !s'.log[j].call.DataCall?
      ensures |s.log| <= i ==> s'.log[i].fetch == f
    {
      if i < |s.log| {
        NotesStayOk(s, s', s.log[i], codec);
      } else {
        NewNote(s, f, cb, from, codec, i);
        if Removes(cb) { assert s'.removals[|s.removals|] == f; }
      }
    }
  }

  lemma ReactKeepsLog(s: System, f: Agent, cb: Callback, from: Option<Source>, codec: Codec)
    requires IdsInv(s) && LogInv(s, codec) && f in s.asked && Answers(s, f, cb, from)
    ensures LogInv(React(s, f, cb, from, codec), codec)
  {
    var s' := React(s, f, cb, from, codec);
    if Live(s, f) {
      LiveReactKeepsLog(s, f, cb, from, codec);
    } else {
      assert s'.log == s.log && s'.removals == s.removals;
      QuietKeepsLog(s, s', codec);
    }
  }

  /** The part of the log invariant that is about removals. */
  lemma RemovalsGrow(s: System, s': System, f: Agent, gone: bool)
    requires s'.asked == s.asked && f in s.asked && Live(s, f) && f !in s.removals
    requires s'.removals == if gone then s.removals + [f] else s.removals
    requires Live(s', f) <==> !gone
    requires forall g :: g != f ==> (Live(s', g) <==> Live(s, g))
    requires forall i :: 0 <= i < |s.removals| ==> s.removals[i] in s.asked && !Live(s, s.removals[i])
    requires forall i, j :: 0 <= i < j < |s.removals| ==> s.removals[i] != s.removals[j]
    requires forall g :: g in s.asked && !Live(s, g) ==> g in s.removals
    ensures forall i :: 0 <= i < |s'.removals| ==> s'.removals[i] in s'.asked && !Live(s', s'.removals[i])
    ensures forall i, j :: 0 <= i < j < |s'.removals| ==> s'.removals[i] != s'.removals[j]
    ensures forall g :: g in s'.asked && !Live(s', g) ==> g in s'.removals
  {
    forall g | g in s'.asked && !Live(s', g)
      ensures g in s'.removals
    {
      if g == f { assert s'.removals[|s.removals|] == f; } else { assert g in s.removals; }
    }
  }

  /** Isolation rests on the reply queue: a reply object answers to the queue of its own request. */
  lemma RouteLeadsHome(s: System, source: Source, codec: Codec)
    requires WireInv(s, codec) && Sent(s, source) && MessageOf(s, source).queue in s.consumers
    ensures s.made[source.replay].request < |s.requests|
    ensures var request := s.requests[s.made[source.replay].request];
            && s.consumers[MessageOf(s, source).queue] == request.origin
            && MessageOf(s, source).queue == request.envoy.replyTo
            && MessageOf(s, source).cid == request.envoy.cid
  {
    assert MadeOk(s, s.made[source.replay], codec);
    assert RequestOk(s, s.requests[s.made[source.replay].request], codec);
  }

  lemma NewKeepsLog(s: System, e: Event, codec: Codec)
    requires Inv(s, codec) && Enabled(s, e) && (e.NewFetch? || e.NewListener?)
    ensures LogInv(Apply(s, e, codec), codec)
  {
    StepExtends(s, e, codec);
    QuietKeepsLog(s, Apply(s, e, codec), codec);
  }

  lemma ReactionAnswers(s: System, e: Event, codec: Codec)
    requires WireInv(s, codec) && Enabled(s, e) && (e.OnFetch? || e.Receive?)
    ensures var (f, cb, from) := Reaction(s, e); f in s.asked && Answers(s, f, cb, from)
  {
    if e.Receive? { RouteLeadsHome(s, e.source, codec); }
  }

  lemma StepKeepsLog(s: System, e: Event, codec: Codec)
    requires Inv(s, codec) && Enabled(s, e) && FreshQueue(s, e)
    ensures LogInv(Apply(s, e, codec), codec)
  {
    if Quiet(e) {
      StepExtends(s, e, codec);
      QuietStep(s, e, codec);
      QuietKeepsLog(s, Apply(s, e, codec), codec);
    } else if e.NewFetch? || e.NewListener? {
      NewKeepsLog(s, e, codec);
    } else {
      var (f, cb, from) := Reaction(s, e);
      ReactionAnswers(s, e, codec);
      ReactKeepsLog(s, f, cb, from, codec);
    }
  }

  lemma StepKeepsInv(s: System, e: Event, codec: Codec)
    requires Inv(s, codec) && Enabled(s, e) && FreshQueue(s, e)
    ensures Inv(Apply(s, e, codec), codec)
  {
    StepKeepsIds(s, e, codec);
    StepKeepsWire(s, e, codec);
    StepKeepsLog(s, e, codec);
  }
}
