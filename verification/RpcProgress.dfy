/**
 That the protocol does what it is for: a live fetch publishes its request, an open listener is handed
 a reply object for it, and a reply that is committed is heard by the fetch that asked.
 */
module RpcProgress {
  import opened Wrappers
  import opened Json
  import opened BrokerModel
  import opened D = Deferred
  import opened RpcSystem
  import R = Replay
  import Runs = RpcRuns

  /** When its reply queue is declared, a live fetch publishes its own message and consumes from the queue. */
  lemma LiveFetchAsks(s: System, f: Agent, queue: string, codec: Codec)
    requires Live(s, f) && f in s.asked
    ensures Enabled(s, OnFetch(f, DeclareOk(queue)))
    ensures var s' := Apply(s, OnFetch(f, DeclareOk(queue)), codec);
            && s'.requests == s.requests + [Request(f, Envoy(queue, f.id, codec.encode(s.asked[f])))]
            && queue in s'.consumers && s'.consumers[queue] == f
            && s'.log == s.log && s'.removals == s.removals
  {
  }

  /** A request that decodes gives an open listener a reply object, which its handler may commit. */
  lemma OpenListenerIsHanded(s: System, a: Agent, i: nat, m: R.Payload, codec: Codec)
    requires Listens(s, a) && i < |s.requests| && codec.decode(s.requests[i].envoy.body).Some?
    requires var st := s.brokers[a.broker].listeners[a.id]; !st.failed && st.on.data
    ensures Enabled(s, Deliver(a, i))
    ensures var s' := Apply(s, Deliver(a, i), codec);
            && |s'.made| == |s.made| + 1 && s'.made[..|s.made|] == s.made
            && s'.made[|s.made|].request == i && s'.made[|s.made|].listener == a
            && Enabled(s', OnReplay(|s.made|, R.Commit(m)))
  {
  }

  /**
   What a listener is told changes its gate: a callback of its own, a request that does not decode, and
   the failure of a reply's transaction.
   */
  lemma ListenerIsTold(s: System, a: Agent, codec: Codec)
    requires Listens(s, a)
    ensures var st := s.brokers[a.broker].listeners[a.id];
            var told := Apply(s, OnListener(a, Consuming), codec);
            && (Listens(told, a) && told.brokers[a.broker].listeners[a.id] == State(false, st.error, st.on))
            && (forall cb: ListenerCallback :: !cb.Consuming? && !cb.ConsumeFailed? ==>
                  var s' := Apply(s, OnListener(a, cb), codec);
                  Listens(s', a) && s'.brokers[a.broker].listeners[a.id] == State(true, OK, st.on))
            && !Listens(Apply(s, OnListener(a, ConsumeFailed), codec), a)
            && forall i :: 0 <= i < |s.requests| && codec.decode(s.requests[i].envoy.body).None? ==>
                 var s' := Apply(s, Deliver(a, i), codec);
                 && Listens(s', a) && s'.brokers[a.broker].listeners[a.id] == State(true, OK, st.on)
                 && s'.made == s.made
  {
  }

  lemma FailedReplyIsReported(s: System, r: nat, c: nat, codec: Codec)
    requires Enabled(s, ReplyResolved(r, c, false))
    ensures var a := s.made[r].listener;
            var s' := Apply(s, ReplyResolved(r, c, false), codec);
            && Listens(s', a) && s'.brokers[a.broker].listeners[a.id] == State(true, OK, s.brokers[a.broker].listeners[a.id].on)
            && s'.made[r].life.freed == s.made[r].life.freed + 1
  {
  }

  /** A commit sends the answer to the queue of the request, where the fetch that asked consumes. */
  lemma CommitIsReceivable(s: System, r: nat, m: R.Payload, codec: Codec)
    requires Inv(s, codec) && r < |s.made| && s.made[r].handed && s.made[r].life.freed == 0
    ensures Enabled(s, OnReplay(r, R.Commit(m))) && s.made[r].request < |s.requests|
    ensures var s' := Apply(s, OnReplay(r, R.Commit(m)), codec);
            var source := Source(r, |s.made[r].life.sent|);
            && s'.brokers == s.brokers && s'.log == s.log && s'.asked == s.asked
            && Enabled(s', Receive(source))
            && MessageOf(s', source).body == codec.encode(R.Answer(m))
            && s'.consumers[MessageOf(s', source).queue] == s.requests[s.made[r].request].origin
  {
    assert MadeOk(s, s.made[r], codec);
    assert RequestOk(s, s.requests[s.made[r].request], codec);
  }

  /** What a live fetch does when a body arrives that decodes. */
  lemma BodyIsHeard(s: System, f: Agent, body: Body, j: Json, source: Source, codec: Codec)
    requires Live(s, f) && s.brokers[f.broker].fetchers[f.id].error.OK? && codec.decode(body) == Some(j)
    ensures var st := s.brokers[f.broker].fetchers[f.id];
            var s' := React(s, f, Received(body), Some(source), codec);
            && !Live(s', f)
            && s'.log == s.log + Notes(f, (if !st.failed && st.on.data then [DataCall(j)] else [])
                                          + (if st.on.finalize then [FinalizeCall] else []), Some(source))
  {
    AcceptedBody(s.brokers[f.broker].fetchers, f.id, body, codec, j);
  }

  /**
   From any reachable state: a reply that user code commits can be received at once, and then the fetch
   that asked, if still live, hears the answer exactly if its gate is open and a data handler attached,
   and is finalized.
   */
  lemma CommittedReplyIsHeard(s: System, r: nat, m: R.Payload, codec: Codec)
    requires Runs.Reachable(s, codec) && Lossless(codec)
    requires r < |s.made| && s.made[r].handed && s.made[r].life.freed == 0 && s.made[r].request < |s.requests|
    requires Live(s, s.requests[s.made[r].request].origin)
    ensures Enabled(s, OnReplay(r, R.Commit(m)))
    ensures var f := s.requests[s.made[r].request].origin;
            var st := s.brokers[f.broker].fetchers[f.id];
            var s1 := Apply(s, OnReplay(r, R.Commit(m)), codec);
            var source := Source(r, |s.made[r].life.sent|);
            && Enabled(s1, Receive(source))
            && var s2 := Apply(s1, Receive(source), codec);
               && !Live(s2, f)
               && s2.log == s.log + Notes(f, (if !st.failed && st.on.data then [DataCall(R.Answer(m))] else [])
                                             + (if st.on.finalize then [FinalizeCall] else []), Some(source))
  {
    Runs.ReachableInv(s, codec);
    CommitIsReceivable(s, r, m, codec);
    var f := s.requests[s.made[r].request].origin;
    var s1 := Apply(s, OnReplay(r, R.Commit(m)), codec);
    assert Live(s1, f);
    BodyIsHeard(s1, f, codec.encode(R.Answer(m)), R.Answer(m), Source(r, |s.made[r].life.sent|), codec);
  }
}
