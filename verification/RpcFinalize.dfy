/**
 The finalize handler of a fetch: in every run it runs exactly once if the fetch is removed, as the
 last thing the fetch is heard of, and never otherwise.
 */
module RpcFinalize {
  import opened Wrappers
  import opened Json
  import opened Decimal
  import opened BrokerModel
  import opened D = Deferred
  import opened RpcSystem
  import Runs = RpcRuns

  /** The calls of handlers of fetch `f`, in order. */
  function CallsTo(log: seq<Heard>, f: Agent): seq<Call<Json>> {
    if log == [] then []
    else
      var n := |log| - 1;
      CallsTo(log[..n], f) + if log[n].fetch == f then [log[n].call] else []
  }

  lemma {:induction false} CallsToNotes(log: seq<Heard>, f: Agent, g: Agent, calls: seq<Call<Json>>, from: Option<Source>)
    ensures CallsTo(log + Notes(g, calls, from), f) == CallsTo(log, f) + if g == f then calls else []
    decreases |calls|
  {
    var all := log + Notes(g, calls, from);
    if calls == [] {
      assert all == log;
    } else {
      var n := |calls| - 1;
      CallsToNotes(log, f, g, calls[..n], from);
      assert all[..|all| - 1] == log + Notes(g, calls[..n], from);
      assert all[|all| - 1] == Heard(g, calls[n], from);
      assert calls == calls[..n] + [calls[n]];
    }
  }

  /** The finalize handler ran once, after all others. */
  predicate FinalizedLast(calls: seq<Call<Json>>) {
    calls != [] && calls[|calls| - 1] == FinalizeCall && FinalizeCall !in calls[..|calls| - 1]
  }

  lemma ReportsDoNotFinalize(st: State, cb: Callback, codec: Codec)
    ensures FinalizeCall !in ReportCalls(st, cb, codec)
  {
  }

  /** Removal runs a registered finalize handler, last; nothing else runs it. */
  lemma OnlyRemovalFinalizes(before: seq<Call<Json>>, st: State, cb: Callback, codec: Codec)
    requires FinalizeCall !in before
    ensures var calls := before + EntryCalls(st, cb, codec);
            if Removes(cb) && st.on.finalize then FinalizedLast(calls) else FinalizeCall !in calls
  {
    ReportsDoNotFinalize(st, cb, codec);
    var after := Reported(st, cb, codec);
    var reports, errors := ReportCalls(st, cb, codec), ErrorCalls<Json>(after, after.error);
    assert after.on == st.on;
    assert FinalizeCall !in errors;
    assert FinalizeCall !in before + (reports + errors);
    if Removes(cb) && st.on.finalize {
      assert before + EntryCalls(st, cb, codec) == (before + (reports + errors)) + [FinalizeCall];
    } else if Removes(cb) {
      assert EntryCalls(st, cb, codec) == reports + errors;
    } else {
      assert EntryCalls(st, cb, codec) == reports;
    }
  }

  /** What a fetch heard, when it is `gone` or not, and a finalize handler was attached or not. */
  predicate HeardRight(calls: seq<Call<Json>>, gone: bool, attached: bool) {
    if gone && attached then FinalizedLast(calls) else FinalizeCall !in calls
  }

  /** `attached`: a finalize handler was attached to `f`. */
  predicate Tracked(s: System, attached: bool, f: Agent) {
    && HeardRight(CallsTo(s.log, f), f in s.removals, attached)
    && (Live(s, f) ==> (s.brokers[f.broker].fetchers[f.id].on.finalize <==> attached))
    && (attached ==> f in s.asked)
  }

  predicate AttachedBy(e: Event, f: Agent) { e == AttachToFetch(f, FinalizeHandler) }

  lemma FetchersStay(s: System, e: Event, codec: Codec)
    requires Enabled(s, e) && Quiet(e) && !e.AttachToFetch?
    ensures var s' := Apply(s, e, codec);
            && |s'.brokers| == |s.brokers| && s'.asked == s.asked
            && forall b :: 0 <= b < |s.brokers| ==> s'.brokers[b].fetchers == s.brokers[b].fetchers
  {
  }

  lemma QuietTracks(s: System, e: Event, attached: bool, codec: Codec, f: Agent)
    requires Tracked(s, attached, f) && Enabled(s, e) && Quiet(e) && !e.AttachToFetch?
    ensures Tracked(Apply(s, e, codec), attached, f)
  {
    FetchersStay(s, e, codec);
    QuietStep(s, e, codec);
    assert Live(Apply(s, e, codec), f) <==> Live(s, f);
  }

  lemma AttachTracks(s: System, g: Agent, h: Attachment, attached: bool, f: Agent)
    requires Tracked(s, attached, f) && Live(s, g) && g in s.asked && g !in s.removals
    ensures var m := s.brokers[g.broker].fetchers;
            Tracked(WithFetchers(s, g.broker, m[g.id := Attached(m[g.id], h)]), attached || AttachedBy(AttachToFetch(g, h), f), f)
  {
    var m := s.brokers[g.broker].fetchers;
    var s' := WithFetchers(s, g.broker, m[g.id := Attached(m[g.id], h)]);
    assert Live(s', f) <==> Live(s, f);
  }

  lemma NewFetchTracks(s: System, e: Event, attached: bool, codec: Codec, f: Agent)
    requires Tracked(s, attached, f) && Enabled(s, e) && e.NewFetch?
    requires Agent(e.broker, Print(e.number)) !in s.asked
    ensures Tracked(Apply(s, e, codec), attached, f)
  {
    if f != Agent(e.broker, Print(e.number)) {
      assert Live(Apply(s, e, codec), f) <==> Live(s, f);
    }
  }

  lemma NewListenerTracks(s: System, e: Event, attached: bool, codec: Codec, f: Agent)
    requires Tracked(s, attached, f) && Enabled(s, e) && e.NewListener?
    ensures Tracked(Apply(s, e, codec), attached, f)
  {
    assert Live(Apply(s, e, codec), f) <==> Live(s, f);
  }

  lemma ReactTracks(s: System, attached: bool, g: Agent, cb: Callback, from: Option<Source>, codec: Codec, f: Agent)
    requires Tracked(s, attached, f) && g.broker < |s.brokers| && (Live(s, g) ==> g !in s.removals)
    ensures Tracked(React(s, g, cb, from, codec), attached, f)
  {
    var m := s.brokers[g.broker].fetchers;
    CallsToNotes(s.log, f, g, CallbackCalls(m, g.id, cb, codec), from);
    if f != g {
      OtherTracks(s, attached, g, cb, from, codec, f);
    } else if Live(s, g) {
      OnlyRemovalFinalizes(CallsTo(s.log, f), m[g.id], cb, codec);
      LiveTracks(s, attached, g, cb, from, codec);
    } else {
      assert CallsTo(s.log, f) + [] == CallsTo(s.log, f);
    }
  }

  lemma OtherTracks(s: System, attached: bool, g: Agent, cb: Callback, from: Option<Source>, codec: Codec, f: Agent)
    requires Tracked(s, attached, f) && g.broker < |s.brokers| && f != g
    requires CallsTo(React(s, g, cb, from, codec).log, f) == CallsTo(s.log, f) + []
    ensures Tracked(React(s, g, cb, from, codec), attached, f)
  {
    assert Live(React(s, g, cb, from, codec), f) <==> Live(s, f);
    assert CallsTo(s.log, f) + [] == CallsTo(s.log, f);
  }

  lemma LiveTracks(s: System, attached: bool, g: Agent, cb: Callback, from: Option<Source>, codec: Codec)
    requires Tracked(s, attached, g) && Live(s, g) && g !in s.removals
    requires var st := s.brokers[g.broker].fetchers[g.id];
             HeardRight(CallsTo(React(s, g, cb, from, codec).log, g), Removes(cb), st.on.finalize)
    ensures Tracked(React(s, g, cb, from, codec), attached, g)
  {
    var s' := React(s, g, cb, from, codec);
    if Removes(cb) { assert s'.removals[|s.removals|] == g; }
    assert Reported(s.brokers[g.broker].fetchers[g.id], cb, codec).on == s.brokers[g.broker].fetchers[g.id].on;
  }

  lemma StepTracks(s: System, e: Event, attached: bool, codec: Codec, f: Agent)
    requires Inv(s, codec) && Tracked(s, attached, f) && Enabled(s, e)
    ensures Tracked(Apply(s, e, codec), attached || AttachedBy(e, f), f)
  {
    if e.AttachToFetch? {
      AttachTracks(s, e.agent, e.attachment, attached, f);
    } else if e.NewFetch? {
      NewFetchTracks(s, e, attached, codec, f);
    } else if e.NewListener? {
      NewListenerTracks(s, e, attached, codec, f);
    } else if Quiet(e) {
      QuietTracks(s, e, attached, codec, f);
    } else {
      var (g, cb, from) := Reaction(s, e);
      ReactTracks(s, attached, g, cb, from, codec, f);
    }
  }

  lemma {:induction false} RunTracks(s: System, es: seq<Event>, attached: bool, codec: Codec, f: Agent)
    requires Inv(s, codec) && Tracked(s, attached, f) && Runs.Possible(s, es, codec)
    ensures Tracked(Runs.After(s, es, codec), attached || AttachToFetch(f, FinalizeHandler) in es, f)
    decreases |es|
  {
    if es != [] {
      StepKeepsInv(s, es[0], codec);
      StepTracks(s, es[0], attached, codec, f);
      RunTracks(Apply(s, es[0], codec), es[1..], attached || AttachedBy(es[0], f), codec, f);
      HeadOrTail(es, AttachToFetch(f, FinalizeHandler));
    }
  }

  lemma HeadOrTail(es: seq<Event>, e: Event)
    requires es != []
    ensures e in es <==> es[0] == e || e in es[1..]
  {
    assert es == [es[0]] + es[1..];
  }

  /**
   In every run a removed fetch that a finalize handler was attached to heard it exactly once, as its
   last call; a fetch that is not removed, or has none attached, never.
   */
  lemma FinalizedOnce(s0: System, es: seq<Event>, codec: Codec, f: Agent)
    requires Initial(s0) && Runs.Possible(s0, es, codec)
    ensures var s := Runs.After(s0, es, codec);
            if f in s.removals && AttachToFetch(f, FinalizeHandler) in es
            then FinalizedLast(CallsTo(s.log, f))
            else FinalizeCall !in CallsTo(s.log, f)
  {
    InitialInv(s0, codec);
    assert !Live(s0, f) && CallsTo(s0.log, f) == [];
    RunTracks(s0, es, false, codec, f);
  }
}
