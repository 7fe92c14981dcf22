/**
 The callback object of include/capy/amqp_deferred.h: a gate for data reports, one error slot and
 four optional handlers. Handler invocations are the observable effect, so every report returns
 the calls it makes.
 */
module Deferred {
  datatype Code =
    | OK | QUEUE_DECLARATION | QUEUE_BINDING | QUEUE_CONSUMING | CHANNEL_MESSAGE | PUBLISH | DATA_RESPONSE
    | OTHER(value: int)

  datatype Call<+D> = DataCall(data: D) | SuccessCall | ErrorCall(code: Code) | FinalizeCall

  /** Which handlers are registered. */
  datatype Handlers = Handlers(data: bool, success: bool, error: bool, finalize: bool)

  const NO_HANDLERS := Handlers(false, false, false, false)

  datatype State = State(failed: bool, error: Code, on: Handlers)

  // ---- the effect of one report -----------------------------------------------------------------

  function DataCalls<D>(st: State, d: D): seq<Call<D>> {
    if !st.failed && st.on.data then [DataCall(d)] else []
  }

  function SuccessCalls<D>(st: State): seq<Call<D>> {
    if st.on.success then [SuccessCall] else []
  }

  function AfterSuccess(st: State): State { st.(failed := false) }

  function ErrorCalls<D>(st: State, code: Code): seq<Call<D>> {
    if !code.OK? && st.on.error then [ErrorCall(code)] else []
  }

  /** An OK report only empties the error slot. */
  function AfterError(st: State, code: Code): State {
    st.(failed := st.failed || !code.OK?, error := OK)
  }

  function DestroyCalls<D>(st: State): seq<Call<D>> {
    ErrorCalls(st, st.error) + (if st.on.finalize then [FinalizeCall] else [])
  }

  class Deferred<D> {
    var failed: bool
    var error: Code
    var dataHandler: bool
    var successHandler: bool
    var errorHandler: bool
    var finalizeHandler: bool

    function Snapshot(): State
      reads this
    {
      State(failed, error, Handlers(dataHandler, successHandler, errorHandler, finalizeHandler))
    }

    /** The source leaves `failed_` without an initial value: it is whatever the memory held. */
    constructor (garbage: bool, error: Code)
      ensures Snapshot() == State(garbage, error, NO_HANDLERS)
    {
      this.failed, this.error := garbage, error;
      dataHandler, successHandler, errorHandler, finalizeHandler := false, false, false, false;
    }

    method ReportData(d: D) returns (calls: seq<Call<D>>)
      ensures calls == DataCalls(Snapshot(), d)
      ensures calls == if dataHandler && !failed then [DataCall(d)] else []
    {
      calls := [];
      if !failed && dataHandler { calls := [DataCall(d)]; }
    }

    method ReportSuccess() returns (calls: seq<Call<D>>)
      modifies this`failed
      ensures Snapshot() == AfterSuccess(old(Snapshot())) && calls == SuccessCalls(old(Snapshot()))
      ensures !failed && calls == if successHandler then [SuccessCall] else []
    {
      calls := [];
      failed := false;
      if successHandler { calls := [SuccessCall]; }
    }

    method ReportError(code: Code) returns (calls: seq<Call<D>>)
      modifies this`failed, this`error
      ensures Snapshot() == AfterError(old(Snapshot()), code) && calls == ErrorCalls(old(Snapshot()), code)
      ensures error == OK && (failed <==> old(failed) || code != OK)
      ensures calls == if errorHandler && code != OK then [ErrorCall(code)] else []
    {
      calls := [];
      error := code;
      if !error.OK? {
        failed := true;
        if errorHandler { calls := [ErrorCall(error)]; }
        error := OK;
      }
    }

    method OnData()
      modifies this`dataHandler
      ensures Snapshot() == old(Snapshot()).(on := old(Snapshot()).on.(data := true))
    { dataHandler := true; }

    method OnSuccess()
      modifies this`successHandler
      ensures Snapshot() == old(Snapshot()).(on := old(Snapshot()).on.(success := true))
    { successHandler := true; }

    method OnError()
      modifies this`errorHandler
      ensures Snapshot() == old(Snapshot()).(on := old(Snapshot()).on.(error := true))
    { errorHandler := true; }

    method OnFinalize()
      modifies this`finalizeHandler
      ensures Snapshot() == old(Snapshot()).(on := old(Snapshot()).on.(finalize := true))
    { finalizeHandler := true; }

    /** The destructor. */
    method Destroy() returns (calls: seq<Call<D>>)
      modifies this
      ensures calls == DestroyCalls(old(Snapshot()))
      ensures calls == (if old(errorHandler) && old(error) != OK then [ErrorCall(old(error))] else [])
                       + (if old(finalizeHandler) then [FinalizeCall] else [])
      ensures Snapshot().on == NO_HANDLERS
    {
      calls := [];
      if !error.OK? && errorHandler { calls := [ErrorCall(error)]; }
      if finalizeHandler { calls := calls + [FinalizeCall]; }
      dataHandler, successHandler, errorHandler, finalizeHandler := false, false, false, false;
    }
  }

  // ---- any sequence of reports and registrations ------------------------------------------------

  datatype Report<D> = Data(data: D) | Success | Error(code: Code) | OnData | OnSuccess | OnError | OnFinalize

  function Next<D>(st: State, r: Report<D>): State {
    match r
    case Data(_) => st
    case Success => AfterSuccess(st)
    case Error(code) => AfterError(st, code)
    case OnData => st.(on := st.on.(data := true))
    case OnSuccess => st.(on := st.on.(success := true))
    case OnError => st.(on := st.on.(error := true))
    case OnFinalize => st.(on := st.on.(finalize := true))
  }

  function Calls<D>(st: State, r: Report<D>): seq<Call<D>> {
    match r
    case Data(d) => DataCalls(st, d)
    case Success => SuccessCalls(st)
    case Error(code) => ErrorCalls(st, code)
    case _ => []
  }

  function After<D>(st: State, rs: seq<Report<D>>): State {
    if rs == [] then st else Next(After(st, rs[..|rs| - 1]), rs[|rs| - 1])
  }

  /** The calls made by report number `i` of a sequence that starts in `st`. */
  function CallsAt<D>(st: State, rs: seq<Report<D>>, i: nat): seq<Call<D>>
    requires i < |rs|
  {
    Calls(After(st, rs[..i]), rs[i])
  }

  predicate Failure<D>(r: Report<D>) { r.Error? && !r.code.OK? }

  /** The latest effective status among `rs` is a success. */
  ghost predicate LastSucceeded<D>(rs: seq<Report<D>>) {
    exists j :: 0 <= j < |rs| && rs[j].Success? && forall k :: j < k < |rs| ==> !Failure(rs[k])
  }

  /** The latest effective status among `rs` is a failure. */
  ghost predicate LastFailed<D>(rs: seq<Report<D>>) {
    exists j :: 0 <= j < |rs| && Failure(rs[j]) && forall k :: j < k < |rs| ==> !rs[k].Success?
  }

  /** The gate follows the latest effective status, and only before any is it what it was. */
  lemma {:induction false} GateFollowsStatus<D>(st: State, rs: seq<Report<D>>)
    ensures LastSucceeded(rs) ==> !After(st, rs).failed
    ensures LastFailed(rs) ==> After(st, rs).failed
    ensures !LastSucceeded(rs) && !LastFailed(rs) ==> After(st, rs).failed == st.failed
    ensures (exists j :: 0 <= j < |rs| && (rs[j].Success? || Failure(rs[j]))) ==> LastSucceeded(rs) || LastFailed(rs)
  {
    if rs != [] {
      var n := |rs| - 1;
      var before := rs[..n];
      GateFollowsStatus(st, before);
      if rs[n].Success? {
        assert LastSucceeded(rs);
        assert !LastFailed(rs);
      } else if Failure(rs[n]) {
        assert LastFailed(rs);
        assert !LastSucceeded(rs);
      } else {
        SameSuccess(before, rs[n]);
        SameFailure(before, rs[n]);
        assert before + [rs[n]] == rs;
        if exists j :: 0 <= j < |rs| && (rs[j].Success? || Failure(rs[j])) {
          var j :| 0 <= j < |rs| && (rs[j].Success? || Failure(rs[j]));
          assert before[j] == rs[j];
        }
      }
    }
  }

  lemma SameSuccess<D>(rs: seq<Report<D>>, r: Report<D>)
    requires !r.Success? && !Failure(r)
    ensures LastSucceeded(rs + [r]) <==> LastSucceeded(rs)
  {
    var all := rs + [r];
    forall j | 0 <= j < |rs| ensures all[j] == rs[j] {}
    if LastSucceeded(rs) {
      var j :| 0 <= j < |rs| && rs[j].Success? && forall k :: j < k < |rs| ==> !Failure(rs[k]);
      assert all[j].Success?;
    }
    if LastSucceeded(all) {
      var j :| 0 <= j < |all| && all[j].Success? && forall k :: j < k < |all| ==> !Failure(all[k]);
      assert rs[j].Success?;
      forall k | j < k < |rs| ensures !Failure(rs[k]) { assert !Failure(all[k]); }
    }
  }

  lemma SameFailure<D>(rs: seq<Report<D>>, r: Report<D>)
    requires !r.Success? && !Failure(r)
    ensures LastFailed(rs + [r]) <==> LastFailed(rs)
  {
    var all := rs + [r];
    forall j | 0 <= j < |rs| ensures all[j] == rs[j] {}
    if LastFailed(rs) {
      var j :| 0 <= j < |rs| && Failure(rs[j]) && forall k :: j < k < |rs| ==> !rs[k].Success?;
      assert Failure(all[j]);
    }
    if LastFailed(all) {
      var j :| 0 <= j < |all| && Failure(all[j]) && forall k :: j < k < |all| ==> !all[k].Success?;
      assert Failure(rs[j]);
      forall k | j < k < |rs| ensures !rs[k].Success? { assert !all[k].Success?; }
    }
  }

  /** Handlers only ever get registered. */
  lemma {:induction false} HandlersAccumulate<D>(st: State, rs: seq<Report<D>>)
    ensures After(st, rs).on == Handlers(
              st.on.data || Report<D>.OnData in rs, st.on.success || Report<D>.OnSuccess in rs,
              st.on.error || Report<D>.OnError in rs, st.on.finalize || Report<D>.OnFinalize in rs)
  {
    if rs != [] {
      var n := |rs| - 1;
      HandlersAccumulate(st, rs[..n]);
      assert rs == rs[..n] + [rs[n]];
    }
  }

  /** The error slot empties with the first error report. */
  lemma {:induction false} SlotEmpties<D>(st: State, rs: seq<Report<D>>)
    ensures After(st, rs).error == if exists j :: 0 <= j < |rs| && rs[j].Error? then OK else st.error
  {
    if rs != [] {
      var n := |rs| - 1;
      SlotEmpties(st, rs[..n]);
      if exists j :: 0 <= j < n && rs[j].Error? {
        var j :| 0 <= j < n && rs[j].Error?;
        assert rs[..n][j].Error?;
      }
    }
  }

  /**
   After an initial success or failure, a data report runs the data handler exactly when it is
   registered and the latest effective status before it was a success.
   */
  lemma DataRunsExactlyWhenOpen<D>(st: State, rs: seq<Report<D>>, i: nat)
    requires i < |rs| && rs[i].Data?
    requires exists j :: 0 <= j < i && (rs[j].Success? || Failure(rs[j]))
    ensures CallsAt(st, rs, i) ==
            if LastSucceeded(rs[..i]) && (st.on.data || Report<D>.OnData in rs[..i]) then [DataCall(rs[i].data)] else []
    ensures LastSucceeded(rs[..i]) <==> !LastFailed(rs[..i])
  {
    GateFollowsStatus(st, rs[..i]);
    HandlersAccumulate(st, rs[..i]);
    var j :| 0 <= j < i && (rs[j].Success? || Failure(rs[j]));
    assert rs[..i][j] == rs[j];
  }

  /**
   Every success report runs a registered success handler once, whatever came before; no other report
   runs it, nor does destruction. A registration runs nothing.
   */
  lemma SuccessReachesHandlerOnce<D>(st: State, rs: seq<Report<D>>, i: nat)
    requires i < |rs|
    ensures rs[i].Success? ==>
              CallsAt(st, rs, i) == if st.on.success || Report<D>.OnSuccess in rs[..i] then [SuccessCall] else []
    ensures !rs[i].Success? ==> SuccessCall !in CallsAt(st, rs, i)
    ensures !rs[i].Success? && !rs[i].Error? && !rs[i].Data? ==> CallsAt(st, rs, i) == []
    ensures SuccessCall !in DestroyCalls<D>(After(st, rs))
  {
    HandlersAccumulate(st, rs[..i]);
  }

  /** Every failure reaches a registered error handler once; an OK report reaches none. */
  lemma FailureReachesHandlerOnce<D>(st: State, rs: seq<Report<D>>, i: nat)
    requires i < |rs| && rs[i].Error?
    ensures CallsAt(st, rs, i) ==
            if Failure(rs[i]) && (st.on.error || Report<D>.OnError in rs[..i]) then [ErrorCall(rs[i].code)] else []
  {
    HandlersAccumulate(st, rs[..i]);
  }

  /**
   Destruction runs a registered finalize handler once, and repeats no reported error: an error
   call is left only for the error the object was built with, if no error report came since.
   */
  lemma DestructionRepeatsNothing<D>(st: State, rs: seq<Report<D>>)
    ensures DestroyCalls<D>(After(st, rs)) ==
            (if (forall j :: 0 <= j < |rs| ==> !rs[j].Error?) && !st.error.OK? && (st.on.error || Report<D>.OnError in rs)
             then [ErrorCall(st.error)] else [])
            + (if st.on.finalize || Report<D>.OnFinalize in rs then [FinalizeCall] else [])
    ensures forall i :: 0 <= i < |rs| ==> FinalizeCall !in CallsAt(st, rs, i)
  {
    HandlersAccumulate(st, rs);
    SlotEmpties(st, rs);
  }
}
