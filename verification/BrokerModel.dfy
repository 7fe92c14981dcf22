/**
 What each asynchronous callback of a fetch or a listener does to the entries of one broker
 (src/broker_impl/broker.cc:144-444), as functions on the callback states of its live entries.
 */
module BrokerModel {
  import opened Wrappers
  import opened Json
  import opened D = Deferred

  /** A printed correlation id. */
  type Id = string

  // ---- fetches -----------------------------------------------------------------------------------

  datatype Callback =
    | DeclareOk(queue: string)   // the reply queue is declared under a name the server chose
    | DeclareError
    | CommitError                // the request's transaction failed
    | ConsumeOk
    | ConsumeError
    | Received(body: Body)

  predicate Removes(cb: Callback) {
    cb.DeclareError? || cb.ConsumeError? || cb.Received?
  }

  function ErrorOf(cb: Callback, codec: Codec): Code {
    match cb
    case DeclareError => QUEUE_DECLARATION
    case CommitError => PUBLISH
    case ConsumeError => DATA_RESPONSE
    case Received(body) => if codec.decode(body).None? then DATA_RESPONSE else OK
    case _ => OK
  }

  /** The state after what the callback reports, before any removal. */
  function Reported(st: State, cb: Callback, codec: Codec): State {
    match cb
    case DeclareOk(_) => st
    case ConsumeOk => AfterSuccess(st)
    case Received(body) => if codec.decode(body).None? then AfterError(st, DATA_RESPONSE) else st
    case _ => AfterError(st, ErrorOf(cb, codec))
  }

  /** A rejected body leaves the value that the receiver started with. */
  function Decoded(codec: Codec, body: Body): Json {
    match codec.decode(body)
    case Some(j) => j
    case None => Null
  }

  function ReportCalls(st: State, cb: Callback, codec: Codec): seq<Call<Json>> {
    match cb
    case DeclareOk(_) => []
    case ConsumeOk => SuccessCalls(st)
    case Received(body) =>
      ErrorCalls(st, ErrorOf(cb, codec)) + DataCalls(Reported(st, cb, codec), Decoded(codec, body))
    case _ => ErrorCalls(st, ErrorOf(cb, codec))
  }

  /** The handlers that run; removal destroys the callback object. */
  function EntryCalls(st: State, cb: Callback, codec: Codec): seq<Call<Json>> {
    ReportCalls(st, cb, codec) + if Removes(cb) then DestroyCalls(Reported(st, cb, codec)) else []
  }

  function AfterCallback(m: map<Id, State>, id: Id, cb: Callback, codec: Codec): map<Id, State> {
    if id !in m then m
    else if Removes(cb) then m - {id}
    else m[id := Reported(m[id], cb, codec)]
  }

  function CallbackCalls(m: map<Id, State>, id: Id, cb: Callback, codec: Codec): seq<Call<Json>> {
    if id in m then EntryCalls(m[id], cb, codec) else []
  }

  /** A reply body is decoded and perhaps reported as bad; then data is reported, and the fetch ends. */
  lemma ReceivedInTwo(m: map<Id, State>, id: Id, body: Body, codec: Codec)
    requires id in m
    ensures var st := Reported(m[id], Received(body), codec);
            CallbackCalls(m, id, Received(body), codec) ==
            ErrorCalls(m[id], ErrorOf(Received(body), codec)) + (DataCalls(st, Decoded(codec, body)) + DestroyCalls(st))
  {
    var st := Reported(m[id], Received(body), codec);
    ConcatAssociates(ErrorCalls<Json>(m[id], ErrorOf(Received(body), codec)), DataCalls(st, Decoded(codec, body)), DestroyCalls<Json>(st));
  }

  /** A request on its way: the reply queue and correlation id travel with it. */
  datatype Envoy = Envoy(replyTo: string, cid: Id, body: Body)

  function Asking(m: map<Id, State>, id: Id, queue: string, message: Json, codec: Codec): Option<Envoy> {
    if id in m then Some(Envoy(queue, id, codec.encode(message))) else None
  }

  /** A failure to declare the reply queue is reported, and the fetch ends. */
  lemma DeclareErrorEnds(m: map<Id, State>, id: Id, codec: Codec)
    requires id in m && m[id].error.OK?
    ensures CallbackCalls(m, id, DeclareError, codec) ==
            (if m[id].on.error then [ErrorCall(QUEUE_DECLARATION)] else [])
            + (if m[id].on.finalize then [FinalizeCall] else [])
    ensures AfterCallback(m, id, DeclareError, codec) == m - {id}
  {
    EndsWith(m[id], DeclareError, QUEUE_DECLARATION, codec);
  }

  /** A failure to consume the reply is reported, and the fetch ends. */
  lemma ConsumeErrorEnds(m: map<Id, State>, id: Id, codec: Codec)
    requires id in m && m[id].error.OK?
    ensures CallbackCalls(m, id, ConsumeError, codec) ==
            (if m[id].on.error then [ErrorCall(DATA_RESPONSE)] else [])
            + (if m[id].on.finalize then [FinalizeCall] else [])
    ensures AfterCallback(m, id, ConsumeError, codec) == m - {id}
  {
    EndsWith(m[id], ConsumeError, DATA_RESPONSE, codec);
  }

  lemma EndsWith(st: State, cb: Callback, code: Code, codec: Codec)
    requires st.error.OK? && (cb.DeclareError? || cb.ConsumeError?) && code == ErrorOf(cb, codec)
    ensures EntryCalls(st, cb, codec) == ErrorCalls(st, code) + (if st.on.finalize then [FinalizeCall] else [])
  {
    assert DestroyCalls<Json>(Reported(st, cb, codec)) == if st.on.finalize then [FinalizeCall] else [];
  }

  /** A failure to publish the request is reported; the fetch stays, and is shut off from data. */
  lemma CommitErrorKeeps(m: map<Id, State>, id: Id, codec: Codec)
    requires id in m && m[id].error.OK?
    ensures CallbackCalls(m, id, CommitError, codec) == if m[id].on.error then [ErrorCall(PUBLISH)] else []
    ensures AfterCallback(m, id, CommitError, codec) == m[id := State(true, OK, m[id].on)]
  {
  }

  /** Once the reply is consumed from, the success handler runs and data may come. */
  lemma ConsumeOkOpens(m: map<Id, State>, id: Id, codec: Codec)
    requires id in m
    ensures CallbackCalls(m, id, ConsumeOk, codec) == if m[id].on.success then [SuccessCall] else []
    ensures AfterCallback(m, id, ConsumeOk, codec) == m[id := State(false, m[id].error, m[id].on)]
  {
  }

  /** Whatever calls back for a fetch that is gone runs nothing, publishes nothing and changes nothing. */
  lemma GoneMeansNothing(m: map<Id, State>, id: Id, cb: Callback, queue: string, message: Json, codec: Codec)
    requires id !in m
    ensures CallbackCalls(m, id, cb, codec) == [] && AfterCallback(m, id, cb, codec) == m
    ensures Asking(m, id, queue, message, codec) == None
  {
  }

  /**
   A reply body that the decoder rejects: the error handler runs once, the data handler does not,
   and the fetch is gone, although the code goes on to report data.
   */
  lemma RejectedBody(m: map<Id, State>, id: Id, body: Body, codec: Codec)
    requires id in m && m[id].error.OK? && codec.decode(body).None?
    ensures CallbackCalls(m, id, Received(body), codec) ==
            (if m[id].on.error then [ErrorCall(DATA_RESPONSE)] else [])
            + (if m[id].on.finalize then [FinalizeCall] else [])
    ensures id !in AfterCallback(m, id, Received(body), codec)
  {
    assert DestroyCalls<Json>(Reported(m[id], Received(body), codec)) ==
           if m[id].on.finalize then [FinalizeCall] else [];
  }

  /** A reply body that decodes reaches the data handler exactly when the gate is open. */
  lemma AcceptedBody(m: map<Id, State>, id: Id, body: Body, codec: Codec, j: Json)
    requires id in m && m[id].error.OK? && codec.decode(body) == Some(j)
    ensures CallbackCalls(m, id, Received(body), codec) ==
            (if !m[id].failed && m[id].on.data then [DataCall(j)] else [])
            + (if m[id].on.finalize then [FinalizeCall] else [])
    ensures id !in AfterCallback(m, id, Received(body), codec)
  {
    assert DestroyCalls<Json>(m[id]) == if m[id].on.finalize then [FinalizeCall] else [];
  }

  /** Data calls come from received bodies only, at most one each, and carry what was decoded. */
  lemma DataCallsOf(st: State, cb: Callback, codec: Codec, i: nat)
    requires st.error.OK? && i < |EntryCalls(st, cb, codec)| && EntryCalls(st, cb, codec)[i].DataCall?
    ensures cb.Received? && codec.decode(cb.body) == Some(EntryCalls(st, cb, codec)[i].data)
    ensures forall k :: 0 <= k < |EntryCalls(st, cb, codec)| && EntryCalls(st, cb, codec)[k].DataCall? ==> k == i
  {
    if cb.Received? {
      var m := map["" := st];
      match codec.decode(cb.body)
      case None => RejectedBody(m, "", cb.body, codec);
      case Some(j) => AcceptedBody(m, "", cb.body, codec, j);
    }
  }

  lemma NoErrorLeft(st: State, cb: Callback, codec: Codec)
    requires st.error.OK?
    ensures Reported(st, cb, codec).error.OK?
  {
  }

  /** A handler that user code registers with a fetch or a listener. */
  datatype Attachment = DataHandler | SuccessHandler | ErrorHandler | FinalizeHandler

  function Registration<T>(a: Attachment): Report<T> {
    match a
    case DataHandler => OnData
    case SuccessHandler => OnSuccess
    case ErrorHandler => OnError
    case FinalizeHandler => OnFinalize
  }

  function Attached(st: State, a: Attachment): State {
    Next<Json>(st, Registration(a))
  }

  // ---- listeners ---------------------------------------------------------------------------------

  /** What the data handler of a listener is given; `R` names the reply object. */
  datatype Delivery<+R> = Delivery(key: string, message: Json, replay: R)

  datatype ListenerCallback =
    | ChannelFailed | DeclareFailed | BindFailed | Consuming | ConsumeFailed
    | ReplyFailed                // a reply's transaction failed

  function ListenerError(cb: ListenerCallback): Code {
    match cb
    case ChannelFailed => CHANNEL_MESSAGE
    case DeclareFailed => QUEUE_DECLARATION
    case BindFailed => QUEUE_BINDING
    case Consuming => OK
    case ConsumeFailed => QUEUE_CONSUMING
    case ReplyFailed => PUBLISH
  }

  function ListenerState(st: State, cb: ListenerCallback): State {
    if cb.Consuming? then AfterSuccess(st) else AfterError(st, ListenerError(cb))
  }

  function AfterListener(m: map<Id, State>, id: Id, cb: ListenerCallback): map<Id, State>
    requires id in m
  {
    if cb.ConsumeFailed? then m - {id} else m[id := ListenerState(m[id], cb)]
  }

  function ListenerCalls<R>(m: map<Id, State>, id: Id, cb: ListenerCallback): seq<Call<Delivery<R>>>
    requires id in m
  {
    if cb.Consuming? then SuccessCalls(m[id]) else ErrorCalls(m[id], ListenerError(cb))
  }

  /** A request body that does not decode is reported as an error, and no reply object is made. */
  function AfterDelivery(m: map<Id, State>, id: Id, body: Body, codec: Codec): map<Id, State>
    requires id in m
  {
    if codec.decode(body).None? then m[id := AfterError(m[id], CHANNEL_MESSAGE)] else m
  }

  function DeliveryCalls<R>(m: map<Id, State>, id: Id, key: string, body: Body, replay: R, codec: Codec): seq<Call<Delivery<R>>>
    requires id in m
  {
    match codec.decode(body)
    case None => ErrorCalls(m[id], CHANNEL_MESSAGE)
    case Some(j) => DataCalls(m[id], Delivery(key, j, replay))
  }

  /**
   What each callback reports to a listener: the consumer's success opens the gate and runs the
   success handler, a failure closes it and runs the error handler with the code of its own kind, and
   only a failure to consume removes the listener.
   */
  lemma ListenerHears<R>(m: map<Id, State>, id: Id)
    requires id in m
    ensures var st := m[id];
            && ListenerCalls<R>(m, id, Consuming) == (if st.on.success then [SuccessCall] else [])
            && AfterListener(m, id, Consuming) == m[id := State(false, st.error, st.on)]
            && (st.on.error ==>
                  && ListenerCalls<R>(m, id, ChannelFailed) == [ErrorCall(CHANNEL_MESSAGE)]
                  && ListenerCalls<R>(m, id, DeclareFailed) == [ErrorCall(QUEUE_DECLARATION)]
                  && ListenerCalls<R>(m, id, BindFailed) == [ErrorCall(QUEUE_BINDING)]
                  && ListenerCalls<R>(m, id, ConsumeFailed) == [ErrorCall(QUEUE_CONSUMING)]
                  && ListenerCalls<R>(m, id, ReplyFailed) == [ErrorCall(PUBLISH)])
            && (!st.on.error ==> forall cb: ListenerCallback :: !cb.Consuming? ==> ListenerCalls<R>(m, id, cb) == [])
            && (forall cb: ListenerCallback :: !cb.Consuming? && !cb.ConsumeFailed? ==>
                  AfterListener(m, id, cb) == m[id := State(true, OK, st.on)])
            && AfterListener(m, id, ConsumeFailed) == m - {id}
  {
  }

  /** A request body that does not decode reaches the error handler, and the listener stays, shut. */
  lemma RejectedRequest<R>(m: map<Id, State>, id: Id, key: string, body: Body, replay: R, codec: Codec)
    requires id in m && codec.decode(body).None?
    ensures DeliveryCalls(m, id, key, body, replay, codec) == if m[id].on.error then [ErrorCall(CHANNEL_MESSAGE)] else []
    ensures AfterDelivery(m, id, body, codec) == m[id := State(true, OK, m[id].on)]
  {
  }

  // ---- everything that happens to one listener ---------------------------------------------------

  datatype ListenerEvent<+R> =
    | Arrives(key: string, body: Body, replay: R)
    | Reports(callback: ListenerCallback)
    | Attaches(attachment: Attachment)

  function AfterEvent<R>(m: map<Id, State>, id: Id, e: ListenerEvent<R>, codec: Codec): map<Id, State>
    requires id in m
  {
    match e
    case Arrives(_, body, _) => AfterDelivery(m, id, body, codec)
    case Reports(cb) => AfterListener(m, id, cb)
    case Attaches(a) => m[id := Attached(m[id], a)]
  }

  function EventCalls<R>(m: map<Id, State>, id: Id, e: ListenerEvent<R>, codec: Codec): seq<Call<Delivery<R>>>
    requires id in m
  {
    match e
    case Arrives(key, body, replay) => DeliveryCalls(m, id, key, body, replay, codec)
    case Reports(cb) => ListenerCalls(m, id, cb)
    case Attaches(_) => []
  }

  /** The listener stays: no failure to consume removes it. */
  predicate Stays<R>(es: seq<ListenerEvent<R>>) {
    forall i :: 0 <= i < |es| ==> es[i] != Reports(ConsumeFailed)
  }

  function AfterEvents<R>(m: map<Id, State>, id: Id, es: seq<ListenerEvent<R>>, codec: Codec): (r: map<Id, State>)
    requires id in m && Stays(es)
    ensures id in r
  {
    if es == [] then m
    else
      var before := AfterEvents(m, id, es[..|es| - 1], codec);
      assert es[|es| - 1] != Reports(ConsumeFailed);
      AfterEvent(before, id, es[|es| - 1], codec)
  }

  /** What reaches the callback object. */
  function ReportOf<R>(e: ListenerEvent<R>, codec: Codec): Report<Delivery<R>> {
    match e
    case Arrives(key, body, replay) =>
      (match codec.decode(body) case None => Error(CHANNEL_MESSAGE) case Some(j) => Data(Delivery(key, j, replay)))
    case Reports(cb) => if cb.Consuming? then Success else Error(ListenerError(cb))
    case Attaches(a) => Registration(a)
  }

  function ReportsOf<R>(es: seq<ListenerEvent<R>>, codec: Codec): (rs: seq<Report<Delivery<R>>>)
    ensures |rs| == |es| && forall i :: 0 <= i < |es| ==> rs[i] == ReportOf(es[i], codec)
  {
    seq(|es|, i requires 0 <= i < |es| => ReportOf(es[i], codec))
  }

  /** A listener's entry lives through its events as its callback object does through its reports. */
  lemma {:induction false} ListenerIsDeferred<R>(m: map<Id, State>, id: Id, es: seq<ListenerEvent<R>>, codec: Codec)
    requires id in m && Stays(es)
    ensures AfterEvents(m, id, es, codec)[id] == D.After(m[id], ReportsOf(es, codec))
  {
    if es != [] {
      var n := |es| - 1;
      ListenerIsDeferred(m, id, es[..n], codec);
      assert ReportsOf(es, codec)[..n] == ReportsOf(es[..n], codec);
      assert es[n] != Reports(ConsumeFailed);
    }
  }

  predicate Opens<R>(e: ListenerEvent<R>) { e == Reports(Consuming) }

  predicate Closes<R>(e: ListenerEvent<R>, codec: Codec) {
    (e.Arrives? && codec.decode(e.body).None?) || (e.Reports? && !e.callback.Consuming?)
  }

  /** After event `from`, the consumer reported success, and nothing failed since. */
  ghost predicate OpenSince<R>(es: seq<ListenerEvent<R>>, from: int, i: nat, codec: Codec)
    requires i <= |es|
  {
    exists c :: 0 <= c < i && from < c && Opens(es[c]) && forall k :: c < k < i ==> !Closes(es[k], codec)
  }

  lemma OpenMeansSucceeded<R>(es: seq<ListenerEvent<R>>, i: nat, codec: Codec)
    requires i <= |es|
    ensures LastSucceeded(ReportsOf(es, codec)[..i]) <==> OpenSince(es, -1, i, codec)
  {
    var rs := ReportsOf(es, codec)[..i];
    forall k | 0 <= k < i
      ensures rs[k].Success? <==> Opens(es[k])
      ensures Failure(rs[k]) <==> Closes(es[k], codec)
    {
      assert rs[k] == ReportOf(es[k], codec);
    }
    if OpenSince(es, -1, i, codec) {
      var c :| 0 <= c < i && Opens(es[c]) && forall k :: c < k < i ==> !Closes(es[k], codec);
      assert rs[c].Success?;
    }
    if LastSucceeded(rs) {
      var c :| 0 <= c < |rs| && rs[c].Success? && forall k :: c < k < |rs| ==> !Failure(rs[k]);
      assert Opens(es[c]);
      forall k | c < k < i ensures !Closes(es[k], codec) { assert !Failure(rs[k]); }
    }
  }

  /**
   A request that decodes reaches a listener's data handler exactly if one is attached and the
   consumer reported success with no failure since.
   */
  lemma RequestsHeard<R>(m: map<Id, State>, id: Id, es: seq<ListenerEvent<R>>, i: nat, codec: Codec)
    requires id in m && i < |es| && Stays(es[..i])
    requires es[i].Arrives? && codec.decode(es[i].body).Some?
    requires exists j :: 0 <= j < i && (Opens(es[j]) || Closes(es[j], codec))
    ensures EventCalls(AfterEvents(m, id, es[..i], codec), id, es[i], codec) ==
            if OpenSince(es, -1, i, codec) && (m[id].on.data || Attaches(DataHandler) in es[..i])
            then [DataCall(Delivery(es[i].key, codec.decode(es[i].body).value, es[i].replay))] else []
  {
    var rs := ReportsOf(es, codec);
    assert rs[..i] == ReportsOf(es[..i], codec);
    ListenerIsDeferred(m, id, es[..i], codec);
    var j :| 0 <= j < i && (Opens(es[j]) || Closes(es[j], codec));
    assert rs[j].Success? || Failure(rs[j]);
    DataRunsExactlyWhenOpen(m[id], rs, i);
    OpenMeansSucceeded(es, i, codec);
    DataHandlerReported(es[..i], codec);
  }

  /** Every success of the consumer runs an attached success handler once, and nothing else does. */
  lemma ListenerSuccessHeard<R>(m: map<Id, State>, id: Id, es: seq<ListenerEvent<R>>, i: nat, codec: Codec)
    requires id in m && i < |es| && Stays(es[..i])
    ensures var calls := EventCalls(AfterEvents(m, id, es[..i], codec), id, es[i], codec);
            if es[i] == Reports(Consuming)
            then calls == if m[id].on.success || Attaches(SuccessHandler) in es[..i] then [SuccessCall] else []
            else SuccessCall !in calls
  {
    var rs := ReportsOf(es, codec);
    assert rs[..i] == ReportsOf(es[..i], codec);
    ListenerIsDeferred(m, id, es[..i], codec);
    SuccessReachesHandlerOnce(m[id], rs, i);
    SuccessHandlerReported(es[..i], codec);
  }

  lemma SuccessHandlerReported<R>(es: seq<ListenerEvent<R>>, codec: Codec)
    ensures Attaches(SuccessHandler) in es <==> Report<Delivery<R>>.OnSuccess in ReportsOf(es, codec)
  {
    var rs := ReportsOf(es, codec);
    if Attaches(SuccessHandler) in es {
      var k :| 0 <= k < |es| && es[k] == Attaches(SuccessHandler);
      assert rs[k].OnSuccess?;
    }
    if Report<Delivery<R>>.OnSuccess in rs {
      var k :| 0 <= k < |rs| && rs[k].OnSuccess?;
      assert es[k] == Attaches(SuccessHandler);
    }
  }

  lemma DataHandlerReported<R>(es: seq<ListenerEvent<R>>, codec: Codec)
    ensures Attaches(DataHandler) in es <==> Report<Delivery<R>>.OnData in ReportsOf(es, codec)
  {
    var rs := ReportsOf(es, codec);
    if Attaches(DataHandler) in es {
      var k :| 0 <= k < |es| && es[k] == Attaches(DataHandler);
      assert rs[k].OnData?;
    }
    if Report<Delivery<R>>.OnData in rs {
      var k :| 0 <= k < |rs| && rs[k].OnData?;
      assert es[k] == Attaches(DataHandler);
    }
  }

  /**
   A request body that does not decode shuts the listener off: whatever arrives, fails or is attached
   after it, a request that decodes reaches the handler exactly if the consumer has reported success
   since, and nothing has failed after that.
   */
  lemma RejectedRequestClosesGate<R>(m: map<Id, State>, id: Id, es: seq<ListenerEvent<R>>, bad: nat, i: nat, codec: Codec)
    requires id in m && bad < i < |es| && Stays(es[..i])
    requires es[bad].Arrives? && codec.decode(es[bad].body).None?
    requires es[i].Arrives? && codec.decode(es[i].body).Some?
    ensures EventCalls(AfterEvents(m, id, es[..i], codec), id, es[i], codec) ==
            if OpenSince(es, bad, i, codec) && (m[id].on.data || Attaches(DataHandler) in es[..i])
            then [DataCall(Delivery(es[i].key, codec.decode(es[i].body).value, es[i].replay))] else []
  {
    assert Closes(es[bad], codec);
    RequestsHeard(m, id, es, i, codec);
    if OpenSince(es, -1, i, codec) {
      var c :| 0 <= c < i && Opens(es[c]) && forall k :: c < k < i ==> !Closes(es[k], codec);
      assert bad < c;
    }
  }
}
