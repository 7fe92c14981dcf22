/**
 The reply object of a listener (src/broker_impl/broker.cc:14-40 and 366-407): a message, the
 commit handler that sends it, an optional complete handler, and a heap cell that the resolved
 transaction frees.
 */
module Replay {
  import opened Wrappers
  import opened Json

  /** A failure as a caller reads it from an `Error`: its number and its text. */
  datatype Failure = Failure(value: int, message: string)

  type Payload = Result<Json, Failure>

  const EMPTY_REPLAY: int := 317

  function ErrorJson(value: int, message: string): Json {
    Array([Text("error"), Object([("code", Number(value)), ("message", Text(message))])])
  }

  /** What a committed message sends: itself, unless it is a failure or empty. */
  function Answer(m: Payload): (j: Json)
    ensures !Empty(j)
    ensures m.Ok? && !Empty(m.value) ==> j == m.value
  {
    match m
    case Err(e) => ErrorJson(e.value, e.message)
    case Ok(v) => if Empty(v) then ErrorJson(EMPTY_REPLAY, "worker replay is empty") else v
  }

  /**
   What the client is told, spelled out: a failure as its own number and text, an empty value as an
   error of its own, and any other value as itself.
   */
  lemma AnswerSpelledOut(m: Payload)
    ensures m.Err? ==>
              Answer(m) == Array([Text("error"), Object([("code", Number(m.error.value)), ("message", Text(m.error.message))])])
    ensures m.Ok? && (m.value == Null || m.value == Array([]) || m.value == Object([])) ==>
              Answer(m) == Array([Text("error"), Object([("code", Number(317)), ("message", Text("worker replay is empty"))])])
    ensures m.Ok? && !(m.value == Null || m.value == Array([]) || m.value == Object([])) ==> Answer(m) == m.value
  {
  }

  /** Different failures are told apart. */
  lemma FailuresDiffer(a: Failure, b: Failure)
    ensures Answer(Err(a)) == Answer(Err(b)) <==> a == b
  {
    AnswerSpelledOut(Err(a));
    AnswerSpelledOut(Err(b));
    if Answer(Err(a)) == Answer(Err(b)) {
      var x, y := Answer(Err(a)).items[1].fields, Answer(Err(b)).items[1].fields;
      assert x[0] == y[0] && x[1] == y[1];
    }
  }

  /** What the commit handler remembers of the request. */
  datatype Route = Route(cid: string, replyTo: string)

  /** A message published through the nameless exchange: it goes to the queue of that name. */
  datatype Envelope = Envelope(queue: string, cid: string, body: Body)

  /** A user's handler, named. */
  type Handler = nat

  datatype Cell = Cell(message: Payload, route: Option<Route>, complete: Option<Handler>)

  function SentBy(o: Cell, codec: Codec): Option<Envelope> {
    if o.route.Some?
    then Some(Envelope(o.route.value.replyTo, o.route.value.cid, codec.encode(Answer(o.message))))
    else None
  }

  function AfterCommit(o: Cell): Cell {
    if o.route.Some? then o.(complete := None) else o
  }

  function AfterDestroy(o: Cell): Cell {
    if o.complete.Some? then o.(route := None) else o
  }

  const BLANK := Cell(Ok(Null), None, None)

  class ReplayImpl {
    var message: Payload
    var commitHandler: Option<Route>
    var completeHandler: Option<Handler>

    function Snapshot(): Cell
      reads this
    {
      Cell(message, commitHandler, completeHandler)
    }

    constructor ()
      ensures Snapshot() == BLANK
    {
      message, commitHandler, completeHandler := Ok(Null), None, None;
    }

    method OnComplete(h: Handler)
      modifies this`completeHandler
      ensures Snapshot() == old(Snapshot()).(complete := Some(h))
    { completeHandler := Some(h); }

    method SetCommit(route: Route)
      modifies this`commitHandler
      ensures Snapshot() == old(Snapshot()).(route := Some(route))
    { commitHandler := Some(route); }

    /** The commit handler: builds the body, error object first, and publishes it. */
    method Send(route: Route, codec: Codec) returns (e: Envelope)
      ensures e == Envelope(route.replyTo, route.cid, codec.encode(Answer(message)))
      ensures message.Err? ==>
                e.body == codec.encode(Array([Text("error"), Object([("code", Number(message.error.value)),
                                                                     ("message", Text(message.error.message))])]))
    {
      var errorJson := Null;
      if message.Err? {
        errorJson := ErrorJson(message.error.value, message.error.message);
      } else if Empty(message.value) {
        errorJson := ErrorJson(EMPTY_REPLAY, "worker replay is empty");
      }
      var data := codec.encode(if Empty(errorJson) && message.Ok? then message.value else errorJson);
      e := Envelope(route.replyTo, route.cid, data);
    }

    method Commit(codec: Codec) returns (sent: Option<Envelope>)
      modifies this`completeHandler
      ensures sent == SentBy(old(Snapshot()), codec) && Snapshot() == AfterCommit(old(Snapshot()))
      ensures commitHandler.None? ==> sent == None && completeHandler == old(completeHandler)
      ensures commitHandler.Some? ==>
                && sent == Some(Envelope(commitHandler.value.replyTo, commitHandler.value.cid, codec.encode(Answer(message))))
                && completeHandler == None
    {
      sent := None;
      if commitHandler.Some? {
        var e := Send(commitHandler.value, codec);
        sent := Some(e);
        completeHandler := None;
      }
    }

    /** The destructor: returns the handler it runs. */
    method Destroy() returns (ran: Option<Handler>)
      modifies this`commitHandler
      ensures ran == old(Snapshot()).complete && Snapshot() == AfterDestroy(old(Snapshot()))
      ensures commitHandler == if old(completeHandler).Some? then None else old(commitHandler)
    {
      ran := completeHandler;
      if completeHandler.Some? { commitHandler := None; }
    }
  }

  // ---- the life of one reply object -------------------------------------------------------------

  /** A complete handler that ran, with the number of commits when it was registered and when it ran. */
  datatype Ran = Ran(handler: Handler, registeredAt: nat, ranAt: nat)

  datatype Life = Life(
    cell: Cell,
    registeredAt: nat,       // commits made when the present complete handler was registered
    sent: seq<Envelope>,     // one per commit
    answers: seq<Payload>,   // the messages committed
    discards: nat,           // deletions by user code
    pending: set<nat>,       // commits whose transaction is not resolved; each opened a channel of its own
    closed: seq<nat>,        // the channels freed, named by the commits that opened them
    freed: nat,              // how often the object was freed
    ran: seq<Ran>)

  datatype Event =
    | OnComplete(handler: Handler)
    | Commit(message: Payload)      // the user sets the message and commits
    | Discard                       // the user deletes the object
    | Resolve(commit: nat)          // that commit's transaction succeeds or fails

  /** User code may touch the object only while it is allocated; each transaction resolves once. */
  predicate Enabled(l: Life, e: Event) {
    match e
    case Resolve(c) => c in l.pending
    case Commit(_) => l.freed == 0 && l.cell.route.Some?
    case _ => l.freed == 0
  }

  function Freed(l: Life): Life {
    l.(freed := l.freed + 1,
       ran := if l.cell.complete.Some?
              then l.ran + [Ran(l.cell.complete.value, l.registeredAt, |l.sent|)] else l.ran,
       cell := AfterDestroy(l.cell))
  }

  function Apply(l: Life, e: Event, codec: Codec): Life
    requires Enabled(l, e)
  {
    match e
    case OnComplete(h) => l.(cell := l.cell.(complete := Some(h)), registeredAt := |l.sent|)
    case Commit(m) =>
      var o := l.cell.(message := m);
      l.(cell := AfterCommit(o), sent := l.sent + [SentBy(o, codec).value], answers := l.answers + [m],
         pending := l.pending + {|l.sent|})
    case Discard => Freed(l).(discards := l.discards + 1)
    case Resolve(c) => Freed(l).(pending := l.pending - {c}, closed := l.closed + [c])
  }

  /** A reply object as the listener hands it out. */
  function Born(route: Route): Life {
    Life(BLANK.(route := Some(route)), 0, [], [], 0, {}, [], 0, [])
  }

  /** The channel of each commit is freed once when its transaction is resolved, and not before. */
  ghost predicate ChannelsInv(l: Life) {
    forall c: nat :: multiset(l.closed)[c] == if c < |l.sent| && c !in l.pending then 1 else 0
  }

  ghost predicate Inv(l: Life, route: Route, codec: Codec) {
    && |l.sent| == |l.answers|
    && (forall k :: 0 <= k < |l.sent| ==>
          l.sent[k] == Envelope(route.replyTo, route.cid, codec.encode(Answer(l.answers[k]))))
    && (l.cell.route.Some? ==> l.cell.route.value == route)
    && (l.freed == 0 ==> l.cell.route.Some?)
    && (forall c :: c in l.pending ==> c < |l.sent|)
    && l.freed + |l.pending| == |l.sent| + l.discards
    && ChannelsInv(l)
    && l.registeredAt <= |l.sent|
    && (l.cell.complete.Some? ==> l.registeredAt == |l.sent|)
    && forall k :: 0 <= k < |l.ran| ==> l.ran[k].registeredAt == l.ran[k].ranAt
  }

  lemma StepKeepsInv(l: Life, e: Event, route: Route, codec: Codec)
    requires Inv(l, route, codec) && Enabled(l, e)
    ensures Inv(Apply(l, e, codec), route, codec)
  {
  }
}
