/**
 A broker as an object (src/broker_impl/broker.cc): live fetches and listeners by correlation id,
 each a callback object changed in place. The maps stand for the two caches, whose entries never
 expire; every method is proved against the functions of `BrokerModel`.
 */
module Broker {
  import opened Wrappers
  import opened Json
  import opened Decimal
  import opened BrokerModel
  import opened D = Deferred
  import R = Replay

  /** The static counter behind `create_unique_id`, shared by all brokers of a process. */
  class Counter {
    var n: nat

    constructor ()
      ensures n == 1
    { n := 1; }

    method CreateUniqueId() returns (id: Id)
      requires n < INT_MAX
      modifies this
      ensures id == Print(old(n)) && n == old(n) + 1
      // no later id is printed alike
      ensures forall k: nat :: n <= k ==> Print(k) != id
    {
      id := Print(n);
      forall k: nat | n < k ensures Print(k) != id { PrintInjective(n, k); }
      n := n + 1;
    }
  }

  type Fetching = D.Deferred<Json>
  type Listening = D.Deferred<Delivery<R.ReplayImpl>>

  class Broker {
    const codec: Codec
    const ids: Counter
    var fetchers: map<Id, Fetching>
    var listeners: map<Id, Listening>

    /** Ids in use were printed from numbers the counter has passed; entries do not share objects. */
    ghost predicate Valid()
      reads this, ids
    {
      && (forall n: nat :: ids.n <= n ==> Print(n) !in fetchers && Print(n) !in listeners)
      && (forall a, b :: a in fetchers && b in fetchers && a != b ==> fetchers[a] != fetchers[b])
      && (forall a, b :: a in listeners && b in listeners && a != b ==> listeners[a] != listeners[b])
      && (forall a, b :: a in fetchers && b in listeners ==> fetchers[a] as object != listeners[b] as object)
    }

    ghost function FetchStates(): map<Id, State>
      reads this, fetchers.Values
    {
      map id | id in fetchers :: fetchers[id].Snapshot()
    }

    ghost function ListenerStates(): map<Id, State>
      reads this, listeners.Values
    {
      map id | id in listeners :: listeners[id].Snapshot()
    }

    constructor (codec: Codec, ids: Counter)
      ensures Valid() && this.codec == codec && this.ids == ids
      ensures fetchers == map[] && listeners == map[]
    {
      this.codec, this.ids := codec, ids;
      fetchers, listeners := map[], map[];
    }

    // ---- fetch ------------------------------------------------------------------------------

    /** Registers a fetch under a new id and returns its callback object; nothing is overwritten. */
    method FetchMessage(garbage: bool) returns (id: Id, deferred: Fetching)
      requires Valid() && ids.n < INT_MAX
      modifies this`fetchers, ids
      ensures Valid()
      ensures id == Print(old(ids.n)) && ids.n == old(ids.n) + 1
      ensures id !in old(fetchers) && id !in listeners
      ensures fresh(deferred) && fetchers == old(fetchers)[id := deferred]
      ensures FetchStates() == old(FetchStates())[id := State(garbage, OK, NO_HANDLERS)]
    {
      id := ids.CreateUniqueId();
      var created := new D.Deferred<Json>(garbage, OK);
      fetchers := fetchers[id := created];
      deferred := fetchers[id];
    }

    /** `message` and `id` are what the callback captured when the fetch began. */
    method OnDeclared(id: Id, message: Json, queue: string) returns (request: Option<Envoy>)
      ensures request == Asking(FetchStates(), id, queue, message, codec)
      ensures request == if id in fetchers then Some(Envoy(queue, id, codec.encode(message))) else None
    {
      var data := codec.encode(message);
      if id !in fetchers { return None; }
      request := Some(Envoy(queue, id, data));
    }

    method ReportError(id: Id, code: Code) returns (calls: seq<Call<Json>>)
      requires Valid() && id in fetchers
      modifies fetchers[id]
      ensures FetchStates() == old(FetchStates())[id := AfterError(old(FetchStates())[id], code)]
      ensures calls == ErrorCalls(old(FetchStates())[id], code)
      ensures ListenerStates() == old(ListenerStates())
    {
      calls := fetchers[id].ReportError(code);
    }

    /** Removal destroys the callback object. */
    method Remove(id: Id) returns (calls: seq<Call<Json>>)
      requires Valid() && id in fetchers
      modifies this`fetchers, fetchers[id]
      ensures Valid() && fetchers == old(fetchers) - {id}
      ensures FetchStates() == old(FetchStates()) - {id}
      ensures calls == DestroyCalls(old(FetchStates())[id])
      ensures ListenerStates() == old(ListenerStates())
    {
      calls := fetchers[id].Destroy();
      fetchers := fetchers - {id};
    }

    /** The callback does to the fetches, and calls, what the model says. */
    twostate predicate Follows(id: Id, cb: Callback, new calls: seq<Call<Json>>)
      reads this, fetchers.Values, listeners.Values
    {
      && FetchStates() == AfterCallback(old(FetchStates()), id, cb, codec)
      && calls == CallbackCalls(old(FetchStates()), id, cb, codec)
      && ListenerStates() == old(ListenerStates())
    }

    /** A live fetch hears of the error, then of its end, and is gone. */
    twostate predicate EndsFetch(id: Id, code: Code, new calls: seq<Call<Json>>)
      reads this, fetchers.Values
    {
      old(id in fetchers && FetchStates()[id].error.OK?) ==>
        && fetchers == old(fetchers) - {id}
        && calls == (if old(FetchStates())[id].on.error then [ErrorCall(code)] else [])
                    + (if old(FetchStates())[id].on.finalize then [FinalizeCall] else [])
    }

    method OnCommitError(id: Id) returns (calls: seq<Call<Json>>)
      requires Valid()
      modifies if id in fetchers then {fetchers[id]} else {}
      ensures Valid() && Follows(id, CommitError, calls)
      ensures id in fetchers ==>
                && calls == (if old(FetchStates())[id].on.error then [ErrorCall(PUBLISH)] else [])
                && FetchStates()[id].failed
    {
      calls := [];
      if id in fetchers { calls := ReportError(id, PUBLISH); }
    }

    method OnConsuming(id: Id) returns (calls: seq<Call<Json>>)
      requires Valid()
      modifies if id in fetchers then {fetchers[id]} else {}
      ensures Valid() && Follows(id, ConsumeOk, calls)
      ensures id in fetchers ==>
                && calls == (if old(FetchStates())[id].on.success then [SuccessCall] else [])
                && !FetchStates()[id].failed
    {
      calls := [];
      if id in fetchers { calls := fetchers[id].ReportSuccess(); }
    }

    /** The two error callbacks that end a fetch. */
    method Fail(id: Id, code: Code, ghost cb: Callback) returns (calls: seq<Call<Json>>)
      requires Valid() && (cb.DeclareError? || cb.ConsumeError?) && code == ErrorOf(cb, codec)
      modifies this`fetchers, if id in fetchers then {fetchers[id]} else {}
      ensures Valid() && Follows(id, cb, calls) && fetchers == old(fetchers) - {id}
    {
      calls := [];
      if id in fetchers {
        calls := ReportError(id, code);
        var last := Remove(id);
        calls := calls + last;
      }
    }

    method OnConsumeError(id: Id) returns (calls: seq<Call<Json>>)
      requires Valid()
      modifies this`fetchers, if id in fetchers then {fetchers[id]} else {}
      ensures Valid() && Follows(id, ConsumeError, calls)
      ensures EndsFetch(id, DATA_RESPONSE, calls)
    {
      if id in fetchers && FetchStates()[id].error.OK? { ConsumeErrorEnds(FetchStates(), id, codec); }
      calls := Fail(id, DATA_RESPONSE, ConsumeError);
    }

    method OnDeclareError(id: Id) returns (calls: seq<Call<Json>>)
      requires Valid()
      modifies this`fetchers, if id in fetchers then {fetchers[id]} else {}
      ensures Valid() && Follows(id, DeclareError, calls)
      ensures EndsFetch(id, QUEUE_DECLARATION, calls)
    {
      if id in fetchers && FetchStates()[id].error.OK? { DeclareErrorEnds(FetchStates(), id, codec); }
      calls := Fail(id, QUEUE_DECLARATION, DeclareError);
    }

    /** The end of the received callback: data is reported, and the fetch is removed. */
    method Finish(id: Id, received: Json) returns (calls: seq<Call<Json>>)
      requires Valid() && id in fetchers
      modifies this`fetchers, fetchers[id]
      ensures Valid() && FetchStates() == old(FetchStates()) - {id}
      ensures calls == DataCalls(old(FetchStates())[id], received) + DestroyCalls(old(FetchStates())[id])
      ensures ListenerStates() == old(ListenerStates())
    {
      calls := fetchers[id].ReportData(received);
      var last := Remove(id);
      calls := calls + last;
    }

    /** Decodes a reply body; a rejected one is reported, and the value stays what it was. */
    method Decode(id: Id, body: Body) returns (received: Json, calls: seq<Call<Json>>)
      requires Valid()
      modifies if id in fetchers then {fetchers[id]} else {}
      ensures received == Decoded(codec, body)
      ensures FetchStates() ==
              if id in fetchers
              then old(FetchStates())[id := Reported(old(FetchStates())[id], Received(body), codec)]
              else old(FetchStates())
      ensures calls == if id in fetchers then ErrorCalls(old(FetchStates())[id], ErrorOf(Received(body), codec)) else []
      ensures ListenerStates() == old(ListenerStates())
    {
      received, calls := Null, [];
      var decoded := codec.decode(body);
      if decoded.Some? {
        received := decoded.value;
      } else if id in fetchers {
        calls := ReportError(id, DATA_RESPONSE);
      }
    }

    /** After a rejected body the code goes on as if it had decoded. */
    method OnReceived(id: Id, body: Body) returns (calls: seq<Call<Json>>)
      requires Valid()
      modifies this`fetchers, if id in fetchers then {fetchers[id]} else {}
      ensures Valid() && Follows(id, Received(body), calls)
    {
      var received;
      ghost var m := FetchStates();
      received, calls := Decode(id, body);
      if id in fetchers {
        var rest := Finish(id, received);
        ReceivedInTwo(m, id, body, codec);
        calls := calls + rest;
      }
    }

    // ---- listen -----------------------------------------------------------------------------

    method ListenMessages(garbage: bool) returns (id: Id, deferred: Listening)
      requires Valid() && ids.n < INT_MAX
      modifies this`listeners, ids
      ensures Valid()
      ensures id == Print(old(ids.n)) && ids.n == old(ids.n) + 1
      ensures id !in fetchers && id !in old(listeners)
      ensures fresh(deferred) && listeners == old(listeners)[id := deferred]
      ensures ListenerStates() == old(ListenerStates())[id := State(garbage, OK, NO_HANDLERS)]
    {
      id := ids.CreateUniqueId();
      var created := new D.Deferred<Delivery<R.ReplayImpl>>(garbage, OK);
      listeners := listeners[id := created];
      deferred := listeners[id];
    }

    method ListenerError(id: Id, code: Code) returns (calls: seq<Call<Delivery<R.ReplayImpl>>>)
      requires Valid() && id in listeners
      modifies listeners[id]
      ensures FetchStates() == old(FetchStates())
      ensures ListenerStates() == old(ListenerStates())[id := AfterError(old(ListenerStates())[id], code)]
      ensures calls == ErrorCalls(old(ListenerStates())[id], code)
    {
      calls := listeners[id].ReportError(code);
    }

    method DropListener(id: Id)
      requires Valid() && id in listeners
      modifies this`listeners
      ensures Valid() && FetchStates() == old(FetchStates())
      ensures ListenerStates() == old(ListenerStates()) - {id}
    {
      listeners := listeners - {id};
    }

    method ListenerSuccess(id: Id) returns (calls: seq<Call<Delivery<R.ReplayImpl>>>)
      requires Valid() && id in listeners
      modifies listeners[id]
      ensures FetchStates() == old(FetchStates())
      ensures ListenerStates() == old(ListenerStates())[id := AfterSuccess(old(ListenerStates())[id])]
      ensures calls == SuccessCalls(old(ListenerStates())[id])
    {
      calls := listeners[id].ReportSuccess();
    }

    /** Listener callbacks look their entry up without asking whether it is there. */
    method OnListener(id: Id, cb: ListenerCallback) returns (calls: seq<Call<Delivery<R.ReplayImpl>>>)
      requires Valid() && id in listeners
      modifies this`listeners, listeners[id]
      ensures Valid() && FetchStates() == old(FetchStates())
      ensures ListenerStates() == AfterListener(old(ListenerStates()), id, cb)
      ensures calls == ListenerCalls(old(ListenerStates()), id, cb)
    {
      if cb.Consuming? {
        calls := ListenerSuccess(id);
      } else {
        calls := ListenerError(id, BrokerModel.ListenerError(cb));
        if cb.ConsumeFailed? { DropListener(id); }
      }
    }

    /** A request arrives: a reply object is made that knows where the request wants its reply. */
    method OnDelivered(id: Id, key: string, request: Envoy)
      returns (replay: Option<R.ReplayImpl>, calls: seq<Call<Delivery<R.ReplayImpl>>>)
      requires Valid() && id in listeners
      modifies listeners[id]
      ensures Valid() && FetchStates() == old(FetchStates())
      ensures ListenerStates() == AfterDelivery(old(ListenerStates()), id, request.body, codec)
      ensures replay.Some? <==> codec.decode(request.body).Some?
      ensures replay.Some? ==>
                && fresh(replay.value)
                && replay.value.Snapshot() == R.BLANK.(route := Some(R.Route(request.cid, request.replyTo)))
                && calls == DeliveryCalls(old(ListenerStates()), id, key, request.body, replay.value, codec)
      ensures replay.None? ==> calls == ErrorCalls(old(ListenerStates())[id], CHANNEL_MESSAGE)
    {
      var received := codec.decode(request.body);
      if received.None? {
        calls := ListenerError(id, CHANNEL_MESSAGE);
        return None, calls;
      }
      var r := NewReplay(R.Route(request.cid, request.replyTo));
      calls := listeners[id].ReportData(Delivery(key, received.value, r));
      replay := Some(r);
    }

    method NewReplay(route: R.Route) returns (r: R.ReplayImpl)
      ensures fresh(r) && r.Snapshot() == R.BLANK.(route := Some(route))
    {
      r := new R.ReplayImpl();
      r.SetCommit(route);
    }
  }
}
