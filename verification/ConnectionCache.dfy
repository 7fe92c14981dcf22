/**
 The per-thread connection cache of src/broker_impl/broker.h: `has`, then `set` or `get`, each
 under its own shard lock and nothing held in between.
 */
module ConnectionCache {
  import opened Wrappers
  import opened CacheModel
  import Cache

  type Thread = nat
  type Connection = nat

  /** One thread at a time, as an object over the sharded cache. */
  class Connections {
    const cache: Cache.Cache<Thread, Connection>
    // How many connections were made; connection `c` is the c-th.
    var made: nat

    ghost predicate Valid()
      reads this, cache.shards
    {
      && cache.Valid()
      && forall t :: t in cache.View() ==>
           cache.View()[t].expiration == 0 && cache.View()[t].data.Some? && cache.View()[t].data.value < made
    }

    constructor (hash: Thread -> nat)
      ensures Valid() && made == 0 && cache.View() == map[] && fresh(cache.shards)
    {
      cache := new Cache.Cache(hash);
      made := 0;
    }

    /** The connection behind `new_channel` on thread `id`: the thread's own, made if it has none. */
    method NewChannel(id: Thread, now: int) returns (c: Connection)
      requires Valid()
      modifies this`made, cache.shards
      ensures Valid()
      ensures cache.View() == old(cache.View())[id := Item(Some(c), 0)]
      ensures id in old(cache.View()) ==> old(cache.View())[id].data == Some(c) && made == old(made)
      ensures id !in old(cache.View()) ==> c == old(made) && made == old(made) + 1
    {
      var present := cache.Has(id, now);
      if !present {
        c := made;
        made := made + 1;
        var n := cache.Set(id, Some(c), 0, WriteAlways);
      } else {
        var r := cache.Get(id, now);
        c := r.value;
        assert old(cache.View())[id] == Item(Some(c), 0);
      }
    }

    /** The pointer that `get_conection` returns is never null. */
    method GetConnection(id: Thread, now: int) returns (r: Option<Connection>)
      requires Valid()
      modifies this`made, cache.shards
      ensures Valid() && r.Some?
      ensures cache.View() == old(cache.View())[id := Item(r, 0)]
      ensures id in old(cache.View()) ==> old(cache.View())[id].data == r && made == old(made)
      ensures id !in old(cache.View()) ==> r == Some(old(made)) && made == old(made) + 1
    {
      var present := cache.Has(id, now);
      if !present {
        var n := cache.Set(id, Some(made), 0, WriteAlways);
        made := made + 1;
      }
      r := cache.Get(id, now);
    }
  }

  // ---- threads interleaving at the granularity of one cache operation ------------------------------

  /** Where a thread stands in `new_channel` or `get_conection`. */
  datatype Stage = Idle | Missing(forChannel: bool) | Present(forChannel: bool)

  /** A channel opened by a thread, or a handle obtained by it, on a connection; null if it had none. */
  datatype Use = Use(thread: Thread, connection: Option<Connection>)

  datatype System = System(
    cache: map<Thread, Item<Connection>>,
    stages: map<Thread, Stage>,
    made: seq<Thread>,     // who made connection number i
    uses: seq<Use>)

  datatype Event =
    | Check(forChannel: bool, now: int)   // has(id)
    | Create                              // make a connection and set(id, it)
    | Fetch(now: int)                     // get(id)

  function StageOf(s: System, t: Thread): Stage {
    if t in s.stages then s.stages[t] else Idle
  }

  predicate Enabled(s: System, t: Thread, e: Event) {
    match e
    case Check(_, _) => StageOf(s, t).Idle?
    case Create => StageOf(s, t).Missing?
    case Fetch(_) => StageOf(s, t).Present?
  }

  function Apply(s: System, t: Thread, e: Event): System
    requires Enabled(s, t, e)
  {
    match e
    case Check(forChannel, now) =>
      var found := Found(s.cache, t, now).Some?;
      s.(cache := GetMap(s.cache, t, now),
         stages := s.stages[t := if found then Present(forChannel) else Missing(forChannel)])
    case Create =>
      var c := |s.made|;
      var next := s.(cache := SetMap(s.cache, t, Item(Some(c), 0), WriteAlways), made := s.made + [t]);
      if StageOf(s, t).forChannel
      then next.(stages := s.stages[t := Idle], uses := s.uses + [Use(t, Some(c))])
      else next.(stages := s.stages[t := Present(false)])
    case Fetch(now) =>
      s.(cache := GetMap(s.cache, t, now), stages := s.stages[t := Idle],
         uses := s.uses + [Use(t, Found(s.cache, t, now))])
  }

  const INITIAL := System(map[], map[], [], [])

  ghost predicate Inv(s: System) {
    // entries never expire, name real connections, and each was made by the thread that has it
    && (forall t :: t in s.cache ==>
          && s.cache[t].expiration == 0 && s.cache[t].data.Some?
          && s.cache[t].data.value < |s.made| && s.made[s.cache[t].data.value] == t)
    // conversely every connection made is the entry of its maker
    && (forall c :: 0 <= c < |s.made| ==> s.made[c] in s.cache && s.cache[s.made[c]].data == Some(c))
    && (forall t :: t in s.stages && s.stages[t].Missing? ==> t !in s.cache)
    && (forall t :: t in s.stages && s.stages[t].Present? ==> t in s.cache)
    && (forall i :: 0 <= i < |s.uses| ==>
          s.uses[i].thread in s.cache && s.uses[i].connection == s.cache[s.uses[i].thread].data)
  }

  /** `has` and `get` find entries that never expire, and leave them. */
  lemma LookKeepsInv(s: System, t: Thread, e: Event)
    requires Inv(s) && Enabled(s, t, e) && !e.Create?
    ensures Inv(Apply(s, t, e))
  {
    assert Apply(s, t, e).cache == s.cache && Apply(s, t, e).made == s.made;
  }

  lemma CreateKeepsInv(s: System, t: Thread)
    requires Inv(s) && Enabled(s, t, Create)
    ensures Inv(Apply(s, t, Create))
  {
    var s' := Apply(s, t, Create);
    forall c | 0 <= c < |s'.made|
      ensures s'.made[c] in s'.cache && s'.cache[s'.made[c]].data == Some(c)
    {
      if c < |s.made| { assert s'.made[c] == s.made[c] != t; }
    }
  }

  lemma StepKeepsInv(s: System, t: Thread, e: Event)
    requires Inv(s) && Enabled(s, t, e)
    ensures Inv(Apply(s, t, e))
  {
    if e.Create? { CreateKeepsInv(s, t); } else { LookKeepsInv(s, t, e); }
  }

  /** A call ends in one use: of a connection just made, or of the one the thread has. */
  lemma CallUsesOwn(s: System, t: Thread, now: int)
    requires Inv(s)
    ensures StageOf(s, t) == Missing(true) ==>
              && Enabled(s, t, Create)
              && Apply(s, t, Create).uses == s.uses + [Use(t, Some(|s.made|))] && Apply(s, t, Create).made == s.made + [t]
    ensures StageOf(s, t) == Missing(false) ==>
              && Enabled(s, t, Create)
              && Apply(s, t, Create).uses == s.uses && Apply(s, t, Create).made == s.made + [t]
              && StageOf(Apply(s, t, Create), t) == Present(false)
    ensures StageOf(s, t).Present? ==>
              && Enabled(s, t, Fetch(now)) && t in s.cache
              && Apply(s, t, Fetch(now)).uses == s.uses + [Use(t, s.cache[t].data)] && Apply(s, t, Fetch(now)).made == s.made
    ensures StageOf(s, t).Idle? ==> forall forChannel ::
              && Enabled(s, t, Check(forChannel, now))
              && StageOf(Apply(s, t, Check(forChannel, now)), t) == if t in s.cache then Present(forChannel) else Missing(forChannel)
  {
  }

  datatype Move = Move(thread: Thread, event: Event)

  ghost predicate Possible(s: System, ms: seq<Move>)
    decreases |ms|
  {
    ms == [] || (Enabled(s, ms[0].thread, ms[0].event)
                 && Possible(Apply(s, ms[0].thread, ms[0].event), ms[1..]))
  }

  ghost function After(s: System, ms: seq<Move>): System
    requires Possible(s, ms)
    decreases |ms|
  {
    if ms == [] then s else After(Apply(s, ms[0].thread, ms[0].event), ms[1..])
  }

  lemma {:induction false} RunKeepsInv(s: System, ms: seq<Move>)
    requires Inv(s) && Possible(s, ms)
    ensures Inv(After(s, ms))
    decreases |ms|
  {
    if ms != [] {
      StepKeepsInv(s, ms[0].thread, ms[0].event);
      RunKeepsInv(Apply(s, ms[0].thread, ms[0].event), ms[1..]);
    }
  }

  /**
   In every interleaving without a flush: no thread makes two connections, no use is of a null
   connection, all uses by one thread are of one connection, and two threads never share one.
   */
  lemma OneConnectionPerThread(ms: seq<Move>)
    requires Possible(INITIAL, ms)
    ensures var s := After(INITIAL, ms);
            && (forall c, d :: 0 <= c < d < |s.made| ==> s.made[c] != s.made[d])
            && (forall i :: 0 <= i < |s.uses| ==>
                  && s.uses[i].connection.Some?
                  && s.uses[i].connection.value < |s.made|
                  && s.made[s.uses[i].connection.value] == s.uses[i].thread)
            && (forall i, j :: 0 <= i < |s.uses| && 0 <= j < |s.uses| ==>
                  (s.uses[i].thread == s.uses[j].thread <==> s.uses[i].connection == s.uses[j].connection))
  {
    RunKeepsInv(INITIAL, ms);
    var s := After(INITIAL, ms);
    forall c, d | 0 <= c < d < |s.made|
      ensures s.made[c] != s.made[d]
    {
      assert s.cache[s.made[c]].data == Some(c) && s.cache[s.made[d]].data == Some(d);
    }
  }
}
