/**
 Vocabulary of the expiring cache of include/capy/amqp_cache.h: items, write modes, the effect of
 each operation on one map, and the way 256 shard maps make up a single flat map.
 */
module CacheModel {
  import opened Wrappers

  /** A cached pointer (possibly null) and its expiration time; 0 means "never". */
  datatype Item<+T> = Item(data: Option<T>, expiration: int)

  predicate Expired<T>(item: Item<T>, now: int) {
    item.expiration != 0 && now > item.expiration
  }

  datatype WriteMode = WriteAlways | OnlyIfSet | OnlyIfNotSet

  // ---- the operations on one map -------------------------------------------------------

  /** A conditional write looks at presence only, never at expiry. */
  predicate Refused<K(==), T>(m: map<K, Item<T>>, id: K, mode: WriteMode) {
    (mode.OnlyIfSet? && id !in m) || (mode.OnlyIfNotSet? && id in m)
  }

  function SetMap<K(==), T>(m: map<K, Item<T>>, id: K, item: Item<T>, mode: WriteMode): map<K, Item<T>> {
    if Refused(m, id, mode) then m else m[id := item]
  }

  function SetCount<K(==), T>(m: map<K, Item<T>>, id: K, mode: WriteMode): nat {
    if Refused(m, id, mode) then 0 else 1
  }

  predicate Lapsed<K(==), T>(m: map<K, Item<T>>, id: K, now: int) {
    id in m && Expired(m[id], now)
  }

  /** Reading an expired item erases it. */
  function GetMap<K(==), T>(m: map<K, Item<T>>, id: K, now: int): map<K, Item<T>> {
    if Lapsed(m, id, now) then m - {id} else m
  }

  function Found<K(==), T>(m: map<K, Item<T>>, id: K, now: int): Option<T> {
    if id in m && !Expired(m[id], now) then m[id].data else None
  }

  function DelCount<K(==), T>(m: map<K, Item<T>>, id: K): nat {
    if id in m then 1 else 0
  }

  /** A sweep in which the item of each key in `clock` is judged by its own clock reading. */
  function CullMap<K(==), T>(m: map<K, Item<T>>, clock: map<K, int>): map<K, Item<T>> {
    map k | k in m && !(k in clock && Expired(m[k], clock[k])) :: m[k]
  }

  // ---- shards ----------------------------------------------------------------------------

  const SHARDS: nat := 256

  function Index<K>(hash: K -> nat, id: K): (i: nat)
    ensures i < SHARDS
  {
    hash(id) % SHARDS
  }

  /** Each key lives only in the shard its hash selects. */
  ghost predicate Placed<K(!new), T(!new)>(shards: seq<map<K, Item<T>>>, hash: K -> nat) {
    |shards| <= SHARDS
    && forall i, k :: 0 <= i < |shards| && k in shards[i] ==> Index(hash, k) == i
  }

  /** The one map that the shards make up. */
  ghost function Flatten<K, T>(shards: seq<map<K, Item<T>>>): map<K, Item<T>> {
    if shards == [] then map[] else Flatten(shards[..|shards| - 1]) + shards[|shards| - 1]
  }

  function SizeSum<K(==), T>(shards: seq<map<K, Item<T>>>): nat {
    if shards == [] then 0 else SizeSum(shards[..|shards| - 1]) + |shards[|shards| - 1]|
  }

  lemma {:induction false} FlattenAt<K(!new), T(!new)>(shards: seq<map<K, Item<T>>>, hash: K -> nat, k: K)
    requires Placed(shards, hash)
    ensures var i := Index(hash, k);
            && (k in Flatten(shards) <==> i < |shards| && k in shards[i])
            && (k in Flatten(shards) ==> Flatten(shards)[k] == shards[i][k])
  {
    if shards != [] {
      FlattenAt(shards[..|shards| - 1], hash, k);
    }
  }

  /** Shards are disjoint, so sizes add up. */
  lemma {:induction false} FlattenSize<K(!new), T(!new)>(shards: seq<map<K, Item<T>>>, hash: K -> nat)
    requires Placed(shards, hash)
    ensures |Flatten(shards)| == SizeSum(shards)
  {
    if shards != [] {
      var n := |shards| - 1;
      var a, b := Flatten(shards[..n]), shards[n];
      FlattenSize(shards[..n], hash);
      assert a.Keys !! b.Keys by {
        forall k | k in a.Keys ensures k !in b.Keys { FlattenAt(shards[..n], hash, k); }
      }
      assert (a + b).Keys == a.Keys + b.Keys;
      assert |a.Keys + b.Keys| == |a.Keys| + |b.Keys|;
    }
  }

  lemma {:induction false} SizeSumUpdate<K, T>(shards: seq<map<K, Item<T>>>, i: nat, s: map<K, Item<T>>)
    requires i < |shards|
    ensures SizeSum(shards[i := s]) == SizeSum(shards) - |shards[i]| + |s|
  {
    var n := |shards| - 1;
    if i < n {
      SizeSumUpdate(shards[..n], i, s);
      assert shards[i := s][..n] == shards[..n][i := s];
    } else {
      assert shards[i := s][..n] == shards[..n];
    }
  }

  /** Replacing one shard replaces the flat map's entries of that shard and nothing else. */
  lemma FlattenUpdate<K(!new), T(!new)>(shards: seq<map<K, Item<T>>>, hash: K -> nat, i: nat, s: map<K, Item<T>>, flat: map<K, Item<T>>)
    requires Placed(shards, hash) && i < |shards| == SHARDS
    requires forall k :: k in s ==> Index(hash, k) == i
    requires forall k :: k in flat <==> if Index(hash, k) == i then k in s else k in Flatten(shards)
    requires forall k :: k in flat ==> flat[k] == if Index(hash, k) == i then s[k] else Flatten(shards)[k]
    ensures Placed(shards[i := s], hash)
    ensures Flatten(shards[i := s]) == flat
  {
    var next := shards[i := s];
    forall k
      ensures k in Flatten(next) <==> k in flat
      ensures k in flat ==> Flatten(next)[k] == flat[k]
    {
      FlattenAt(shards, hash, k);
      FlattenAt(next, hash, k);
    }
  }

  // ---- each operation on one shard is the same operation on the flat map --------------------

  lemma SetRefines<K(!new), T(!new)>(shards: seq<map<K, Item<T>>>, hash: K -> nat, id: K, item: Item<T>, mode: WriteMode)
    requires Placed(shards, hash) && |shards| == SHARDS
    ensures var i := Index(hash, id);
            var next := shards[i := SetMap(shards[i], id, item, mode)];
            && Placed(next, hash)
            && Flatten(next) == SetMap(Flatten(shards), id, item, mode)
            && SetCount(shards[i], id, mode) == SetCount(Flatten(shards), id, mode)
  {
    var i := Index(hash, id);
    var s, flat := SetMap(shards[i], id, item, mode), SetMap(Flatten(shards), id, item, mode);
    forall k
      ensures k in flat <==> if Index(hash, k) == i then k in s else k in Flatten(shards)
      ensures k in flat ==> flat[k] == if Index(hash, k) == i then s[k] else Flatten(shards)[k]
    {
      FlattenAt(shards, hash, k);
      FlattenAt(shards, hash, id);
    }
    FlattenAt(shards, hash, id);
    FlattenUpdate(shards, hash, i, s, flat);
  }

  lemma GetRefines<K(!new), T(!new)>(shards: seq<map<K, Item<T>>>, hash: K -> nat, id: K, now: int)
    requires Placed(shards, hash) && |shards| == SHARDS
    ensures var i := Index(hash, id);
            var next := shards[i := GetMap(shards[i], id, now)];
            && Placed(next, hash)
            && Flatten(next) == GetMap(Flatten(shards), id, now)
            && Found(shards[i], id, now) == Found(Flatten(shards), id, now)
  {
    var i := Index(hash, id);
    FlattenAt(shards, hash, id);
    RemoveRefines(shards, hash, i, if Lapsed(shards[i], id, now) then {id} else {});
    assert shards[i] - {} == shards[i];
    assert Flatten(shards) - {} == Flatten(shards);
  }

  lemma DelRefines<K(!new), T(!new)>(shards: seq<map<K, Item<T>>>, hash: K -> nat, id: K)
    requires Placed(shards, hash) && |shards| == SHARDS
    ensures var i := Index(hash, id);
            var next := shards[i := shards[i] - {id}];
            && Placed(next, hash)
            && Flatten(next) == Flatten(shards) - {id}
            && DelCount(shards[i], id) == DelCount(Flatten(shards), id)
  {
    FlattenAt(shards, hash, id);
    RemoveRefines(shards, hash, Index(hash, id), {id});
  }

  lemma RemoveRefines<K(!new), T(!new)>(shards: seq<map<K, Item<T>>>, hash: K -> nat, i: nat, gone: set<K>)
    requires Placed(shards, hash) && i < |shards| == SHARDS
    requires forall k :: k in gone ==> Index(hash, k) == i
    ensures var next := shards[i := shards[i] - gone];
            Placed(next, hash) && Flatten(next) == Flatten(shards) - gone
  {
    forall k
      ensures k in Flatten(shards) <==> k in shards[Index(hash, k)]
      ensures k in Flatten(shards) ==> Flatten(shards)[k] == shards[Index(hash, k)][k]
    {
      FlattenAt(shards, hash, k);
    }
    FlattenUpdate(shards, hash, i, shards[i] - gone, Flatten(shards) - gone);
  }

  lemma CullRefines<K(!new), T(!new)>(shards: seq<map<K, Item<T>>>, hash: K -> nat, i: nat, clock: map<K, int>)
    requires Placed(shards, hash) && i < |shards| == SHARDS
    requires forall k :: k in clock ==> Index(hash, k) == i
    ensures var next := shards[i := CullMap(shards[i], clock)];
            Placed(next, hash) && Flatten(next) == CullMap(Flatten(shards), clock)
  {
    forall k
      ensures k in Flatten(shards) <==> k in shards[Index(hash, k)]
      ensures k in Flatten(shards) ==> Flatten(shards)[k] == shards[Index(hash, k)][k]
    {
      FlattenAt(shards, hash, k);
    }
    FlattenUpdate(shards, hash, i, CullMap(shards[i], clock), CullMap(Flatten(shards), clock));
  }
}
