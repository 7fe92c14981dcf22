/**
 The sharded cache as an object: 256 maps changed in place. Every operation is specified by its
 effect on the one flat map `View()`, for every hash function.
 */
module Cache {
  import opened Wrappers
  import opened CacheModel

  /** `clock` holds only values that `time` showed from tick `from` up to tick `to`. */
  ghost predicate ReadBetween<K(!new)>(clock: map<K, int>, time: nat -> int, from: nat, to: nat) {
    forall k :: k in clock ==> exists j: nat :: from <= j < to && time(j) == clock[k]
  }

  lemma ReadUnion<K(!new)>(a: map<K, int>, b: map<K, int>, time: nat -> int, from: nat, mid: nat, to: nat)
    requires ReadBetween(a, time, from, mid) && ReadBetween(b, time, mid, to) && from <= mid <= to
    ensures ReadBetween(a + b, time, from, to)
  {
    forall k | k in a + b
      ensures exists j: nat :: from <= j < to && time(j) == (a + b)[k]
    {
      if k in b {
        var j: nat :| mid <= j < to && time(j) == b[k];
      } else {
        var j: nat :| from <= j < mid && time(j) == a[k];
      }
    }
  }

  class Cache<K(==, !new), T(!new)> {
    const hash: K -> nat
    const shards: array<map<K, Item<T>>>

    ghost predicate Valid()
      reads shards
    {
      shards.Length == SHARDS && Placed(shards[..], hash)
    }

    ghost function View(): map<K, Item<T>>
      reads shards
    {
      Flatten(shards[..])
    }

    constructor (hash: K -> nat)
      ensures Valid() && fresh(shards) && View() == map[] && this.hash == hash
    {
      this.hash := hash;
      shards := new map<K, Item<T>>[SHARDS](_ => map[]);
      new;
      AllEmpty(shards[..]);
    }

    method Set(id: K, val: Option<T>, expiration: int, mode: WriteMode) returns (written: nat)
      requires Valid()
      modifies shards
      ensures Valid()
      ensures View() == SetMap(old(View()), id, Item(val, expiration), mode)
      ensures written == SetCount(old(View()), id, mode)
      // that is:
      ensures mode.WriteAlways? || (mode.OnlyIfSet? <==> id in old(View()))
              ==> written == 1 && View() == old(View())[id := Item(val, expiration)]
      ensures !(mode.WriteAlways? || (mode.OnlyIfSet? <==> id in old(View())))
              ==> written == 0 && View() == old(View())
    {
      SetRefines(shards[..], hash, id, Item(val, expiration), mode);
      var i := Index(hash, id);
      var item := Item(val, expiration);
      if mode.OnlyIfSet? {
        if id !in shards[i] { return 0; }
        shards[i] := shards[i] - {id};
      }
      // insert() keeps an existing entry and says so
      var inserted := id !in shards[i];
      if inserted { shards[i] := shards[i][id := item]; }
      ghost var goal := old(shards[..])[i := SetMap(old(shards[i]), id, item, mode)];
      assert (old(shards[i]) - {id})[id := item] == old(shards[i])[id := item];
      if !inserted {
        if mode.OnlyIfNotSet? {
          assert shards[..] == goal;
          return 0;
        }
        shards[i] := shards[i] - {id};
        shards[i] := shards[i][id := item];
      }
      assert shards[..] == goal;
      return 1;
    }

    method Get(id: K, now: int) returns (r: Option<T>)
      requires Valid()
      modifies shards
      ensures Valid()
      ensures View() == GetMap(old(View()), id, now)
      ensures r == Found(old(View()), id, now)
      // that is:
      ensures id !in old(View()) ==> r == None && View() == old(View())
      ensures id in old(View()) ==>
                var item := old(View())[id];
                if item.expiration == 0 || now <= item.expiration
                then r == item.data && View() == old(View())
                else r == None && View() == old(View()) - {id}
    {
      GetRefines(shards[..], hash, id, now);
      var i := Index(hash, id);
      ghost var goal := shards[..][i := GetMap(shards[i], id, now)];
      if id !in shards[i] {
        assert shards[..] == goal;
        return None;
      }
      var item := shards[i][id];
      if Expired(item, now) {
        shards[i] := shards[i] - {id};
        assert shards[..] == goal;
        return None;
      }
      assert shards[..] == goal;
      return item.data;
    }

    /** True only for an unexpired, non-null entry. */
    method Has(id: K, now: int) returns (b: bool)
      requires Valid()
      modifies shards
      ensures Valid()
      ensures View() == GetMap(old(View()), id, now)
      ensures b <==> && id in old(View()) && old(View())[id].data.Some?
                     && (old(View())[id].expiration == 0 || now <= old(View())[id].expiration)
    {
      var r := Get(id, now);
      return r.Some?;
    }

    method Del(id: K) returns (erased: nat)
      requires Valid()
      modifies shards
      ensures Valid()
      ensures View() == old(View()) - {id}
      ensures erased == if id in old(View()) then 1 else 0
    {
      DelRefines(shards[..], hash, id);
      var i := Index(hash, id);
      ghost var goal := shards[..][i := shards[i] - {id}];
      erased := if id in shards[i] then 1 else 0;
      shards[i] := shards[i] - {id};
      assert shards[..] == goal;
    }

    method Flush() returns (count: nat)
      requires Valid()
      modifies shards
      ensures Valid() && View() == map[] && count == |old(View())|
    {
      ghost var was := shards[..];
      count := 0;
      for n := 0 to SHARDS
        invariant forall j :: 0 <= j < n ==> shards[j] == map[]
        invariant forall j :: n <= j < SHARDS ==> shards[j] == was[j]
        invariant count == SizeSum(was[..n])
      {
        SizeSumNext(was, n);
        count := count + |shards[n]|;
        shards[n] := map[];
      }
      assert was[..SHARDS] == was;
      FlattenSize(was, hash);
      AllEmpty(shards[..]);
    }

    method Metrics() returns (total: nat)
      requires Valid()
      ensures total == |View()|
    {
      total := 0;
      for n := 0 to SHARDS
        invariant total == SizeSum(shards[..n])
      {
        SizeSumNext(shards[..], n);
        assert shards[..][..n] == shards[..n];
        assert shards[..][..n + 1] == shards[..n + 1];
        total := total + |shards[n]|;
      }
      assert shards[..SHARDS] == shards[..];
      FlattenSize(shards[..], hash);
    }

    /** Sweeps one shard; items without expiration are kept without looking at the clock. */
    method CullExpiredKeys(i: nat, time: nat -> int, tick: nat) returns (next: nat, ghost clock: map<K, int>)
      requires shards.Length == SHARDS && i < SHARDS
      modifies shards
      ensures forall j :: 0 <= j < SHARDS && j != i ==> shards[j] == old(shards[j])
      ensures shards[i] == CullMap(old(shards[i]), clock)
      ensures tick <= next && ReadBetween(clock, time, tick, next)
      ensures clock.Keys == set k | k in old(shards[i]) && old(shards[i])[k].expiration != 0
      ensures forall k :: k in shards[i] <==> k in old(shards[i]) && (k in clock ==> clock[k] <= old(shards[i])[k].expiration)
    {
      next, clock := tick, map[];
      var todo := shards[i].Keys;
      ghost var was := shards[i];
      while todo != {}
        invariant todo <= was.Keys && todo <= shards[i].Keys
        invariant forall j :: 0 <= j < SHARDS && j != i ==> shards[j] == old(shards[j])
        invariant clock.Keys == set k | k in was && k !in todo && was[k].expiration != 0
        invariant shards[i] == CullMap(was, clock)
        invariant tick <= next && ReadBetween(clock, time, tick, next)
      {
        var k :| k in todo;
        todo := todo - {k};
        var item := shards[i][k];
        assert item == was[k];
        if item.expiration != 0 {
          var now := time(next);
          clock := clock[k := now];
          next := next + 1;
          if now > item.expiration {
            shards[i] := shards[i] - {k};
          }
        }
      }
    }

    /** One pass of the curator over all shards: a single sweep of the flat map. */
    method CuratePass(time: nat -> int, tick: nat) returns (next: nat, ghost clock: map<K, int>)
      requires Valid()
      modifies shards
      ensures Valid()
      ensures View() == CullMap(old(View()), clock)
      ensures tick <= next && ReadBetween(clock, time, tick, next)
      // every item that can expire is looked at
      ensures forall k :: k in old(View()) && old(View())[k].expiration != 0 ==> k in clock
      ensures forall k :: k in View() <==>
                k in old(View()) && (k in clock && old(View())[k].expiration != 0 ==> clock[k] <= old(View())[k].expiration)
    {
      next, clock := tick, map[];
      ghost var was := old(View());
      CullNothing(was);
      forall k ensures k in was ==> k in old(shards[..])[Index(hash, k)] {
        FlattenAt(shards[..], hash, k);
      }
      for n := 0 to SHARDS
        invariant Valid()
        invariant forall j :: n <= j < SHARDS ==> shards[j] == old(shards[..])[j]
        invariant View() == CullMap(was, clock)
        invariant forall k :: k in clock ==> Index(hash, k) < n
        invariant tick <= next && ReadBetween(clock, time, tick, next)
        invariant forall k :: k in was && was[k].expiration != 0 && Index(hash, k) < n ==> k in clock
      {
        ghost var before, mid := shards[..], next;
        ghost var seen: map<K, int>;
        next, seen := CullExpiredKeys(n, time, next);
        CullRefines(before, hash, n, seen);
        assert shards[..] == before[n := CullMap(before[n], seen)];
        CullTwice(was, clock, seen);
        ReadUnion(clock, seen, time, tick, mid, next);
        forall k | k in was && was[k].expiration != 0 && Index(hash, k) < n + 1
          ensures k in clock + seen
        {
          FlattenAt(old(shards[..]), hash, k);
        }
        clock := clock + seen;
      }
    }
  }

  lemma {:induction false} AllEmpty<K, T>(shards: seq<map<K, Item<T>>>)
    requires forall i :: 0 <= i < |shards| ==> shards[i] == map[]
    ensures Flatten(shards) == map[]
  {
    if shards != [] { AllEmpty(shards[..|shards| - 1]); }
  }

  lemma SizeSumNext<K, T>(shards: seq<map<K, Item<T>>>, n: nat)
    requires n < |shards|
    ensures SizeSum(shards[..n + 1]) == SizeSum(shards[..n]) + |shards[n]|
  {
    assert shards[..n + 1][..n] == shards[..n];
  }

  lemma CullNothing<K, T>(m: map<K, Item<T>>)
    ensures CullMap(m, map[]) == m
  {
  }

  lemma CullTwice<K, T>(m: map<K, Item<T>>, a: map<K, int>, b: map<K, int>)
    requires a.Keys !! b.Keys
    ensures CullMap(CullMap(m, a), b) == CullMap(m, a + b)
  {
  }
}
