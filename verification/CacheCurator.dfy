/**
 Who can notice the curator. It only does early what reading an expired key would do anyway, so with
 a clock that never goes back, readers and unconditional writers are answered the same with and
 without its sweeps. A conditional write (and a deletion, which returns a count) looks at presence
 only: it is answered differently exactly if it meets an expired entry that a sweep has removed.
 */
module CacheCurator {
  import opened Wrappers
  import opened CacheModel
  import opened CacheRuns

  /** The clock readings by which an event judges key `k`. */
  function Readings<K(==, !new), T>(hash: K -> nat, e: Event<K, T>, k: K): set<int> {
    match e
    case Get(id, now) => if id == k then {now} else {}
    case CullShard(i, clock) => if Index(hash, k) == i && k in clock then {clock[k]} else {}
    case _ => {}
  }

  /**
   The readings for one key, which are all taken under the lock of its shard, never go back.
   Nothing is said of readings for different keys: critical sections of different shards overlap.
   */
  ghost predicate NonDecreasing<K(!new), T(!new)>(hash: K -> nat, es: seq<Event<K, T>>) {
    forall k, i, j, a, b :: 0 <= i < j < |es| && a in Readings(hash, es[i], k) && b in Readings(hash, es[j], k) ==> a <= b
  }

  /** The same run without the curator. */
  function Uncurated<K, T>(es: seq<Event<K, T>>): seq<Event<K, T>> {
    if es == [] then []
    else (if es[0].CullShard? then [] else [es[0]]) + Uncurated(es[1..])
  }

  /** Whose answers are compared: those of reads and writes and, if `dels`, the counts of deletions. */
  predicate Heard<K, T>(e: Event<K, T>, dels: bool) {
    e.Get? || e.Set? || (dels && e.Del?)
  }

  /** Operations whose answer depends on the presence of an expired entry. */
  predicate Telling<K, T>(e: Event<K, T>, dels: bool) {
    (e.Set? && !e.mode.WriteAlways?) || (dels && e.Del?)
  }

  /** The answers of a run on one flat map, in order; `has` is whether a read is not empty. */
  ghost function Answers<K(!new), T(!new)>(m: map<K, Item<T>>, hash: K -> nat, es: seq<Event<K, T>>, dels: bool): seq<Answer<T>>
    decreases |es|
  {
    if es == [] then []
    else
      (if Heard(es[0], dels) then [Reply(m, hash, es[0])] else [])
      + Answers(FlatApply(m, hash, es[0]), hash, es[1..], dels)
  }

  // ---- what the sweeps have removed -------------------------------------------------------------

  /** The last sweep reading of each key since a write to it. */
  function Past<K(!new), T>(past: map<K, int>, hash: K -> nat, e: Event<K, T>): map<K, int> {
    match e
    case Set(id, _, _) => past - {id}
    case CullShard(i, clock) => past + map k | k in clock && Index(hash, k) == i :: clock[k]
    case _ => past
  }

  ghost function PastAfter<K(!new), T(!new)>(past: map<K, int>, hash: K -> nat, es: seq<Event<K, T>>): map<K, int>
    decreases |es|
  {
    if es == [] then past else PastAfter(Past(past, hash, es[0]), hash, es[1..])
  }

  /** A map without the curator, after the same event. */
  ghost function LazyApply<K(!new), T(!new)>(lazy: map<K, Item<T>>, hash: K -> nat, e: Event<K, T>): map<K, Item<T>> {
    if e.CullShard? then lazy else FlatApply(lazy, hash, e)
  }

  /** Without the curator `id` would still be stored, but its last sweep found it expired. */
  predicate Leftover<K(==), T>(lazy: map<K, Item<T>>, past: map<K, int>, id: K) {
    id in lazy && id in past && Expired(lazy[id], past[id])
  }

  /** The map just before event `i`, had there been no curator. */
  ghost function LazyAt<K(!new), T(!new)>(lazy: map<K, Item<T>>, hash: K -> nat, es: seq<Event<K, T>>, i: nat): map<K, Item<T>>
    requires i <= |es|
  {
    FlatAfter(lazy, hash, Uncurated(es[..i]))
  }

  /** Event `i` can tell, and its key is a leftover. */
  ghost predicate Meets<K(!new), T(!new)>(
    lazy: map<K, Item<T>>, past: map<K, int>, hash: K -> nat, es: seq<Event<K, T>>, i: nat, dels: bool)
    requires i < |es|
  {
    Telling(es[i], dels) && Leftover(LazyAt(lazy, hash, es, i), PastAfter(past, hash, es[..i]), es[i].key)
  }

  lemma MeetsLater<K(!new), T(!new)>(
    lazy: map<K, Item<T>>, past: map<K, int>, hash: K -> nat, es: seq<Event<K, T>>, i: nat, dels: bool)
    requires 0 < i < |es|
    ensures Meets(lazy, past, hash, es, i, dels) <==>
            Meets(LazyApply(lazy, hash, es[0]), Past(past, hash, es[0]), hash, es[1..], i - 1, dels)
  {
    assert es[..i][1..] == es[1..][..i - 1];
    var rest := Uncurated(es[1..][..i - 1]);
    if es[0].CullShard? {
      assert Uncurated(es[..i]) == rest;
    } else {
      assert Uncurated(es[..i])[1..] == rest;
    }
  }

  /** No reading still to come is earlier than one already taken. */
  ghost predicate Bounded<K(!new), T(!new)>(past: map<K, int>, hash: K -> nat, es: seq<Event<K, T>>) {
    forall k, j, b :: k in past && 0 <= j < |es| && b in Readings(hash, es[j], k) ==> past[k] <= b
  }

  lemma ClockGoesOn<K(!new), T(!new)>(past: map<K, int>, hash: K -> nat, es: seq<Event<K, T>>)
    requires es != [] && NonDecreasing(hash, es) && Bounded(past, hash, es)
    ensures NonDecreasing(hash, es[1..]) && Bounded(Past(past, hash, es[0]), hash, es[1..])
  {
    var t, p := es[1..], Past(past, hash, es[0]);
    forall k, i, j, a, b | 0 <= i < j < |t| && a in Readings(hash, t[i], k) && b in Readings(hash, t[j], k)
      ensures a <= b
    {
      assert t[i] == es[i + 1] && t[j] == es[j + 1];
    }
    forall k, j, b | k in p && 0 <= j < |t| && b in Readings(hash, t[j], k)
      ensures p[k] <= b
    {
      assert t[j] == es[j + 1];
      if es[0].CullShard? && k in es[0].clock && Index(hash, k) == es[0].shard {
        assert p[k] in Readings(hash, es[0], k);
      }
    }
  }

  /** The curated map is the other one swept by the past readings; a sweep keeps it so. */
  lemma SweepKeepsGap<K(!new), T(!new)>(lazy: map<K, Item<T>>, past: map<K, int>, hash: K -> nat, es: seq<Event<K, T>>)
    requires es != [] && es[0].CullShard? && Bounded(past, hash, es)
    ensures FlatApply(CullMap(lazy, past), hash, es[0]) == CullMap(lazy, Past(past, hash, es[0]))
  {
    var e := es[0];
    var a, b := FlatApply(CullMap(lazy, past), hash, e), CullMap(lazy, Past(past, hash, e));
    forall k
      ensures k in a <==> k in b
    {
      if k in past && k in e.clock && Index(hash, k) == e.shard {
        assert e.clock[k] in Readings(hash, es[0], k);
      }
    }
  }

  /** So does any other event, unless it can tell and meets a leftover; and then it is answered alike. */
  lemma StepKeepsGap<K(!new), T(!new)>(
    lazy: map<K, Item<T>>, past: map<K, int>, hash: K -> nat, es: seq<Event<K, T>>, dels: bool)
    requires es != [] && !es[0].CullShard? && Bounded(past, hash, es)
    requires !(Telling(es[0], dels) && Leftover(lazy, past, es[0].key))
    ensures FlatApply(CullMap(lazy, past), hash, es[0]) == CullMap(FlatApply(lazy, hash, es[0]), Past(past, hash, es[0]))
    ensures Heard(es[0], dels) ==> Reply(CullMap(lazy, past), hash, es[0]) == Reply(lazy, hash, es[0])
  {
    var e := es[0];
    if e.Get? { assert e.now in Readings(hash, es[0], e.key); }
    var a := FlatApply(CullMap(lazy, past), hash, e);
    var b := CullMap(FlatApply(lazy, hash, e), Past(past, hash, e));
    forall k
      ensures k in a <==> k in b
      ensures k in a ==> a[k] == b[k]
    {
    }
  }

  /** The first event tells the two runs apart, or else the rest of the runs decides. */
  lemma HeadDecides<K(!new), T(!new)>(
    lazy: map<K, Item<T>>, past: map<K, int>, hash: K -> nat, es: seq<Event<K, T>>, dels: bool)
    requires es != [] && Bounded(past, hash, es)
    ensures Answers(CullMap(lazy, past), hash, es, dels) == Answers(lazy, hash, Uncurated(es), dels) <==>
            && !(Telling(es[0], dels) && Leftover(lazy, past, es[0].key))
            && Answers(CullMap(LazyApply(lazy, hash, es[0]), Past(past, hash, es[0])), hash, es[1..], dels)
               == Answers(LazyApply(lazy, hash, es[0]), hash, Uncurated(es[1..]), dels)
  {
    if es[0].CullShard? {
      SweepKeepsGap(lazy, past, hash, es);
      assert Uncurated(es) == Uncurated(es[1..]);
    } else {
      assert Uncurated(es)[0] == es[0] && Uncurated(es)[1..] == Uncurated(es[1..]);
      var a, b := Reply(CullMap(lazy, past), hash, es[0]), Reply(lazy, hash, es[0]);
      if Telling(es[0], dels) && Leftover(lazy, past, es[0].key) {
        assert a != b;
        assert Answers(CullMap(lazy, past), hash, es, dels)[0] == a;
        assert Answers(lazy, hash, Uncurated(es), dels)[0] == b;
      } else {
        StepKeepsGap(lazy, past, hash, es, dels);
        var x := Answers(FlatApply(CullMap(lazy, past), hash, es[0]), hash, es[1..], dels);
        var y := Answers(FlatApply(lazy, hash, es[0]), hash, Uncurated(es[1..]), dels);
        if Heard(es[0], dels) {
          assert Answers(CullMap(lazy, past), hash, es, dels) == [a] + x;
          assert Answers(lazy, hash, Uncurated(es), dels) == [a] + y;
          SameHead(a, x, y);
        } else {
          assert Answers(CullMap(lazy, past), hash, es, dels) == x;
          assert Answers(lazy, hash, Uncurated(es), dels) == y;
        }
      }
    }
  }

  lemma SameHead<A>(a: A, x: seq<A>, y: seq<A>)
    ensures [a] + x == [a] + y <==> x == y
  {
    assert ([a] + x)[1..] == x && ([a] + y)[1..] == y;
  }

  lemma {:induction false} SameAnswers<K(!new), T(!new)>(
    lazy: map<K, Item<T>>, past: map<K, int>, hash: K -> nat, es: seq<Event<K, T>>, dels: bool)
    requires NonDecreasing(hash, es) && Bounded(past, hash, es)
    ensures Answers(CullMap(lazy, past), hash, es, dels) == Answers(lazy, hash, Uncurated(es), dels) <==>
            forall i :: 0 <= i < |es| ==> !Meets(lazy, past, hash, es, i, dels)
    decreases |es|
  {
    if es != [] {
      ClockGoesOn(past, hash, es);
      HeadDecides(lazy, past, hash, es, dels);
      MeetsNowOrLater(lazy, past, hash, es, dels);
      SameAnswers(LazyApply(lazy, hash, es[0]), Past(past, hash, es[0]), hash, es[1..], dels);
    }
  }

  lemma MeetsNowOrLater<K(!new), T(!new)>(
    lazy: map<K, Item<T>>, past: map<K, int>, hash: K -> nat, es: seq<Event<K, T>>, dels: bool)
    requires es != []
    ensures (forall i :: 0 <= i < |es| ==> !Meets(lazy, past, hash, es, i, dels)) <==>
            && !(Telling(es[0], dels) && Leftover(lazy, past, es[0].key))
            && forall i :: 0 <= i < |es[1..]| ==>
                 !Meets(LazyApply(lazy, hash, es[0]), Past(past, hash, es[0]), hash, es[1..], i, dels)
  {
    assert es[..0] == [];
    assert Meets(lazy, past, hash, es, 0, dels) <==> Telling(es[0], dels) && Leftover(lazy, past, es[0].key);
    forall i | 0 < i < |es|
      ensures Meets(lazy, past, hash, es, i, dels) <==>
              Meets(LazyApply(lazy, hash, es[0]), Past(past, hash, es[0]), hash, es[1..], i - 1, dels)
    {
      MeetsLater(lazy, past, hash, es, i, dels);
    }
    if forall i :: 0 <= i < |es| ==> !Meets(lazy, past, hash, es, i, dels) {
      forall i | 0 <= i < |es[1..]|
        ensures !Meets(LazyApply(lazy, hash, es[0]), Past(past, hash, es[0]), hash, es[1..], i, dels)
      {
        MeetsLater(lazy, past, hash, es, i + 1, dels);
      }
    }
  }

  // ---- who can notice -----------------------------------------------------------------------------

  /**
   The run with the curator and the run without it give the same answers exactly if no conditional
   write (nor deletion, if its count is compared) meets a leftover.
   */
  lemma CuratorNoticedExactly<K(!new), T(!new)>(m: map<K, Item<T>>, hash: K -> nat, es: seq<Event<K, T>>, dels: bool)
    requires NonDecreasing(hash, es)
    ensures Answers(m, hash, es, dels) == Answers(m, hash, Uncurated(es), dels) <==>
            forall i :: 0 <= i < |es| ==> !Meets(m, map[], hash, es, i, dels)
  {
    assert CullMap(m, map[]) == m;
    SameAnswers(m, map[], hash, es, dels);
  }

  /** The curator changes no answer of `get` or `has`, nor of a `set`, in a run of unconditional writes. */
  lemma CuratorInvisible<K(!new), T(!new)>(m: map<K, Item<T>>, hash: K -> nat, es: seq<Event<K, T>>)
    requires NonDecreasing(hash, es)
    requires forall i :: 0 <= i < |es| && es[i].Set? ==> es[i].mode.WriteAlways?
    ensures Answers(m, hash, es, false) == Answers(m, hash, Uncurated(es), false)
  {
    CuratorNoticedExactly(m, hash, es, false);
  }

  lemma {:induction false} PastIsReading<K(!new), T(!new)>(past: map<K, int>, hash: K -> nat, es: seq<Event<K, T>>, k: K)
    ensures k in PastAfter(past, hash, es) ==>
              (k in past && PastAfter(past, hash, es)[k] == past[k])
              || exists j :: 0 <= j < |es| && PastAfter(past, hash, es)[k] in Readings(hash, es[j], k)
    decreases |es|
  {
    if es != [] {
      var next := Past(past, hash, es[0]);
      PastIsReading(next, hash, es[1..], k);
      if k in PastAfter(past, hash, es) {
        var b := PastAfter(past, hash, es)[k];
        if j :| 0 <= j < |es[1..]| && b in Readings(hash, es[1..][j], k) {
          assert b in Readings(hash, es[j + 1], k);
        } else if !(k in past && b == past[k]) {
          assert b in Readings(hash, es[0], k);
        }
      }
    }
  }

  /**
   What a caller can check: with a clock reading `times[i]` taken before operation `i`, an operation
   that can tell is used only for keys that are absent or not expired by it. Then none can tell.
   */
  lemma LiveKeysTellNothing<K(!new), T(!new)>(
    m: map<K, Item<T>>, hash: K -> nat, es: seq<Event<K, T>>, times: seq<int>, dels: bool)
    requires NonDecreasing(hash, es) && |times| == |es|
    requires forall i, j, b :: 0 <= j < i < |es| && Telling(es[i], dels) && b in Readings(hash, es[j], es[i].key) ==> b <= times[i]
    requires forall i :: 0 <= i < |es| && Telling(es[i], dels) ==>
               !Lapsed(LazyAt(m, hash, es, i), es[i].key, times[i])
    ensures Answers(m, hash, es, dels) == Answers(m, hash, Uncurated(es), dels)
  {
    forall i | 0 <= i < |es|
      ensures !Meets(m, map[], hash, es, i, dels)
    {
      if Telling(es[i], dels) { PastIsReading(map[], hash, es[..i], es[i].key); }
    }
    CuratorNoticedExactly(m, hash, es, dels);
  }

  // ---- the same on the shards ----------------------------------------------------------------

  /** The answers that the users of the sharded cache get. */
  ghost function ShardAnswers<K(!new), T(!new)>(w: World<K, T>, hash: K -> nat, es: seq<Event<K, T>>, dels: bool): seq<Answer<T>>
    requires |w.shards| == SHARDS && Possible(w, hash, es)
    decreases |es|
  {
    if es == [] then []
    else
      (if Heard(es[0], dels) then [ShardReply(w, hash, es[0])] else [])
      + ShardAnswers(Apply(w, hash, es[0]), hash, es[1..], dels)
  }

  lemma {:induction false} ShardAnswersAreFlat<K(!new), T(!new)>(w: World<K, T>, hash: K -> nat, es: seq<Event<K, T>>, dels: bool)
    requires Inv(w, hash) && Possible(w, hash, es)
    ensures ShardAnswers(w, hash, es, dels) == Answers(Flatten(w.shards), hash, es, dels)
    decreases |es|
  {
    if es != [] {
      StepKeepsInv(w, hash, es[0]);
      StepRefines(w, hash, es[0]);
      ShardAnswersAreFlat(Apply(w, hash, es[0]), hash, es[1..], dels);
    }
  }

  /** The same walks are in progress, at the same shards. */
  ghost predicate SameWalks<K, T>(v: World<K, T>, w: World<K, T>) {
    && v.walks.Keys == w.walks.Keys
    && forall id :: id in v.walks ==> v.walks[id].next == w.walks[id].next && v.walks[id].flushing == w.walks[id].flushing
  }

  lemma {:induction false} StillPossible<K(!new), T(!new)>(v: World<K, T>, w: World<K, T>, hash: K -> nat, es: seq<Event<K, T>>)
    requires |v.shards| == |w.shards| == SHARDS && Possible(v, hash, es) && SameWalks(v, w)
    ensures Possible(w, hash, Uncurated(es))
    decreases |es|
  {
    if es != [] {
      if es[0].CullShard? {
        StillPossible(Apply(v, hash, es[0]), w, hash, es[1..]);
        assert Uncurated(es) == Uncurated(es[1..]);
      } else {
        StillPossible(Apply(v, hash, es[0]), Apply(w, hash, es[0]), hash, es[1..]);
        assert Uncurated(es)[1..] == Uncurated(es[1..]);
      }
    }
  }

  /** Sweeps of single shards, inserted anywhere, are noticed exactly by those who meet a leftover. */
  lemma CuratorNoticedExactlyInShards<K(!new), T(!new)>(w: World<K, T>, hash: K -> nat, es: seq<Event<K, T>>, dels: bool)
    requires Inv(w, hash) && Possible(w, hash, es) && NonDecreasing(hash, es)
    ensures Possible(w, hash, Uncurated(es))
    ensures ShardAnswers(w, hash, es, dels) == ShardAnswers(w, hash, Uncurated(es), dels) <==>
            forall i :: 0 <= i < |es| ==> !Meets(Flatten(w.shards), map[], hash, es, i, dels)
  {
    StillPossible(w, w, hash, es);
    ShardAnswersAreFlat(w, hash, es, dels);
    ShardAnswersAreFlat(w, hash, Uncurated(es), dels);
    CuratorNoticedExactly(Flatten(w.shards), hash, es, dels);
  }

  /** A key that expired at time 5 and was swept at time 9: both conditional modes answer the other way. */
  lemma ConditionalWriteWitness(hash: string -> nat, item: Item<int>, mode: WriteMode)
    requires !mode.WriteAlways?
    ensures var m := map["k" := Item(Some(0), 5)];
            var es := [CullShard(Index(hash, "k"), map["k" := 9]), Set("k", item, mode)];
            && NonDecreasing(hash, es)
            && Answers(m, hash, es, false) == [Count(if mode.OnlyIfSet? then 0 else 1)]
            && Answers(m, hash, Uncurated(es), false) == [Count(if mode.OnlyIfSet? then 1 else 0)]
  {
    var m := map["k" := Item(Some(0), 5)];
    var sweep, write := CullShard(Index(hash, "k"), map["k" := 9]), Set("k", item, mode);
    var es := [sweep, write];
    var swept := FlatApply(m, hash, sweep);
    assert "k" in m && "k" !in swept;
    assert es[1..] == [write] && [write][1..] == [];
    assert Answers(swept, hash, [write], false) == [Reply(swept, hash, write)];
    assert Answers(m, hash, [write], false) == [Reply(m, hash, write)];
    assert Answers(m, hash, es, false) == Answers(swept, hash, [write], false);
    assert Uncurated(es) == [write] by { assert Uncurated([write]) == [write]; }
  }
}
