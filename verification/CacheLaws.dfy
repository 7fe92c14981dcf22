/**
 What a user of the cache can rely on, key by key and over whole runs, said in terms of the values
 and expirations written and the clock: a value is read back until its time and not after, a
 conditional write goes by what is stored, and nothing else touches a key.
 */
module CacheLaws {
  import opened Wrappers
  import opened CacheModel
  import opened CacheRuns
  import opened CacheCurator

  /** The answer that `e` gets on a flat map after the events `es`. */
  ghost function AnswerAfter<K(!new), T(!new)>(m: map<K, Item<T>>, hash: K -> nat, es: seq<Event<K, T>>, e: Event<K, T>): Answer<T> {
    Reply(FlatAfter(m, hash, es), hash, e)
  }

  /** `e` neither writes, deletes nor flushes `k`. */
  predicate Spares<K(==, !new), T>(hash: K -> nat, e: Event<K, T>, k: K) {
    match e
    case Set(id, _, _) => id != k
    case Del(id) => id != k
    case FlushShard(_, i) => i != hash(k) % 256
    case _ => true
  }

  ghost predicate AllSpare<K(!new), T(!new)>(hash: K -> nat, es: seq<Event<K, T>>, k: K) {
    forall i :: 0 <= i < |es| ==> Spares(hash, es[i], k)
  }

  /** Some read or sweep in `es` looked at `k` past the expiration `x`. */
  ghost predicate Outlived<K(!new), T(!new)>(hash: K -> nat, es: seq<Event<K, T>>, k: K, x: int) {
    exists j, b :: 0 <= j < |es| && b in Readings(hash, es[j], k) && x != 0 && x < b
  }

  lemma {:induction false} FlatAfterConcat<K(!new), T(!new)>(m: map<K, Item<T>>, hash: K -> nat, a: seq<Event<K, T>>, b: seq<Event<K, T>>)
    ensures FlatAfter(m, hash, a + b) == FlatAfter(FlatAfter(m, hash, a), hash, b)
    decreases |a|
  {
    if a == [] {
      assert a + b == b;
    } else {
      assert (a + b)[1..] == a[1..] + b;
      FlatAfterConcat(FlatApply(m, hash, a[0]), hash, a[1..], b);
    }
  }

  lemma OneStep<K(!new), T(!new)>(m: map<K, Item<T>>, hash: K -> nat, e: Event<K, T>, k: K)
    requires Spares(hash, e, k)
    ensures k !in m ==> k !in FlatApply(m, hash, e)
    ensures k in m ==>
              var x := m[k].expiration;
              && (k in FlatApply(m, hash, e) <==> forall b :: b in Readings(hash, e, k) ==> x == 0 || b <= x)
              && (k in FlatApply(m, hash, e) ==> FlatApply(m, hash, e)[k] == m[k])
  {
    if e.Get? && e.key == k {
      assert e.now in Readings(hash, e, k);
    } else if e.CullShard? && Index(hash, k) == e.shard && k in e.clock {
      assert e.clock[k] in Readings(hash, e, k);
    }
  }

  /** A stored item stays as it is until it is looked at past its expiration; an absent key stays absent. */
  lemma {:induction false} KeptUntilOutlived<K(!new), T(!new)>(m: map<K, Item<T>>, hash: K -> nat, es: seq<Event<K, T>>, k: K)
    requires AllSpare(hash, es, k)
    ensures k in FlatAfter(m, hash, es) <==> k in m && !Outlived(hash, es, k, m[k].expiration)
    ensures k in FlatAfter(m, hash, es) ==> FlatAfter(m, hash, es)[k] == m[k]
    decreases |es|
  {
    if es != [] {
      var next, rest := FlatApply(m, hash, es[0]), es[1..];
      OneStep(m, hash, es[0], k);
      forall i | 0 <= i < |rest| ensures Spares(hash, rest[i], k) { assert rest[i] == es[i + 1]; }
      KeptUntilOutlived(next, hash, rest, k);
      if k in m { OutlivedNowOrLater(hash, es, k, m[k].expiration); }
    }
  }

  lemma OutlivedNowOrLater<K(!new), T(!new)>(hash: K -> nat, es: seq<Event<K, T>>, k: K, x: int)
    requires es != []
    ensures Outlived(hash, es, k, x) <==>
            (exists b :: b in Readings(hash, es[0], k) && x != 0 && x < b) || Outlived(hash, es[1..], k, x)
  {
    if Outlived(hash, es[1..], k, x) {
      var j, b :| 0 <= j < |es[1..]| && b in Readings(hash, es[1..][j], k) && x != 0 && x < b;
      assert b in Readings(hash, es[j + 1], k);
    }
    if Outlived(hash, es, k, x) {
      var j, b :| 0 <= j < |es| && b in Readings(hash, es[j], k) && x != 0 && x < b;
      if j > 0 { assert b in Readings(hash, es[1..][j - 1], k); }
    }
  }

  // ---- the laws -------------------------------------------------------------------------------------

  /** A write that took effect, and what followed it. */
  ghost predicate WrittenIn<K(!new), T(!new)>(
    m: map<K, Item<T>>, hash: K -> nat, run: seq<Event<K, T>>, n: nat, k: K, v: Option<T>, x: int)
  {
    && n < |run| && run[n].Set? && run[n].key == k && run[n].item == Item(v, x)
    && AnswerAfter(m, hash, run[..n], run[n]) == Count(1)
    && AllSpare(hash, run[n + 1..], k)
  }

  lemma AfterWrite<K(!new), T(!new)>(
    m: map<K, Item<T>>, hash: K -> nat, run: seq<Event<K, T>>, n: nat, k: K, v: Option<T>, x: int)
    requires WrittenIn(m, hash, run, n, k, v, x)
    ensures k in FlatAfter(m, hash, run) <==> !Outlived(hash, run[n + 1..], k, x)
    ensures k in FlatAfter(m, hash, run) ==> FlatAfter(m, hash, run)[k] == Item(v, x)
  {
    var before, after := run[..n], run[n + 1..];
    assert run == before + ([run[n]] + after);
    FlatAfterConcat(m, hash, before, [run[n]] + after);
    var written := FlatApply(FlatAfter(m, hash, before), hash, run[n]);
    assert ([run[n]] + after)[1..] == after;
    assert k in written && written[k] == Item(v, x);
    KeptUntilOutlived(written, hash, after, k);
  }

  /**
   Reading. With a clock that does not go back before readings that found the item expired, the value
   written is read up to and including its expiration, for ever if that is 0, and not after.
   */
  lemma ReadsWhatWasWritten<K(!new), T(!new)>(
    m: map<K, Item<T>>, hash: K -> nat, run: seq<Event<K, T>>, n: nat, k: K, v: Option<T>, x: int, now: int)
    requires WrittenIn(m, hash, run, n, k, v, x)
    requires forall j, b :: n < j < |run| && b in Readings(hash, run[j], k) ==> x == 0 || b <= x || b <= now
    ensures AnswerAfter(m, hash, run, Get(k, now)) == Value(if x == 0 || now <= x then v else None)
  {
    AfterWrite(m, hash, run, n, k, v, x);
    var after := run[n + 1..];
    if Outlived(hash, after, k, x) {
      var j, b :| 0 <= j < |after| && b in Readings(hash, after[j], k) && x != 0 && x < b;
      assert after[j] == run[n + 1 + j];
    }
  }

  /** The same for any clock: an item once looked at past its expiration is gone. */
  lemma ReadsExactly<K(!new), T(!new)>(
    m: map<K, Item<T>>, hash: K -> nat, run: seq<Event<K, T>>, n: nat, k: K, v: Option<T>, x: int, now: int)
    requires WrittenIn(m, hash, run, n, k, v, x)
    ensures AnswerAfter(m, hash, run, Get(k, now)) ==
            Value(if (x == 0 || now <= x) && !Outlived(hash, run[n + 1..], k, x) then v else None)
  {
    AfterWrite(m, hash, run, n, k, v, x);
  }

  /** Writing and deleting after a write: they go by whether the item was looked at past its expiration. */
  lemma WritesGoByPresence<K(!new), T(!new)>(
    m: map<K, Item<T>>, hash: K -> nat, run: seq<Event<K, T>>, n: nat, k: K, v: Option<T>, x: int, item: Item<T>)
    requires WrittenIn(m, hash, run, n, k, v, x)
    ensures var gone := Outlived(hash, run[n + 1..], k, x);
            && AnswerAfter(m, hash, run, Set(k, item, WriteAlways)) == Count(1)
            && AnswerAfter(m, hash, run, Set(k, item, OnlyIfSet)) == Count(if gone then 0 else 1)
            && AnswerAfter(m, hash, run, Set(k, item, OnlyIfNotSet)) == Count(if gone then 1 else 0)
            && AnswerAfter(m, hash, run, Del(k)) == Count(if gone then 0 else 1)
  {
    AfterWrite(m, hash, run, n, k, v, x);
  }

  /** What every operation answers for a key that is not there. */
  ghost predicate AnsweredAsAbsent<K(!new), T(!new)>(m: map<K, Item<T>>, hash: K -> nat, run: seq<Event<K, T>>, k: K) {
    && (forall now :: AnswerAfter(m, hash, run, Get(k, now)) == Value(None))
    && (forall item :: AnswerAfter(m, hash, run, Set(k, item, WriteAlways)) == Count(1))
    && (forall item :: AnswerAfter(m, hash, run, Set(k, item, OnlyIfSet)) == Count(0))
    && (forall item :: AnswerAfter(m, hash, run, Set(k, item, OnlyIfNotSet)) == Count(1))
    && AnswerAfter(m, hash, run, Del(k)) == Count(0)
  }

  /** A key never written to an empty cache, or neither written since it was deleted or flushed, is not there. */
  lemma AbsentUntilWritten<K(!new), T(!new)>(hash: K -> nat, run: seq<Event<K, T>>, n: nat, k: K)
    requires n <= |run| && AllSpare(hash, run[n..], k)
    requires n > 0 ==> !Spares(hash, run[n - 1], k) && !run[n - 1].Set?
    ensures AnsweredAsAbsent(map[], hash, run, k)
  {
    var before, after := run[..n], run[n..];
    assert run == before + after;
    FlatAfterConcat(map[], hash, before, after);
    if n > 0 {
      assert before == before[..n - 1] + [run[n - 1]];
      FlatAfterConcat(map[], hash, before[..n - 1], [run[n - 1]]);
      assert [run[n - 1]][1..] == [];
      assert k !in FlatAfter(map[], hash, before);
    }
    KeptUntilOutlived(FlatAfter(map[], hash, before), hash, after, k);
  }

  /** A write is refused or it takes effect; a refused one changes nothing. */
  lemma RefusedWriteChangesNothing<K(!new), T(!new)>(
    m: map<K, Item<T>>, hash: K -> nat, run: seq<Event<K, T>>, k: K, item: Item<T>, mode: WriteMode)
    ensures var e := Set(k, item, mode);
            && (AnswerAfter(m, hash, run, e) == Count(1)
                || (AnswerAfter(m, hash, run, e) == Count(0) && FlatAfter(m, hash, run + [e]) == FlatAfter(m, hash, run)))
  {
    var e := Set(k, item, mode);
    FlatAfterConcat(m, hash, run, [e]);
    assert [e][1..] == [];
  }

  /** The sharded cache, in every interleaving, answers by these laws. */
  lemma ShardsAnswerAlike<K(!new), T(!new)>(w: World<K, T>, hash: K -> nat, run: seq<Event<K, T>>, e: Event<K, T>)
    requires Inv(w, hash) && Possible(w, hash, run) && Enabled(After(w, hash, run), hash, e)
    ensures ShardReply(After(w, hash, run), hash, e) == AnswerAfter(Flatten(w.shards), hash, run, e)
  {
    RunRefines(w, hash, run);
    RunKeepsInv(w, hash, run);
    StepRefines(After(w, hash, run), hash, e);
  }
}
