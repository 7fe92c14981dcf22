/**
 Concurrent use of the cache: threads interleave at the granularity of one shard lock, and the
 whole-cache walks (metrics, flush, curator) take one shard at a time.
 */
module CacheRuns {
  import opened Wrappers
  import opened CacheModel

  /** What one critical section does. `id` of a walk names one call of `metrics` or `flush`. */
  datatype Event<K, T> =
    | Set(key: K, item: Item<T>, mode: WriteMode)
    | Get(key: K, now: int)
    | Del(key: K)
    | CullShard(shard: nat, clock: map<K, int>)
    | WalkBegin(id: nat, flushing: bool)
    | MetricsShard(id: nat, shard: nat)
    | FlushShard(id: nat, shard: nat)

  /**
   A call of `metrics` or `flush`: the next shard, the number to be returned, and the counters as
   they were when it began.
   */
  datatype Walk = Walk(flushing: bool, next: nat, total: nat, size0: nat, inserted0: nat, erased0: nat)

  datatype World<K, T> = World(
    shards: seq<map<K, Item<T>>>,
    inserted: nat,   // fresh keys written
    deleted: nat,    // erased by del
    lapsed: nat,     // erased by get on expiry
    culled: nat,     // erased by the curator
    flushed: nat,    // erased by flush
    walks: map<nat, Walk>)

  function Erased<K, T>(w: World<K, T>): nat {
    w.deleted + w.lapsed + w.culled + w.flushed
  }

  function Fresh<K(==), T>(m: map<K, Item<T>>, id: K, mode: WriteMode): nat {
    if id in m || Refused(m, id, mode) then 0 else 1
  }

  predicate Enabled<K(!new), T>(w: World<K, T>, hash: K -> nat, e: Event<K, T>) {
    match e
    case CullShard(i, clock) => i < |w.shards|
    case WalkBegin(id, _) => id !in w.walks
    case MetricsShard(id, i) => OnItsWay(w, id, i) && !w.walks[id].flushing
    case FlushShard(id, i) => OnItsWay(w, id, i) && w.walks[id].flushing
    case _ => true
  }

  /** Walk `id` takes the shards one after the other, and `i` is next. */
  predicate OnItsWay<K, T>(w: World<K, T>, id: nat, i: nat) {
    id in w.walks && i == w.walks[id].next < |w.shards|
  }

  function Replace<K, T>(w: World<K, T>, i: nat, s: map<K, Item<T>>): World<K, T>
    requires i < |w.shards|
  {
    w.(shards := w.shards[i := s])
  }

  function Apply<K(==, !new), T>(w: World<K, T>, hash: K -> nat, e: Event<K, T>): World<K, T>
    requires |w.shards| == SHARDS && Enabled(w, hash, e)
  {
    match e
    case Set(id, item, mode) =>
      var i := Index(hash, id);
      Replace(w, i, SetMap(w.shards[i], id, item, mode))
      .(inserted := w.inserted + Fresh(w.shards[i], id, mode))
    case Get(id, now) =>
      var i := Index(hash, id);
      Replace(w, i, GetMap(w.shards[i], id, now))
      .(lapsed := w.lapsed + if Lapsed(w.shards[i], id, now) then 1 else 0)
    case Del(id) =>
      var i := Index(hash, id);
      Replace(w, i, w.shards[i] - {id}).(deleted := w.deleted + DelCount(w.shards[i], id))
    case CullShard(i, clock) =>
      var kept := CullMap(w.shards[i], clock);
      CullSmaller(w.shards[i], clock);
      Replace(w, i, kept).(culled := w.culled + (|w.shards[i]| - |kept|))
    case WalkBegin(id, flushing) =>
      w.(walks := w.walks[id := Walk(flushing, 0, 0, SizeSum(w.shards), w.inserted, Erased(w))])
    case MetricsShard(id, i) => Counted(w, id, |w.shards[i]|)
    case FlushShard(id, i) => Counted(Emptied(w, i), id, |w.shards[i]|)
  }

  /** Walk `id` adds `n` to its total and goes on. */
  function Counted<K, T>(w: World<K, T>, id: nat, n: nat): World<K, T>
    requires id in w.walks
  {
    var k := w.walks[id];
    w.(walks := w.walks[id := k.(next := k.next + 1, total := k.total + n)])
  }

  function Emptied<K, T>(w: World<K, T>, i: nat): World<K, T>
    requires i < |w.shards|
  {
    Replace(w, i, map[]).(flushed := w.flushed + |w.shards[i]|)
  }

  lemma CullSmaller<K, T>(m: map<K, Item<T>>, clock: map<K, int>)
    ensures |CullMap(m, clock)| <= |m|
  {
    SubsetSize(CullMap(m, clock).Keys, m.Keys);
  }

  lemma {:induction false} SubsetSize<K>(a: set<K>, b: set<K>)
    requires a <= b
    ensures |a| <= |b|
  {
    if a != {} {
      var x :| x in a;
      SubsetSize(a - {x}, b - {x});
    }
  }

  // ---- the size of a range of shards -----------------------------------------------------

  /** Entries in the shards a walk has still to visit. */
  function Ahead<K(==), T>(shards: seq<map<K, Item<T>>>, from: nat): nat
    requires from <= |shards|
    decreases |shards| - from
  {
    if from == |shards| then 0 else |shards[from]| + Ahead(shards, from + 1)
  }

  lemma {:induction false} AheadUpdate<K, T>(shards: seq<map<K, Item<T>>>, from: nat, i: nat, s: map<K, Item<T>>)
    requires from <= |shards| && i < |shards|
    ensures Ahead(shards[i := s], from) ==
            if i < from then Ahead(shards, from) else Ahead(shards, from) - |shards[i]| + |s|
    decreases |shards| - from
  {
    if from < |shards| { AheadUpdate(shards, from + 1, i, s); }
  }

  lemma {:induction false} AheadIsRest<K, T>(shards: seq<map<K, Item<T>>>, from: nat)
    requires from <= |shards|
    ensures SizeSum(shards[..from]) + Ahead(shards, from) == SizeSum(shards)
    decreases |shards| - from
  {
    if from < |shards| {
      AheadIsRest(shards, from + 1);
      assert shards[..from + 1][..from] == shards[..from];
    } else {
      assert shards[..from] == shards;
    }
  }

  // ---- the invariant ------------------------------------------------------------------------

  /** Every fresh insert is still there or was erased by exactly one of the four ways. */
  predicate Conserved<K(==), T>(w: World<K, T>) {
    w.inserted == SizeSum(w.shards) + Erased(w)
  }

  /** What was erased since walk `k` began, except by itself. */
  function ErasedByOthers<K, T>(w: World<K, T>, k: Walk): int {
    Erased(w) - k.erased0 - if k.flushing then k.total else 0
  }

  predicate WalkBounded<K(==), T>(w: World<K, T>, k: Walk) {
    && k.next <= |w.shards|
    && k.inserted0 <= w.inserted && ErasedByOthers(w, k) >= 0
    && k.total + Ahead(w.shards, k.next) + ErasedByOthers(w, k) >= k.size0
    && k.total + Ahead(w.shards, k.next) <= k.size0 + (w.inserted - k.inserted0)
  }

  ghost predicate Inv<K(!new), T(!new)>(w: World<K, T>, hash: K -> nat) {
    && |w.shards| == SHARDS && Placed(w.shards, hash)
    && Conserved(w)
    && forall id :: id in w.walks ==> WalkBounded(w, w.walks[id])
  }

  /** A cache just constructed, with no call in progress. */
  predicate Initial<K(==), T>(w: World<K, T>) {
    && |w.shards| == SHARDS
    && (forall i :: 0 <= i < |w.shards| ==> |w.shards[i]| == 0)
    && w.inserted == 0 && Erased(w) == 0 && |w.walks| == 0
  }

  /** A change of one shard moves every bound by what the shard lost and gained. */
  lemma ShardChange<K(!new), T(!new)>(w: World<K, T>, w': World<K, T>, hash: K -> nat, i: nat, s: map<K, Item<T>>)
    requires Inv(w, hash) && i < SHARDS
    requires w'.shards == w.shards[i := s] && w'.walks == w.walks
    requires forall k :: k in s ==> Index(hash, k) == i
    requires w.inserted <= w'.inserted && Erased(w) <= Erased(w')
    requires |s| - |w.shards[i]| == (w'.inserted - w.inserted) - (Erased(w') - Erased(w))
    requires w'.inserted == w.inserted || Erased(w') == Erased(w)
    ensures Inv(w', hash)
  {
    SizeSumUpdate(w.shards, i, s);
    forall id | id in w'.walks
      ensures WalkBounded(w', w'.walks[id])
    {
      assert WalkBounded(w, w.walks[id]);
      AheadUpdate(w.shards, w.walks[id].next, i, s);
    }
  }

  lemma MinusOne<K, T>(m: map<K, Item<T>>, id: K)
    ensures |m - {id}| == |m| - DelCount(m, id)
  {
    assert (m - {id}).Keys == m.Keys - {id};
  }

  lemma SetSize<K, T>(m: map<K, Item<T>>, id: K, item: Item<T>, mode: WriteMode)
    ensures |SetMap(m, id, item, mode)| == |m| + Fresh(m, id, mode)
  {
    assert m[id := item].Keys == m.Keys + {id};
  }

  lemma SetKeepsInv<K(!new), T(!new)>(w: World<K, T>, hash: K -> nat, e: Event<K, T>)
    requires Inv(w, hash) && e.Set?
    ensures Inv(Apply(w, hash, e), hash)
  {
    var i := Index(hash, e.key);
    SetSize(w.shards[i], e.key, e.item, e.mode);
    ShardChange(w, Apply(w, hash, e), hash, i, SetMap(w.shards[i], e.key, e.item, e.mode));
  }

  lemma GetKeepsInv<K(!new), T(!new)>(w: World<K, T>, hash: K -> nat, e: Event<K, T>)
    requires Inv(w, hash) && e.Get?
    ensures Inv(Apply(w, hash, e), hash)
  {
    var i := Index(hash, e.key);
    MinusOne(w.shards[i], e.key);
    ShardChange(w, Apply(w, hash, e), hash, i, GetMap(w.shards[i], e.key, e.now));
  }

  lemma DelKeepsInv<K(!new), T(!new)>(w: World<K, T>, hash: K -> nat, e: Event<K, T>)
    requires Inv(w, hash) && e.Del?
    ensures Inv(Apply(w, hash, e), hash)
  {
    var i := Index(hash, e.key);
    MinusOne(w.shards[i], e.key);
    ShardChange(w, Apply(w, hash, e), hash, i, w.shards[i] - {e.key});
  }

  lemma CullKeepsInv<K(!new), T(!new)>(w: World<K, T>, hash: K -> nat, e: Event<K, T>)
    requires Inv(w, hash) && Enabled(w, hash, e) && e.CullShard?
    ensures Inv(Apply(w, hash, e), hash)
  {
    CullSmaller(w.shards[e.shard], e.clock);
    ShardChange(w, Apply(w, hash, e), hash, e.shard, CullMap(w.shards[e.shard], e.clock));
  }

  lemma FlushKeepsInv<K(!new), T(!new)>(w: World<K, T>, hash: K -> nat, e: Event<K, T>)
    requires Inv(w, hash) && Enabled(w, hash, e) && e.FlushShard?
    ensures Inv(Apply(w, hash, e), hash)
  {
    var v := Emptied(w, e.shard);
    ShardChange(w, v, hash, e.shard, map[]);
    CountedKeepsInv(w, v, hash, e.id, e.shard);
  }

  /** The flushing walk counts what it has just erased. */
  lemma CountedKeepsInv<K(!new), T(!new)>(w: World<K, T>, v: World<K, T>, hash: K -> nat, id: nat, i: nat)
    requires Inv(w, hash) && OnItsWay(w, id, i) && w.walks[id].flushing
    requires v == Emptied(w, i) && Inv(v, hash)
    ensures Inv(Counted(v, id, |w.shards[i]|), hash)
  {
    var w' := Counted(v, id, |w.shards[i]|);
    assert WalkBounded(w, w.walks[id]);
    AheadUpdate(w.shards, i, i, map[]);
    assert WalkBounded(w', w'.walks[id]);
    forall j | j in w'.walks && j != id
      ensures WalkBounded(w', w'.walks[j])
    {
      assert WalkBounded(v, v.walks[j]);
    }
  }

  lemma WalkKeepsInv<K(!new), T(!new)>(w: World<K, T>, hash: K -> nat, e: Event<K, T>)
    requires Inv(w, hash) && Enabled(w, hash, e) && (e.WalkBegin? || e.MetricsShard?)
    ensures Inv(Apply(w, hash, e), hash)
  {
    var w' := Apply(w, hash, e);
    AheadIsRest(w.shards, 0);
    forall j | j in w'.walks
      ensures WalkBounded(w', w'.walks[j])
    {
      if !(e.WalkBegin? && j == e.id) { assert WalkBounded(w, w.walks[j]); }
    }
  }

  lemma StepKeepsInv<K(!new), T(!new)>(w: World<K, T>, hash: K -> nat, e: Event<K, T>)
    requires Inv(w, hash) && Enabled(w, hash, e)
    ensures Inv(Apply(w, hash, e), hash)
  {
    match e
    case Set(_, _, _) => SetKeepsInv(w, hash, e);
    case Get(_, _) => GetKeepsInv(w, hash, e);
    case Del(_) => DelKeepsInv(w, hash, e);
    case CullShard(_, _) => CullKeepsInv(w, hash, e);
    case WalkBegin(_, _) => WalkKeepsInv(w, hash, e);
    case MetricsShard(_, _) => WalkKeepsInv(w, hash, e);
    case FlushShard(_, _) => FlushKeepsInv(w, hash, e);
  }

  // ---- whole runs -------------------------------------------------------------------------

  ghost predicate Possible<K(!new), T(!new)>(w: World<K, T>, hash: K -> nat, es: seq<Event<K, T>>)
    requires |w.shards| == SHARDS
    decreases |es|
  {
    es == [] || (Enabled(w, hash, es[0]) && Possible(Apply(w, hash, es[0]), hash, es[1..]))
  }

  ghost function After<K(!new), T(!new)>(w: World<K, T>, hash: K -> nat, es: seq<Event<K, T>>): (r: World<K, T>)
    requires |w.shards| == SHARDS && Possible(w, hash, es)
    ensures |r.shards| == SHARDS
    decreases |es|
  {
    if es == [] then w else After(Apply(w, hash, es[0]), hash, es[1..])
  }

  lemma {:induction false} RunKeepsInv<K(!new), T(!new)>(w: World<K, T>, hash: K -> nat, es: seq<Event<K, T>>)
    requires Inv(w, hash) && Possible(w, hash, es)
    ensures Inv(After(w, hash, es), hash)
    decreases |es|
  {
    if es != [] {
      StepKeepsInv(w, hash, es[0]);
      RunKeepsInv(Apply(w, hash, es[0]), hash, es[1..]);
    }
  }

  lemma {:induction false} EmptySize<K, T>(shards: seq<map<K, Item<T>>>)
    requires forall i :: 0 <= i < |shards| ==> |shards[i]| == 0
    ensures SizeSum(shards) == 0
  {
    if shards != [] { EmptySize(shards[..|shards| - 1]); }
  }

  /** A finished walk is off by no more than what others did while it ran. */
  predicate Accurate<K, T>(w: World<K, T>, k: Walk) {
    k.next == SHARDS ==>
      k.size0 - ErasedByOthers(w, k) <= k.total <= k.size0 + (w.inserted - k.inserted0)
  }

  lemma InvCounts<K(!new), T(!new)>(w: World<K, T>, hash: K -> nat)
    requires Inv(w, hash)
    ensures w.inserted == |Flatten(w.shards)| + w.deleted + w.lapsed + w.culled + w.flushed
    ensures forall id :: id in w.walks ==> Accurate(w, w.walks[id])
  {
    FlattenSize(w.shards, hash);
    forall id | id in w.walks
      ensures Accurate(w, w.walks[id])
    {
      assert WalkBounded(w, w.walks[id]);
    }
  }

  lemma InitialInv<K(!new), T(!new)>(w: World<K, T>, hash: K -> nat)
    requires Initial(w)
    ensures Inv(w, hash)
  {
    EmptySize(w.shards);
    assert w.walks == map[];
    forall i | 0 <= i < |w.shards| ensures w.shards[i] == map[] { assert w.shards[i].Keys == {}; }
  }

  /**
   Conservation and the accuracy of `metrics` and `flush`, in every interleaving from an empty cache:
   a finished call returns at least its starting size less the erasures that others made meanwhile,
   and at most that size plus the fresh inserts made meanwhile.
   */
  lemma CountsHold<K(!new), T(!new)>(w0: World<K, T>, hash: K -> nat, es: seq<Event<K, T>>)
    requires Initial(w0) && Possible(w0, hash, es)
    ensures var w := After(w0, hash, es);
            && w.inserted == |Flatten(w.shards)| + w.deleted + w.lapsed + w.culled + w.flushed
            && forall id :: id in w.walks ==> Accurate(w, w.walks[id])
  {
    InitialInv(w0, hash);
    RunKeepsInv(w0, hash, es);
    InvCounts(After(w0, hash, es), hash);
  }

  // ---- the shards refine one flat map, in every run -----------------------------------------

  /** The same event on one plain map. */
  ghost function FlatApply<K(!new), T(!new)>(m: map<K, Item<T>>, hash: K -> nat, e: Event<K, T>): map<K, Item<T>> {
    match e
    case Set(id, item, mode) => SetMap(m, id, item, mode)
    case Get(id, now) => GetMap(m, id, now)
    case Del(id) => m - {id}
    case FlushShard(_, i) => map k | k in m && Index(hash, k) != i :: m[k]
    case CullShard(i, clock) => map k | k in m && !(Index(hash, k) == i && k in clock && Expired(m[k], clock[k])) :: m[k]
    case _ => m
  }

  datatype Answer<T> = Count(n: nat) | Value(v: Option<T>) | Silent

  /** The entries of a map whose keys belong to shard `i`. */
  ghost function Part<K(!new), T(!new)>(m: map<K, Item<T>>, hash: K -> nat, i: nat): map<K, Item<T>> {
    map k | k in m && Index(hash, k) == i :: m[k]
  }

  /** What an operation on one flat map answers; a walk counts the entries of one shard at a time. */
  ghost function Reply<K(!new), T(!new)>(m: map<K, Item<T>>, hash: K -> nat, e: Event<K, T>): Answer<T> {
    match e
    case Set(id, _, mode) => Count(SetCount(m, id, mode))
    case Get(id, now) => Value(Found(m, id, now))
    case Del(id) => Count(DelCount(m, id))
    case MetricsShard(_, i) => Count(|Part(m, hash, i)|)
    case FlushShard(_, i) => Count(|Part(m, hash, i)|)
    case _ => Silent
  }

  function ShardReply<K(==, !new), T>(w: World<K, T>, hash: K -> nat, e: Event<K, T>): Answer<T>
    requires |w.shards| == SHARDS && Enabled(w, hash, e)
  {
    match e
    case Set(id, _, mode) => Count(SetCount(w.shards[Index(hash, id)], id, mode))
    case Get(id, now) => Value(Found(w.shards[Index(hash, id)], id, now))
    case Del(id) => Count(DelCount(w.shards[Index(hash, id)], id))
    case MetricsShard(_, i) => Count(|w.shards[i]|)
    case FlushShard(_, i) => Count(|w.shards[i]|)
    case _ => Silent
  }

  ghost function ShardReplies<K(!new), T(!new)>(w: World<K, T>, hash: K -> nat, es: seq<Event<K, T>>): seq<Answer<T>>
    requires |w.shards| == SHARDS && Possible(w, hash, es)
    decreases |es|
  {
    if es == [] then [] else [ShardReply(w, hash, es[0])] + ShardReplies(Apply(w, hash, es[0]), hash, es[1..])
  }

  ghost function FlatAfter<K(!new), T(!new)>(m: map<K, Item<T>>, hash: K -> nat, es: seq<Event<K, T>>): map<K, Item<T>>
    decreases |es|
  {
    if es == [] then m else FlatAfter(FlatApply(m, hash, es[0]), hash, es[1..])
  }

  ghost function FlatReplies<K(!new), T(!new)>(m: map<K, Item<T>>, hash: K -> nat, es: seq<Event<K, T>>): seq<Answer<T>>
    decreases |es|
  {
    if es == [] then [] else [Reply(m, hash, es[0])] + FlatReplies(FlatApply(m, hash, es[0]), hash, es[1..])
  }

  /** One event does and answers on the shards what it does and answers on the flat map. */
  ghost predicate Agrees<K(!new), T(!new)>(w: World<K, T>, hash: K -> nat, e: Event<K, T>)
    requires |w.shards| == SHARDS && Enabled(w, hash, e)
  {
    && Flatten(Apply(w, hash, e).shards) == FlatApply(Flatten(w.shards), hash, e)
    && ShardReply(w, hash, e) == Reply(Flatten(w.shards), hash, e)
  }

  lemma PartIsShard<K(!new), T(!new)>(w: World<K, T>, hash: K -> nat, i: nat)
    requires Inv(w, hash) && i < SHARDS
    ensures Part(Flatten(w.shards), hash, i) == w.shards[i]
  {
    ShardKeys(w, hash);
  }

  lemma CullStepRefines<K(!new), T(!new)>(w: World<K, T>, hash: K -> nat, e: Event<K, T>)
    requires Inv(w, hash) && Enabled(w, hash, e) && e.CullShard?
    ensures Agrees(w, hash, e)
  {
    ShardKeys(w, hash);
    FlattenUpdate(w.shards, hash, e.shard, CullMap(w.shards[e.shard], e.clock), FlatApply(Flatten(w.shards), hash, e));
  }

  lemma FlushStepRefines<K(!new), T(!new)>(w: World<K, T>, hash: K -> nat, e: Event<K, T>)
    requires Inv(w, hash) && Enabled(w, hash, e) && e.FlushShard?
    ensures Agrees(w, hash, e)
  {
    ShardKeys(w, hash);
    PartIsShard(w, hash, e.shard);
    FlattenUpdate(w.shards, hash, e.shard, map[], FlatApply(Flatten(w.shards), hash, e));
  }

  lemma SetStepRefines<K(!new), T(!new)>(w: World<K, T>, hash: K -> nat, e: Event<K, T>)
    requires Inv(w, hash) && e.Set?
    ensures Agrees(w, hash, e)
  {
    SetRefines(w.shards, hash, e.key, e.item, e.mode);
  }

  lemma GetStepRefines<K(!new), T(!new)>(w: World<K, T>, hash: K -> nat, e: Event<K, T>)
    requires Inv(w, hash) && e.Get?
    ensures Agrees(w, hash, e)
  {
    GetRefines(w.shards, hash, e.key, e.now);
  }

  lemma DelStepRefines<K(!new), T(!new)>(w: World<K, T>, hash: K -> nat, e: Event<K, T>)
    requires Inv(w, hash) && e.Del?
    ensures Agrees(w, hash, e)
  {
    DelRefines(w.shards, hash, e.key);
  }

  lemma StepRefines<K(!new), T(!new)>(w: World<K, T>, hash: K -> nat, e: Event<K, T>)
    requires Inv(w, hash) && Enabled(w, hash, e)
    ensures Agrees(w, hash, e)
  {
    match e
    case Set(_, _, _) => SetStepRefines(w, hash, e);
    case Get(_, _) => GetStepRefines(w, hash, e);
    case Del(_) => DelStepRefines(w, hash, e);
    case CullShard(_, _) => CullStepRefines(w, hash, e);
    case WalkBegin(_, _) => WalkStepRefines(w, hash, e);
    case MetricsShard(_, _) => WalkStepRefines(w, hash, e);
    case FlushShard(_, _) => FlushStepRefines(w, hash, e);
  }

  lemma WalkStepRefines<K(!new), T(!new)>(w: World<K, T>, hash: K -> nat, e: Event<K, T>)
    requires Inv(w, hash) && Enabled(w, hash, e) && (e.WalkBegin? || e.MetricsShard?)
    ensures Agrees(w, hash, e)
  {
    assert Apply(w, hash, e).shards == w.shards;
    if e.MetricsShard? { PartIsShard(w, hash, e.shard); }
  }

  lemma ShardKeys<K(!new), T(!new)>(w: World<K, T>, hash: K -> nat)
    requires Inv(w, hash)
    ensures forall k :: k in Flatten(w.shards) <==> k in w.shards[Index(hash, k)]
    ensures forall k :: k in Flatten(w.shards) ==> Flatten(w.shards)[k] == w.shards[Index(hash, k)][k]
  {
    forall k
      ensures k in Flatten(w.shards) <==> k in w.shards[Index(hash, k)]
      ensures k in Flatten(w.shards) ==> Flatten(w.shards)[k] == w.shards[Index(hash, k)][k]
    {
      FlattenAt(w.shards, hash, k);
    }
  }

  /** In every interleaving the sharded cache answers and ends exactly as one flat map would. */
  lemma {:induction false} RunRefines<K(!new), T(!new)>(w: World<K, T>, hash: K -> nat, es: seq<Event<K, T>>)
    requires Inv(w, hash) && Possible(w, hash, es)
    ensures Flatten(After(w, hash, es).shards) == FlatAfter(Flatten(w.shards), hash, es)
    ensures ShardReplies(w, hash, es) == FlatReplies(Flatten(w.shards), hash, es)
    ensures Placed(After(w, hash, es).shards, hash)
    decreases |es|
  {
    if es != [] {
      StepKeepsInv(w, hash, es[0]);
      StepRefines(w, hash, es[0]);
      RunRefines(Apply(w, hash, es[0]), hash, es[1..]);
    }
  }

  // ---- what a walk returns ------------------------------------------------------------------

  /** What an event adds to walk `id`: the entries a metrics step sees, or those a flush step erases. */
  ghost function Contribution<K(!new), T(!new)>(m: map<K, Item<T>>, hash: K -> nat, e: Event<K, T>, id: nat): int {
    if e.MetricsShard? && e.id == id then |Part(m, hash, e.shard)|
    else if e.FlushShard? && e.id == id then |m| - |FlatApply(m, hash, e)|
    else 0
  }

  ghost function Contributions<K(!new), T(!new)>(m: map<K, Item<T>>, hash: K -> nat, es: seq<Event<K, T>>, id: nat): int
    decreases |es|
  {
    if es == [] then 0
    else Contribution(m, hash, es[0], id) + Contributions(FlatApply(m, hash, es[0]), hash, es[1..], id)
  }

  lemma FlushSplits<K(!new), T(!new)>(m: map<K, Item<T>>, hash: K -> nat, e: Event<K, T>)
    requires e.FlushShard?
    ensures |m| == |Part(m, hash, e.shard)| + |FlatApply(m, hash, e)|
  {
    var a, b := Part(m, hash, e.shard), FlatApply(m, hash, e);
    assert a.Keys + b.Keys == m.Keys;
    assert a.Keys !! b.Keys;
    assert |a.Keys + b.Keys| == |a.Keys| + |b.Keys|;
  }

  lemma MetricsContributes<K(!new), T(!new)>(w: World<K, T>, hash: K -> nat, e: Event<K, T>, id: nat)
    requires Inv(w, hash) && Enabled(w, hash, e) && id in w.walks && e.MetricsShard?
    ensures id in Apply(w, hash, e).walks
    ensures Apply(w, hash, e).walks[id].total == w.walks[id].total + Contribution(Flatten(w.shards), hash, e, id)
  {
    PartIsShard(w, hash, e.shard);
  }

  lemma FlushContributes<K(!new), T(!new)>(w: World<K, T>, hash: K -> nat, e: Event<K, T>, id: nat)
    requires Inv(w, hash) && Enabled(w, hash, e) && id in w.walks && e.FlushShard?
    ensures id in Apply(w, hash, e).walks
    ensures Apply(w, hash, e).walks[id].total == w.walks[id].total + Contribution(Flatten(w.shards), hash, e, id)
  {
    PartIsShard(w, hash, e.shard);
    FlushSplits(Flatten(w.shards), hash, e);
  }

  lemma OtherWalksStand<K(!new), T(!new)>(w: World<K, T>, hash: K -> nat, e: Event<K, T>, id: nat)
    requires |w.shards| == SHARDS && Enabled(w, hash, e) && id in w.walks && !e.MetricsShard? && !e.FlushShard?
    ensures id in Apply(w, hash, e).walks && Apply(w, hash, e).walks[id] == w.walks[id]
  {
  }

  lemma StepContributes<K(!new), T(!new)>(w: World<K, T>, hash: K -> nat, e: Event<K, T>, id: nat)
    requires Inv(w, hash) && Enabled(w, hash, e) && id in w.walks
    ensures id in Apply(w, hash, e).walks
    ensures Apply(w, hash, e).walks[id].total == w.walks[id].total + Contribution(Flatten(w.shards), hash, e, id)
  {
    if e.MetricsShard? {
      MetricsContributes(w, hash, e, id);
    } else if e.FlushShard? {
      FlushContributes(w, hash, e, id);
    } else {
      OtherWalksStand(w, hash, e, id);
    }
  }

  /** A call returns what its own steps saw on the flat map: `flush`, exactly what they erased. */
  lemma {:induction false} WalkReturns<K(!new), T(!new)>(w: World<K, T>, hash: K -> nat, es: seq<Event<K, T>>, id: nat)
    requires Inv(w, hash) && Possible(w, hash, es) && id in w.walks
    ensures id in After(w, hash, es).walks
    ensures After(w, hash, es).walks[id].total == w.walks[id].total + Contributions(Flatten(w.shards), hash, es, id)
    decreases |es|
  {
    if es != [] {
      StepKeepsInv(w, hash, es[0]);
      StepRefines(w, hash, es[0]);
      StepContributes(w, hash, es[0], id);
      WalkReturns(Apply(w, hash, es[0]), hash, es[1..], id);
    }
  }
}
