/**
 The blocking object pool of src/broker_impl/pool.h: a mutex, a condition variable, and a vector
 popped at the back and refilled at the front.
 */
module Pool {
  import opened Wrappers

  function Reversed<O>(s: seq<O>): (r: seq<O>)
    ensures |r| == |s|
  {
    if s == [] then [] else [s[|s| - 1]] + Reversed(s[..|s| - 1])
  }

  lemma {:induction false} ReversedCons<O>(o: O, s: seq<O>)
    ensures Reversed([o] + s) == Reversed(s) + [o]
  {
    if s != [] {
      var n := |s| - 1;
      ReversedCons(o, s[..n]);
      assert ([o] + s)[..|s|] == [o] + s[..n];
      assert ([o] + s)[|s|] == s[n];
    }
  }

  lemma {:induction false} ReversedAt<O>(s: seq<O>, k: nat)
    requires k < |s|
    ensures Reversed(s)[k] == s[|s| - 1 - k]
  {
    if k > 0 { ReversedAt(s[..|s| - 1], k - 1); }
  }

  /** The objects the factory makes for the indices below `n`. */
  function Made<O>(n: nat, factory: nat -> O): (r: seq<O>)
    ensures |r| == n
  {
    if n == 0 then [] else Made(n - 1, factory) + [factory(n - 1)]
  }

  /** The factory is asked for the objects 0, 1, 2 and so on, and they are kept in that order. */
  lemma {:induction false} MadeAt<O>(n: nat, factory: nat -> O, k: nat)
    requires k < n
    ensures Made(n, factory)[k] == factory(k)
  {
    if k < n - 1 { MadeAt(n - 1, factory, k); }
  }

  // ---- the object under its lock ------------------------------------------------------------

  class Pool<O(!new)> {
    const size: nat
    const factory: nat -> O
    var available: seq<O>

    // History: what acquire has returned and release has taken back, in order.
    ghost var acquired: seq<O>
    ghost var released: seq<O>

    /** What acquire will hand out, from the beginning of time: last made first, then as released. */
    ghost function Schedule(): seq<O>
      reads this
    {
      Reversed(Made(size, factory)) + released
    }

    ghost predicate Valid()
      reads this
    {
      acquired + Reversed(available) == Schedule()
    }

    constructor (size: nat, factory: nat -> O)
      ensures Valid() && this.size == size && this.factory == factory
      ensures acquired == [] && released == [] && available == Made(size, factory)
    {
      this.size, this.factory := size, factory;
      available, acquired, released := [], [], [];
      new;
      Fill();
      assert acquired + Reversed(available) == Reversed(available);
      assert Schedule() == Reversed(Made(size, factory));
    }

    method Fill()
      requires available == []
      modifies this`available
      ensures available == Made(size, factory)
    {
      for i := 0 to size
        invariant available == Made(i, factory)
      {
        available := available + [factory(i)];
      }
    }

    /** One round of acquire's loop with the lock held: an object, or nothing and the caller waits. */
    method TryAcquire() returns (r: Option<O>)
      requires Valid()
      modifies this`available, this`acquired
      ensures Valid()
      ensures r.None? <==> old(available) == []
      ensures r.None? ==> acquired == old(acquired) && available == old(available)
      ensures r.Some? ==>
                && acquired == old(acquired) + [r.value] && available == old(available)[..|old(available)| - 1]
                && |old(acquired)| < |Schedule()| && r.value == Schedule()[|old(acquired)|]
    {
      if available == [] { return None; }
      var n := |available| - 1;
      var last := available[n];
      assert Reversed(available) == [last] + Reversed(available[..n]);
      available := available[..n];
      acquired := acquired + [last];
      assert acquired + Reversed(available) == old(acquired) + old(Reversed(available));
      return Some(last);
    }

    method Release(o: O)
      requires Valid()
      modifies this`available, this`released
      ensures Valid()
      ensures released == old(released) + [o] && available == [o] + old(available)
    {
      ghost var queue, schedule := Reversed(available), Schedule();
      ReversedCons(o, available);
      available := [o] + available;
      released := released + [o];
      assert acquired + (queue + [o]) == (acquired + queue) + [o];
      assert Schedule() == schedule + [o];
    }

    method GetAvailable() returns (n: nat)
      requires Valid()
      ensures n == size + |released| - |acquired|
    {
      n := |available|;
      assert |acquired + Reversed(available)| == |Schedule()|;
    }
  }

  // ---- threads --------------------------------------------------------------------------------

  /** Where a thread stands. The stages from Checking to Leaving run with the lock held. */
  datatype Stage<O> =
    | Idle
    | WantTake | Checking | Asleep | Woken | Took(item: O)
    | WantGive(item: O) | Inserting(item: O) | Notifying | Leaving

  datatype System<O> = System(
    filled: seq<O>,
    available: seq<O>,
    lock: Option<nat>,
    stages: seq<Stage<O>>,    // one per thread
    acquired: seq<O>,
    released: seq<O>,
    held: multiset<O>)        // handed out, not yet offered back

  datatype Event<O> =
    | BeginAcquire | LockTake | Wait | Take | LeaveTake | SpuriousWake
    | BeginRelease(item: O) | LockGive | Insert | NotifyAll | LeaveGive

  predicate Enabled<O>(s: System<O>, t: nat, e: Event<O>) {
    t < |s.stages| && Allows(s, s.stages[t], e)
  }

  predicate Allows<O>(s: System<O>, p: Stage<O>, e: Event<O>) {
    match e
    case BeginAcquire => p.Idle?
    case LockTake => (p.WantTake? || p.Woken?) && s.lock.None?
    case Wait => p.Checking? && s.available == []
    case Take => p.Checking? && s.available != []
    case LeaveTake => p.Took?
    case SpuriousWake => p.Asleep?
    case BeginRelease(_) => p.Idle?
    case LockGive => p.WantGive? && s.lock.None?
    case Insert => p.Inserting?
    case NotifyAll => p.Notifying?
    case LeaveGive => p.Leaving?
  }

  function At<O>(s: System<O>, t: nat, p: Stage<O>): System<O>
    requires t < |s.stages|
  {
    s.(stages := s.stages[t := p])
  }

  function WakeAll<O>(stages: seq<Stage<O>>): seq<Stage<O>> {
    seq(|stages|, t requires 0 <= t < |stages| => if stages[t].Asleep? then Woken else stages[t])
  }

  function Apply<O(==)>(s: System<O>, t: nat, e: Event<O>): System<O>
    requires Enabled(s, t, e)
  {
    match e
    case BeginAcquire => At(s, t, WantTake)
    case LockTake => At(s, t, Checking).(lock := Some(t))
    case Wait => At(s, t, Asleep).(lock := None)   // releases the lock and sleeps in one step
    case Take =>
      var n := |s.available| - 1;
      var o := s.available[n];
      At(s, t, Took(o)).(available := s.available[..n], acquired := s.acquired + [o], held := s.held + multiset{o})
    case LeaveTake => At(s, t, Idle).(lock := None)
    case SpuriousWake => At(s, t, Woken)
    case BeginRelease(o) =>
      At(s, t, WantGive(o)).(held := s.held - multiset{o})
    case LockGive => At(s, t, Inserting(s.stages[t].item)).(lock := Some(t))
    case Insert =>
      var o := s.stages[t].item;
      At(s, t, Notifying).(available := [o] + s.available, released := s.released + [o])
    case NotifyAll => At(s.(stages := WakeAll(s.stages)), t, Leaving)
    case LeaveGive => At(s, t, Idle).(lock := None)
  }

  predicate Initial<O>(s: System<O>) {
    && s.available == s.filled && s.lock.None?
    && (forall t :: 0 <= t < |s.stages| ==> s.stages[t].Idle?)
    && s.acquired == [] && s.released == []
    && s.held == multiset{}
  }

  predicate InLock<O>(p: Stage<O>) {
    p.Checking? || p.Took? || p.Inserting? || p.Notifying? || p.Leaving?
  }

  /** The lock belongs to exactly the thread that is inside. */
  predicate LockInv<O>(s: System<O>) {
    && (forall t :: 0 <= t < |s.stages| && InLock(s.stages[t]) ==> s.lock == Some(t))
    && (s.lock.Some? ==> s.lock.value < |s.stages| && InLock(s.stages[s.lock.value]))
  }

  /** Sleepers and stock coexist only between an insertion and its notification. */
  predicate WakeInv<O>(s: System<O>) {
    (exists t :: 0 <= t < |s.stages| && s.stages[t].Asleep?) && s.available != [] ==>
      s.lock.Some? && s.lock.value < |s.stages| && s.stages[s.lock.value].Notifying?
  }

  predicate QueueInv<O(==)>(s: System<O>) {
    s.acquired + Reversed(s.available) == Reversed(s.filled) + s.released
  }

  predicate Inv<O(==)>(s: System<O>) {
    LockInv(s) && WakeInv(s) && QueueInv(s)
  }

  lemma StepKeepsLock<O>(s: System<O>, t: nat, e: Event<O>)
    requires LockInv(s) && Enabled(s, t, e)
    ensures LockInv(Apply(s, t, e))
  {
  }

  lemma StepKeepsWake<O>(s: System<O>, t: nat, e: Event<O>)
    requires LockInv(s) && WakeInv(s) && Enabled(s, t, e)
    ensures WakeInv(Apply(s, t, e))
  {
    var s' := Apply(s, t, e);
    forall u | 0 <= u < |s'.stages| && s'.stages[u].Asleep? && s'.available != []
      ensures s'.lock.Some? && s'.lock.value < |s'.stages| && s'.stages[s'.lock.value].Notifying?
    {
      if !e.Insert? && !e.NotifyAll? && !e.Wait? {
        assert s.stages[u].Asleep?;
        assert s.available != [];
        assert s.lock.Some? && s.lock.value < |s.stages| && s.stages[s.lock.value].Notifying?;
      }
    }
  }

  lemma StepKeepsQueue<O>(s: System<O>, t: nat, e: Event<O>)
    requires QueueInv(s) && Enabled(s, t, e)
    ensures QueueInv(Apply(s, t, e))
  {
    if e.Take? {
      TakeKeepsOrder(s.acquired, s.available);
    } else if e.Insert? {
      InsertKeepsOrder(s.acquired, s.available, s.stages[t].item);
      ConcatAssociates(Reversed(s.filled), s.released, [s.stages[t].item]);
    }
  }

  lemma TakeKeepsOrder<O>(acquired: seq<O>, available: seq<O>)
    requires available != []
    ensures var n := |available| - 1;
            (acquired + [available[n]]) + Reversed(available[..n]) == acquired + Reversed(available)
  {
    var n := |available| - 1;
    ConcatAssociates(acquired, [available[n]], Reversed(available[..n]));
  }

  lemma InsertKeepsOrder<O>(acquired: seq<O>, available: seq<O>, o: O)
    ensures acquired + Reversed([o] + available) == (acquired + Reversed(available)) + [o]
  {
    ReversedCons(o, available);
    ConcatAssociates(acquired, Reversed(available), [o]);
  }

  // ---- runs -----------------------------------------------------------------------------------

  datatype Move<O> = Move(thread: nat, event: Event<O>)

  ghost predicate Possible<O(!new)>(s: System<O>, ms: seq<Move<O>>)
    decreases |ms|
  {
    ms == [] || (Enabled(s, ms[0].thread, ms[0].event)
                 && Possible(Apply(s, ms[0].thread, ms[0].event), ms[1..]))
  }

  ghost function After<O(!new)>(s: System<O>, ms: seq<Move<O>>): System<O>
    requires Possible(s, ms)
    decreases |ms|
  {
    if ms == [] then s else After(Apply(s, ms[0].thread, ms[0].event), ms[1..])
  }

  lemma {:induction false} RunKeepsInv<O(!new)>(s: System<O>, ms: seq<Move<O>>)
    requires Inv(s) && Possible(s, ms)
    ensures Inv(After(s, ms)) && After(s, ms).filled == s.filled
    decreases |ms|
  {
    if ms != [] {
      StepKeepsLock(s, ms[0].thread, ms[0].event);
      StepKeepsWake(s, ms[0].thread, ms[0].event);
      StepKeepsQueue(s, ms[0].thread, ms[0].event);
      RunKeepsInv(Apply(s, ms[0].thread, ms[0].event), ms[1..]);
    }
  }

  /** No lost wake-up: with the lock free, a thread sleeps un-notified only if nothing is available. */
  lemma NoLostWakeUp<O(!new)>(s0: System<O>, ms: seq<Move<O>>, t: nat)
    requires Initial(s0) && Possible(s0, ms)
    requires After(s0, ms).lock.None? && t < |After(s0, ms).stages| && After(s0, ms).stages[t].Asleep?
    ensures After(s0, ms).available == []
  {
    InitialInv(s0);
    RunKeepsInv(s0, ms);
  }

  lemma InitialInv<O(!new)>(s: System<O>)
    requires Initial(s)
    ensures Inv(s)
  {
    assert s.acquired + Reversed(s.available) == Reversed(s.filled) + s.released;
  }

  /** Whatever is released, objects are handed out in the order of one queue. */
  lemma FirstInFirstOut<O(!new)>(s0: System<O>, ms: seq<Move<O>>)
    requires Initial(s0) && Possible(s0, ms)
    ensures var s := After(s0, ms); s.acquired <= Reversed(s0.filled) + s.released
  {
    InitialInv(s0);
    RunKeepsInv(s0, ms);
  }

  // ---- runs in which only held objects are released ----------------------------------------------

  ghost predicate Disciplined<O(!new)>(s: System<O>, ms: seq<Move<O>>)
    requires Possible(s, ms)
    decreases |ms|
  {
    ms == [] || ((ms[0].event.BeginRelease? ==> ms[0].event.item in s.held)
                 && Disciplined(Apply(s, ms[0].thread, ms[0].event), ms[1..]))
  }

  /** How often a thread is handing back `o` without having inserted it yet. */
  function InHand<O(==)>(p: Stage<O>, o: O): nat {
    if (p.WantGive? || p.Inserting?) && p.item == o then 1 else 0
  }

  function Returning<O(==)>(stages: seq<Stage<O>>, o: O): nat {
    if stages == [] then 0
    else Returning(stages[..|stages| - 1], o) + InHand(stages[|stages| - 1], o)
  }

  lemma {:induction false} ReturningUpdate<O>(stages: seq<Stage<O>>, t: nat, p: Stage<O>, o: O)
    requires t < |stages|
    ensures Returning(stages[t := p], o) == Returning(stages, o) - InHand(stages[t], o) + InHand(p, o)
  {
    var n := |stages| - 1;
    if t < n {
      ReturningUpdate(stages[..n], t, p, o);
      assert stages[t := p][..n] == stages[..n][t := p];
    } else {
      assert stages[t := p][..n] == stages[..n];
    }
  }

  lemma {:induction false} ReturningWakeAll<O>(stages: seq<Stage<O>>, o: O)
    ensures Returning(WakeAll(stages), o) == Returning(stages, o)
  {
    if stages != [] {
      var n := |stages| - 1;
      ReturningWakeAll(stages[..n], o);
      assert WakeAll(stages)[..n] == WakeAll(stages[..n]);
    }
  }

  /** Every `o` made is in the vector, held, or on its way back: none lost, none doubled. */
  predicate Accounted<O(==)>(s: System<O>, o: O) {
    multiset(s.available)[o] + s.held[o] + Returning(s.stages, o) == multiset(s.filled)[o]
  }

  lemma StageChange<O>(s: System<O>, t: nat, e: Event<O>, o: O)
    requires Enabled(s, t, e)
    ensures var s' := Apply(s, t, e);
            && t < |s'.stages|
            && Returning(s'.stages, o) == Returning(s.stages, o) - InHand(s.stages[t], o) + InHand(s'.stages[t], o)
  {
    var s' := Apply(s, t, e);
    if e.NotifyAll? {
      ReturningWakeAll(s.stages, o);
      ReturningUpdate(WakeAll(s.stages), t, Leaving, o);
    } else {
      ReturningUpdate(s.stages, t, s'.stages[t], o);
      assert s'.stages == s.stages[t := s'.stages[t]];
    }
  }

  lemma TakeAccounted<O>(s: System<O>, t: nat, o: O)
    requires Accounted(s, o) && Enabled(s, t, Take)
    ensures Accounted(Apply(s, t, Take), o)
  {
    StageChange(s, t, Take, o);
    var n := |s.available| - 1;
    assert s.available == s.available[..n] + [s.available[n]];
  }

  lemma InsertAccounted<O>(s: System<O>, t: nat, o: O)
    requires Accounted(s, o) && Enabled(s, t, Insert)
    ensures Accounted(Apply(s, t, Insert), o)
  {
    StageChange(s, t, Insert, o);
    assert multiset([s.stages[t].item] + s.available) == multiset{s.stages[t].item} + multiset(s.available);
  }

  lemma StepAccounted<O>(s: System<O>, t: nat, e: Event<O>, o: O)
    requires Accounted(s, o) && Enabled(s, t, e)
    requires e.BeginRelease? ==> e.item in s.held
    ensures Accounted(Apply(s, t, e), o)
  {
    if e.Take? {
      TakeAccounted(s, t, o);
    } else if e.Insert? {
      InsertAccounted(s, t, o);
    } else {
      var s' := Apply(s, t, e);
      StageChange(s, t, e, o);
      assert s'.available == s.available && s'.filled == s.filled;
    }
  }

  lemma {:induction false} RunAccounted<O(!new)>(s: System<O>, ms: seq<Move<O>>, o: O)
    requires Accounted(s, o) && Possible(s, ms) && Disciplined(s, ms)
    ensures Accounted(After(s, ms), o) && After(s, ms).filled == s.filled
    decreases |ms|
  {
    if ms != [] {
      StepAccounted(s, ms[0].thread, ms[0].event, o);
      RunAccounted(Apply(s, ms[0].thread, ms[0].event), ms[1..], o);
    }
  }

  /** When only held objects are released, stock, held and returning objects are exactly those made. */
  lemma NothingLost<O(!new)>(s0: System<O>, ms: seq<Move<O>>, o: O)
    requires Initial(s0) && Possible(s0, ms) && Disciplined(s0, ms)
    ensures var s := After(s0, ms);
            multiset(s.available)[o] + s.held[o] + Returning(s.stages, o) == multiset(s0.filled)[o]
  {
    NoneReturning(s0.stages, o);
    RunAccounted(s0, ms, o);
  }

  /** If the factory made an object once, it is never held twice, nor held while in stock. */
  lemma NeverHeldTwice<O(!new)>(s0: System<O>, ms: seq<Move<O>>, o: O)
    requires Initial(s0) && Possible(s0, ms) && Disciplined(s0, ms)
    requires multiset(s0.filled)[o] <= 1
    ensures var s := After(s0, ms); s.held[o] + Returning(s.stages, o) + multiset(s.available)[o] <= 1
  {
    NothingLost(s0, ms, o);
  }

  /** A thread sleeps through a free lock only while every object made is out of the vector. */
  lemma SleeperMeansAllOut<O(!new)>(s0: System<O>, ms: seq<Move<O>>, t: nat, o: O)
    requires Initial(s0) && Possible(s0, ms) && Disciplined(s0, ms)
    requires After(s0, ms).lock.None? && t < |After(s0, ms).stages| && After(s0, ms).stages[t].Asleep?
    ensures var s := After(s0, ms); s.held[o] + Returning(s.stages, o) == multiset(s0.filled)[o]
  {
    NoLostWakeUp(s0, ms, t);
    NothingLost(s0, ms, o);
  }

  /** Nothing can move but by a caller starting something new or by a spurious wake-up. */
  ghost predicate Quiescent<O(!new)>(s: System<O>) {
    forall t, e :: Enabled(s, t, e) ==> e.BeginAcquire? || e.BeginRelease? || e.SpuriousWake?
  }

  /**
   No deadlock: when nothing can move, nobody has the lock, every call in progress is asleep in
   acquire, and if there is one then all objects made are in the hands of callers.
   */
  lemma QuietMeansWaitingForCallers<O(!new)>(s0: System<O>, ms: seq<Move<O>>)
    requires Initial(s0) && Possible(s0, ms) && Disciplined(s0, ms) && Quiescent(After(s0, ms))
    ensures var s := After(s0, ms);
            && s.lock.None?
            && (forall t :: 0 <= t < |s.stages| ==> s.stages[t].Idle? || s.stages[t].Asleep?)
            && ((exists t :: 0 <= t < |s.stages| && s.stages[t].Asleep?) ==> s.held == multiset(s0.filled))
  {
    InitialInv(s0);
    RunKeepsInv(s0, ms);
    var s := After(s0, ms);
    if s.lock.Some? {
      var t := s.lock.value;
      InsideCanMove(s, t);
      assert false;
    }
    forall t | 0 <= t < |s.stages|
      ensures s.stages[t].Idle? || s.stages[t].Asleep?
    {
      assert !Enabled(s, t, LockTake) && !Enabled(s, t, LockGive);
    }
    if exists t :: 0 <= t < |s.stages| && s.stages[t].Asleep? {
      var t :| 0 <= t < |s.stages| && s.stages[t].Asleep?;
      forall o: O
        ensures s.held[o] == multiset(s0.filled)[o]
      {
        SleeperMeansAllOut(s0, ms, t, o);
        NoneReturning(s.stages, o);
      }
    }
  }

  lemma InsideCanMove<O>(s: System<O>, t: nat)
    requires t < |s.stages| && InLock(s.stages[t])
    ensures exists e :: Enabled(s, t, e) && !e.BeginAcquire? && !e.BeginRelease? && !e.SpuriousWake?
  {
    var e: Event<O> := match s.stages[t]
      case Checking => if s.available == [] then Wait else Take
      case Took(_) => LeaveTake
      case Inserting(_) => Insert
      case Notifying => NotifyAll
      case _ => LeaveGive;
    assert Enabled(s, t, e);
  }

  lemma {:induction false} NoneReturning<O>(stages: seq<Stage<O>>, o: O)
    requires forall t :: 0 <= t < |stages| ==> stages[t].Idle? || stages[t].Asleep?
    ensures Returning(stages, o) == 0
  {
    if stages != [] { NoneReturning(stages[..|stages| - 1], o); }
  }
}
