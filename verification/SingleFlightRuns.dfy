/**
  What the single-flight protocol and the pool around it promise in every run
  (go/internal/orchestrator/single_flight.go, go/internal/orchestrator/pool.go).
 */
module SingleFlightRuns {
  import opened Wrappers
  import opened PoolSpec
  import PoolInvariant
  import Recency
  import opened SingleFlight

  // ----- mutual exclusion and delivery --------------------------------------------

  predicate RunsFor(s: State, t: nat, key: string) {
    At(s, t) && s.callers[t].InFn() && s.slots[s.callers[t].slot].key == key
  }

  /** The caller returned exactly what the one resume of a slot for its own key returned. */
  predicate Answered(s: State, t: nat) {
    At(s, t) && (s.callers[t].Returned? ==>
                   var slot := s.slots[s.callers[t].slot];
                   t in s.asked && slot.key == s.asked[t] && slot.calls == 1 && slot.resumed == Some(s.callers[t].r))
  }

  /** At most one function runs per key, and while it runs the key is marked with its slot. */
  lemma OneFnPerKey(s: State, t: nat, v: nat, key: string)
    requires Inv(s) && RunsFor(s, t, key) && RunsFor(s, v, key)
    ensures t == v
  {
    LeaderOwns(s, t);
    LeaderOwns(s, v);
  }

  /** A settled slot: its one resume has happened, and everybody who returned through it got its result. */
  lemma SettledSlot(s: State, i: nat)
    requires Inv(s) && i < |s.slots|
    ensures s.slots[i].calls <= 1
    ensures s.slots[i].result.Some? ==> s.slots[i].calls == 1 && s.slots[i].result == s.slots[i].resumed
    ensures s.slots[i].done ==> s.slots[i].result.Some?
    ensures forall t :: t in s.callers && s.callers[t].slot == i ==> t in s.asked && s.asked[t] == s.slots[i].key
    ensures forall t :: t in s.callers && s.callers[t].Returned? && s.callers[t].slot == i
                        ==> s.slots[i].resumed == Some(s.callers[t].r)
  {
    assert SlotOk(s, i);
    forall t | t in s.callers && s.callers[t].slot == i
      ensures t in s.asked && s.asked[t] == s.slots[i].key
      ensures s.callers[t].Returned? ==> s.slots[i].resumed == Some(s.callers[t].r)
    {
      assert CallerOk(s, t);
    }
  }

  /** A slot keeps its key, its leader, what its resume returned and, once stored, its result. */
  lemma SlotsAreMonotone(s: State, capacity: int, step: Step, i: nat)
    requires Inv(s) && Enabled(s, step) && i < |s.slots|
    ensures var s' := Next(s, capacity, step);
            && i < |s'.slots| && s'.slots[i].key == s.slots[i].key && s'.slots[i].leader == s.slots[i].leader
            && (s.slots[i].resumed.Some? ==> s'.slots[i].resumed == s.slots[i].resumed)
            && (s.slots[i].result.Some? ==> s'.slots[i].result == s.slots[i].result)
  {
    if step.Store? || step.Call? {
      LeaderOwns(s, step.t);
    }
  }

  /** A caller keeps its key, its slot and its answer. */
  lemma CallersAreMonotone(s: State, capacity: int, step: Step, t: nat)
    requires Inv(s) && Enabled(s, step) && t in s.callers
    ensures var s' := Next(s, capacity, step);
            && t in s'.callers && s'.callers[t].slot == s.callers[t].slot
            && t in s.asked && t in s'.asked && s'.asked[t] == s.asked[t]
            && (s.callers[t].Returned? ==> s'.callers[t] == s.callers[t])
  {
    assert CallerOk(s, t);
  }

  /** Whoever has not returned can move, or waits for a leader that can. */
  lemma NobodyIsStuck(s: State, t: nat)
    requires Inv(s) && t in s.callers && !s.callers[t].Returned?
    ensures var p := s.callers[t];
            p.slot < |s.slots| &&
            var mover := if p.Waiting? && !s.slots[p.slot].done then s.slots[p.slot].leader else t;
            exists step :: MovesCaller(step, mover) && Enabled(s, step)
  {
    var p := s.callers[t];
    assert CallerOk(s, t) && SlotOk(s, p.slot);
    var mover := if p.Waiting? && !s.slots[p.slot].done then s.slots[p.slot].leader else t;
    if p.Waiting? && s.slots[p.slot].done {
      assert MovesCaller(Await(t), mover) && Enabled(s, Await(t));
    } else {
      LeaderCanMove(s, mover);
    }
  }

  predicate MovesCaller(step: Step, t: nat) {
    match step
    case Call(v, _) => v == t
    case Touch(v) => v == t
    case Evict(v) => v == t
    case Hibernate(v) => v == t
    case Store(v) => v == t
    case Free(v) => v == t
    case Wake(v) => v == t
    case Await(v) => v == t
    case _ => false
  }

  lemma LeaderCanMove(s: State, t: nat)
    requires Inv(s) && t in s.callers && !s.callers[t].Waiting? && !s.callers[t].Returned?
    ensures exists step :: MovesCaller(step, t) && Enabled(s, step)
  {
    LeaderOwns(s, t);
    var step := match s.callers[t]
      case Calling(_) => Call(t, Ok(""))
      case Touching(_, _) => Touch(t)
      case Evicting(_, _) => Evict(t)
      case Hibernating(_, _, _) => Hibernate(t)
      case Storing(_, _) => Store(t)
      case Freeing(_) => Free(t)
      case _ => Wake(t);
    assert MovesCaller(step, t) && Enabled(s, step);
  }

  // ----- capacity -------------------------------------------------------------------

  /** Leaders that have touched the active set and not yet made their eviction pass. */
  ghost function Pending(s: State): set<nat> {
    set t | t in s.callers && s.callers[t].Evicting?
  }

  function Floor0(capacity: int): nat {
    if capacity < 0 then 0 else capacity
  }

  ghost predicate Bounded(s: State, capacity: int) {
    |s.lru| <= Floor0(capacity) + |Pending(s)| + s.allPinned
  }

  lemma EvictSectionBound(s: State, capacity: int)
    ensures var s' := EvictSection(s, capacity).0;
            && s'.callers == s.callers && s.allPinned <= s'.allPinned <= s.allPinned + 1
            && |s'.lru| <= |s.lru|
            && (|s'.lru| - s'.allPinned < |s.lru| - s.allPinned || |s'.lru| <= Floor0(capacity))
  {
  }

  lemma TouchKeepsBound(s: State, capacity: int, t: nat)
    requires Inv(s) && Enabled(s, Touch(t)) && Bounded(s, capacity)
    ensures Bounded(Next(s, capacity, Touch(t)), capacity)
  {
    WithoutUpToIsShorter(s.lru, s.slots[s.callers[t].slot].key, |s.lru|);
    assert Pending(Next(s, capacity, Touch(t))) == Pending(s) + {t};
  }

  lemma StepKeepsBound(s: State, capacity: int, step: Step)
    requires Inv(s) && Enabled(s, step) && Bounded(s, capacity)
    ensures Bounded(Next(s, capacity, step), capacity)
  {
    var s' := Next(s, capacity, step);
    match step {
      case Touch(t) =>
        TouchKeepsBound(s, capacity, t);
      case Evict(t) =>
        EvictSectionBound(s, capacity);
        assert Pending(s') == Pending(s) - {t};
      case OutsideEvict =>
        EvictSectionBound(s, capacity);
        assert Pending(s') == Pending(s);
      case Remove(u) =>
        WithoutUpToIsShorter(s.lru, u, |s.lru|);
        assert Pending(s') == Pending(s);
      case Renew(e) =>
        WithoutUpToIsShorter(s.lru, e.user, |s.lru|);
        assert Pending(s') == Pending(s);
      case _ =>
        assert Pending(s') == Pending(s);
    }
  }

  // ----- what is active --------------------------------------------------------------

  ghost predicate WasResumed(s: State, e: Entry) {
    exists i :: 0 <= i < |s.slots| && s.slots[i].key == e.user && s.slots[i].resumed == Some(Ok(e.id))
  }

  /** Every active entry is what some resume for its user returned. */
  ghost predicate AllResumed(s: State) {
    forall e :: e in s.lru ==> WasResumed(s, e)
  }

  lemma StaysResumed(s: State, capacity: int, step: Step, e: Entry)
    requires Inv(s) && Enabled(s, step) && WasResumed(s, e)
    ensures WasResumed(Next(s, capacity, step), e)
  {
    var i :| 0 <= i < |s.slots| && s.slots[i].key == e.user && s.slots[i].resumed == Some(Ok(e.id));
    SlotsAreMonotone(s, capacity, step, i);
  }

  /** A step adds to the active set at most the entry its leader's resume returned. */
  lemma OnlyResumedAdded(s: State, capacity: int, step: Step, e: Entry)
    requires Inv(s) && Enabled(s, step) && e in Next(s, capacity, step).lru
    ensures e in s.lru || WasResumed(s, e)
  {
    match step
    case Touch(t) =>
      LeaderOwns(s, t);
      PoolInvariant.WithoutKeeps(s.lru, s.slots[s.callers[t].slot].key);
    case Remove(u) => PoolInvariant.WithoutKeeps(s.lru, u);
    case Renew(x) => PoolInvariant.WithoutKeeps(s.lru, x.user);
    case _ =>
  }

  lemma StepKeepsResumed(s: State, capacity: int, step: Step)
    requires Inv(s) && Enabled(s, step) && AllResumed(s)
    ensures AllResumed(Next(s, capacity, step))
  {
    forall e | e in Next(s, capacity, step).lru
      ensures WasResumed(Next(s, capacity, step), e)
    {
      OnlyResumedAdded(s, capacity, step, e);
      StaysResumed(s, capacity, step, e);
    }
  }

  // ----- recency --------------------------------------------------------------------------

  /** A touch, a leader's or one from outside, puts the entry at the back, and the others keep their order. */
  lemma TouchIsRecent(s: State, capacity: int, step: Step)
    requires Inv(s) && Enabled(s, step)
    ensures step.Touch? ==>
              var p := s.callers[step.t];
              Recency.AtBack(s.lru, Entry(s.slots[p.slot].key, p.id), Next(s, capacity, step).lru)
    ensures step.Renew? ==> Recency.AtBack(s.lru, step.e, Next(s, capacity, step).lru)
  {
    if step.Touch? {
      Recency.MovesBack(s.lru, Entry(s.slots[s.callers[step.t].slot].key, s.callers[step.t].id));
    } else if step.Renew? {
      Recency.MovesBack(s.lru, step.e);
    }
  }

  /**
    The first entry that is not pinned goes, and is the one to be hibernated; nobody goes within
    capacity or when all are pinned.
   */
  lemma EvictTakesFirst(s: State, capacity: int, t: nat) returns (i: nat)
    requires Inv(s) && Enabled(s, Evict(t))
    ensures var s' := Next(s, capacity, Evict(t));
            && i <= |s.lru| && (forall j :: 0 <= j < i ==> s.lru[j].id in s.pinned)
            && if |s.lru| <= capacity || i == |s.lru| then s'.lru == s.lru && s'.callers[t].Storing?
               else && s.lru[i].id !in s.pinned && s'.lru == s.lru[..i] + s.lru[i + 1..]
                    && s'.callers[t].Hibernating? && s'.callers[t].victim == s.lru[i].id
  {
    i := VictimIndex(s.lru, s.pinned);
    PoolInvariant.VictimIndexIs(s.lru, s.pinned);
  }

  // ----- every run --------------------------------------------------------------------

  ghost predicate Leads(s: State, capacity: int, steps: seq<Step>, s': State)
    decreases |steps|
  {
    if |steps| == 0 then s == s'
    else Enabled(s, steps[0]) && Leads(Next(s, capacity, steps[0]), capacity, steps[1..], s')
  }

  predicate AllReturned(s: State) {
    forall t :: t in s.callers ==> s.callers[t].Returned?
  }

  lemma {:induction false} RunKeeps(s: State, capacity: int, steps: seq<Step>, s': State)
    requires Inv(s) && Bounded(s, capacity) && AllResumed(s) && Leads(s, capacity, steps, s')
    ensures Inv(s') && Bounded(s', capacity) && AllResumed(s')
    decreases |steps|
  {
    if |steps| > 0 {
      StepKeepsInv(s, capacity, steps[0]);
      StepKeepsBound(s, capacity, steps[0]);
      StepKeepsResumed(s, capacity, steps[0]);
      RunKeeps(Next(s, capacity, steps[0]), capacity, steps[1..], s');
    }
  }

  /**
    In every reachable state: one function per key, one resume per slot, every caller that
    returned got what the one resume for its own key returned, every active entry is what a resume
    for its user returned, and the active set exceeds its capacity only by the leaders still to
    make their pass and the passes that found everything pinned.
   */
  lemma EveryRunIsSafe(capacity: int, steps: seq<Step>, s: State)
    requires Leads(START, capacity, steps, s)
    ensures Inv(s)
    ensures forall t, v, key :: RunsFor(s, t, key) && RunsFor(s, v, key) ==> t == v
    ensures forall i :: 0 <= i < |s.slots| ==> s.slots[i].calls <= 1
    ensures forall t :: t in s.callers ==> Answered(s, t)
    ensures forall e :: e in s.lru ==> WasResumed(s, e)
    ensures |s.lru| <= Floor0(capacity) + |Pending(s)| + s.allPinned
  {
    RunKeeps(START, capacity, steps, s);
    forall t, v, key | RunsFor(s, t, key) && RunsFor(s, v, key)
      ensures t == v
    {
      OneFnPerKey(s, t, v, key);
    }
    forall i | 0 <= i < |s.slots|
      ensures s.slots[i].calls <= 1
    {
      SettledSlot(s, i);
    }
    forall t | t in s.callers
      ensures Answered(s, t)
    {
      assert CallerOk(s, t);
      SettledSlot(s, s.callers[t].slot);
    }
  }

  lemma {:induction false} NothingPinned(s: State, capacity: int, steps: seq<Step>, s': State)
    requires capacity >= 0 && s.pinned == {} && Leads(s, capacity, steps, s')
    requires forall i :: 0 <= i < |steps| ==> !steps[i].Pin?
    ensures s'.pinned == {} && s'.allPinned == s.allPinned
    decreases |steps|
  {
    if |steps| > 0 {
      var s1 := Next(s, capacity, steps[0]);
      assert !steps[0].Pin?;
      assert |s.lru| > 0 ==> VictimIndex(s.lru, s.pinned) == 0;
      assert s1.pinned == {} && s1.allPinned == s.allPinned;
      assert forall i :: 0 <= i < |steps[1..]| ==> steps[1..][i] == steps[i + 1];
      NothingPinned(s1, capacity, steps[1..], s');
    }
  }

  /** With no pins, a pool whose callers have all returned holds at most its capacity. */
  lemma QuiescentPoolFits(capacity: int, steps: seq<Step>, s: State)
    requires capacity >= 0 && Leads(START, capacity, steps, s) && AllReturned(s)
    requires forall i :: 0 <= i < |steps| ==> !steps[i].Pin?
    ensures |s.lru| <= capacity
  {
    EveryRunIsSafe(capacity, steps, s);
    NothingPinned(START, capacity, steps, s);
    assert Pending(s) == {};
  }
}
