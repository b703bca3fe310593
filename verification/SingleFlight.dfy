/**
  Concurrent get-or-resume calls at the granularity of lock sections: the single-flight
  protocol (go/internal/orchestrator/single_flight.go) around the pool's resume, touch and
  eviction sections (go/internal/orchestrator/pool.go).
  A caller is one call of Do; any number of them interleave, together with outside
  eviction passes, touches, pins, unpins and removals.
 */
module SingleFlight {
  import opened Wrappers
  import opened PoolSpec

  type Outcome = Result<string>

  /** Where a caller is. A leader passes the phases from Calling to Returned in order. */
  datatype Phase =
    | Waiting(slot: nat)
    | Calling(slot: nat)
    | Touching(slot: nat, id: string)
    | Evicting(slot: nat, r: Outcome)
    | Hibernating(slot: nat, r: Outcome, victim: string)
    | Storing(slot: nat, r: Outcome)
    | Freeing(slot: nat)
    | Waking(slot: nat)
    | Returned(slot: nat, r: Outcome)
  {
    /** Inside the function passed to Do. */
    predicate InFn() {
      Calling? || Touching? || Evicting? || Hibernating?
    }

    /** Leading, with the key still marked in flight. */
    predicate Leading() {
      InFn() || Storing? || Freeing?
    }
  }

  /**
    One in-flight call record. `calls` counts the underlying resumes made for it and `resumed` is
    what the last of them returned; the protocol itself only reads `result`.
   */
  datatype Slot = Slot(
    key: string, leader: nat, calls: nat, resumed: Option<Outcome>, result: Option<Outcome>, done: bool)

  /** `asked` is the key each caller came with. */
  datatype State = State(
    inflight: map<string, nat>,
    slots: seq<Slot>,
    callers: map<nat, Phase>,
    asked: map<nat, string>,
    lru: seq<Entry>,
    pinned: set<string>,
    allPinned: nat)

  /** `Renew` is a touch from outside of an entry the walk over the users stops at. */
  datatype Step =
    | Enter(t: nat, user: string)
    | Call(t: nat, r: Outcome)
    | Touch(t: nat)
    | Evict(t: nat)
    | Hibernate(t: nat)
    | Store(t: nat)
    | Free(t: nat)
    | Wake(t: nat)
    | Await(t: nat)
    | OutsideEvict
    | Pin(id: string)
    | Unpin(id: string)
    | Remove(user: string)
    | Renew(e: Entry)

  const START := State(map[], [], map[], map[], [], {}, 0)

  predicate At(s: State, t: nat) {
    t in s.callers && s.callers[t].slot < |s.slots|
  }

  predicate Enabled(s: State, step: Step) {
    match step
    case Enter(t, _) => t !in s.callers
    case Call(t, _) => At(s, t) && s.callers[t].Calling?
    case Touch(t) => At(s, t) && s.callers[t].Touching?
    case Evict(t) => At(s, t) && s.callers[t].Evicting?
    case Hibernate(t) => At(s, t) && s.callers[t].Hibernating?
    case Store(t) => At(s, t) && s.callers[t].Storing?
    case Free(t) => At(s, t) && s.callers[t].Freeing?
    case Wake(t) => At(s, t) && s.callers[t].Waking? && s.slots[s.callers[t].slot].result.Some?
    case Await(t) => At(s, t) && s.callers[t].Waiting? && s.slots[s.callers[t].slot].done
                     && s.slots[s.callers[t].slot].result.Some?
    case Renew(e) => e in s.lru
    case _ => true
  }

  /** The eviction pass's lock section: nothing, a pass that found all pinned, or a victim taken out. */
  function EvictSection(s: State, capacity: int): (State, Option<string>) {
    var i := VictimIndex(s.lru, s.pinned);
    if |s.lru| <= capacity then (s, None)
    else if i == |s.lru| then (s.(allPinned := s.allPinned + 1), None)
    else (s.(lru := s.lru[..i] + s.lru[i + 1..]), Some(s.lru[i].id))
  }

  function Go(s: State, t: nat, phase: Phase): State {
    s.(callers := s.callers[t := phase])
  }

  function SetSlot(s: State, i: nat, slot: Slot): State
    requires i < |s.slots|
  {
    s.(slots := s.slots[i := slot])
  }

  function Next(s: State, capacity: int, step: Step): State
    requires Enabled(s, step)
  {
    match step
    case Enter(t, u) =>
      var s' := s.(asked := s.asked[t := u]);
      if u in s.inflight then Go(s', t, Waiting(s.inflight[u]))
      else
        var i := |s.slots|;
        Go(s'.(slots := s.slots + [Slot(u, t, 0, None, None, false)], inflight := s.inflight[u := i]), t, Calling(i))
    case Call(t, r) =>
      var i := s.callers[t].slot;
      var s' := SetSlot(s, i, s.slots[i].(calls := s.slots[i].calls + 1, resumed := Some(r)));
      if r.Ok? then Go(s', t, Touching(i, r.value)) else Go(s', t, Storing(i, r))
    case Touch(t) =>
      var Touching(i, id) := s.callers[t];
      var u := s.slots[i].key;
      Go(s.(lru := Without(s.lru, u) + [Entry(u, id)]), t, Evicting(i, Ok(id)))
    case Evict(t) =>
      var Evicting(i, r) := s.callers[t];
      var (s', victim) := EvictSection(s, capacity);
      Go(s', t, if victim.Some? then Hibernating(i, r, victim.value) else Storing(i, r))
    case Hibernate(t) =>
      Go(s, t, Storing(s.callers[t].slot, s.callers[t].r))
    case Store(t) =>
      var Storing(i, r) := s.callers[t];
      Go(SetSlot(s, i, s.slots[i].(result := Some(r))), t, Freeing(i))
    case Free(t) =>
      var i := s.callers[t].slot;
      Go(s.(inflight := s.inflight - {s.slots[i].key}), t, Waking(i))
    case Wake(t) =>
      var i := s.callers[t].slot;
      Go(SetSlot(s, i, s.slots[i].(done := true)), t, Returned(i, s.slots[i].result.value))
    case Await(t) =>
      var i := s.callers[t].slot;
      Go(s, t, Returned(i, s.slots[i].result.value))
    case OutsideEvict => EvictSection(s, capacity).0
    case Pin(id) => s.(pinned := s.pinned + {id})
    case Unpin(id) => s.(pinned := s.pinned - {id})
    case Remove(u) => s.(lru := Without(s.lru, u))
    case Renew(e) => s.(lru := Without(s.lru, e.user) + [e])
  }

  // ----- the invariant ----------------------------------------------------------

  /** What a slot's record says about where its leader is. */
  ghost predicate SlotOk(s: State, i: nat)
    requires i < |s.slots|
  {
    var slot := s.slots[i];
    && slot.leader in s.callers
    && var p := s.callers[slot.leader];
       && p.slot == i && !p.Waiting?
       && slot.calls == (if p.Calling? then 0 else 1)
       && (slot.result.Some? <==> p.Freeing? || p.Waking? || p.Returned?)
       && (slot.done <==> p.Returned?)
       && (p.Leading() <==> slot.key in s.inflight && s.inflight[slot.key] == i)
       && (p.Returned? ==> slot.result == Some(p.r))
       && Carries(p, slot.resumed) && (slot.result.Some? ==> slot.result == slot.resumed)
  }

  /** On the way from the resume to the slot, the leader carries what the resume returned. */
  ghost predicate Carries(p: Phase, resumed: Option<Outcome>) {
    && (p.Calling? <==> resumed.None?)
    && (p.Touching? ==> resumed == Some(Ok(p.id)))
    && (p.Evicting? || p.Hibernating? || p.Storing? ==> resumed == Some(p.r))
  }

  /** What a caller's phase says about the slot it joined. */
  ghost predicate CallerOk(s: State, t: nat)
    requires t in s.callers
  {
    var p := s.callers[t];
    && p.slot < |s.slots| && t in s.asked && s.slots[p.slot].key == s.asked[t]
    && (!p.Waiting? && !p.Returned? ==> s.slots[p.slot].leader == t)
    && (p.Returned? ==> s.slots[p.slot].done && s.slots[p.slot].result == Some(p.r))
  }

  ghost predicate Inv(s: State) {
    && (forall i {:trigger s.slots[i]} :: 0 <= i < |s.slots| ==> SlotOk(s, i))
    && (forall t {:trigger s.callers[t]} :: t in s.callers ==> CallerOk(s, t))
    && (forall u {:trigger s.inflight[u]} :: u in s.inflight ==>
          s.inflight[u] < |s.slots| && s.slots[s.inflight[u]].key == u)
  }

  /** A leader owns its slot, and nobody else's phase depends on the leader's. */
  lemma LeaderOwns(s: State, t: nat)
    requires Inv(s) && t in s.callers && !s.callers[t].Waiting? && !s.callers[t].Returned?
    ensures var i := s.callers[t].slot; i < |s.slots| && s.slots[i].leader == t && SlotOk(s, i)
    ensures forall j :: 0 <= j < |s.slots| && j != s.callers[t].slot ==> s.slots[j].leader != t
  {
    assert CallerOk(s, t);
    assert SlotOk(s, s.callers[t].slot);
    forall j | 0 <= j < |s.slots| && j != s.callers[t].slot
      ensures s.slots[j].leader != t
    {
      assert SlotOk(s, j);
    }
  }

  /** A leader moves on and may update its own slot and the key's mark. */
  lemma LeaderMoves(s: State, s': State, t: nat)
    requires Inv(s) && t in s.callers && !s.callers[t].Waiting? && !s.callers[t].Returned?
    requires s'.asked == s.asked && s'.callers.Keys == s.callers.Keys && |s'.slots| == |s.slots|
             && s'.callers[t].slot == s.callers[t].slot
    requires forall v :: v in s.callers && v != t ==> s'.callers[v] == s.callers[v]
    requires forall j :: 0 <= j < |s.slots| && j != s.callers[t].slot ==> s'.slots[j] == s.slots[j]
    requires var i := s.callers[t].slot;
             && i < |s.slots| && s'.slots[i].leader == t && s'.slots[i].key == s.slots[i].key
             && (s.slots[i].result.Some? ==> s'.slots[i].result == s.slots[i].result)
             && SlotOk(s', i) && !s'.callers[t].Waiting?
             && (s'.inflight == s.inflight
                 || (s.callers[t].Leading() && s'.inflight == s.inflight - {s.slots[i].key}))
    ensures Inv(s')
  {
    LeaderOwns(s, t);
    var i := s.callers[t].slot;
    forall j | 0 <= j < |s'.slots|
      ensures SlotOk(s', j)
    {
      assert SlotOk(s, j);
    }
    forall v | v in s'.callers
      ensures CallerOk(s', v)
    {
      assert CallerOk(s, v);
    }
    forall u | u in s'.inflight
      ensures s'.inflight[u] < |s'.slots| && s'.slots[s'.inflight[u]].key == u
    {
      assert s.inflight[u] < |s.slots|;
    }
  }

  lemma EnterKeepsInv(s: State, capacity: int, t: nat, u: string)
    requires Inv(s) && t !in s.callers
    ensures Inv(Next(s, capacity, Enter(t, u)))
  {
    var s' := Next(s, capacity, Enter(t, u));
    if u in s.inflight {
      assert s.inflight[u] < |s.slots|;
    }
    forall j | 0 <= j < |s'.slots|
      ensures SlotOk(s', j)
    {
      if j < |s.slots| {
        assert SlotOk(s, j);
      }
    }
    forall v | v in s'.callers
      ensures CallerOk(s', v)
    {
      if v != t {
        assert CallerOk(s, v);
      }
    }
    forall k | k in s'.inflight
      ensures s'.inflight[k] < |s'.slots| && s'.slots[s'.inflight[k]].key == k
    {
      if k in s.inflight {
        assert s.inflight[k] < |s.slots|;
      }
    }
  }

  lemma AwaitKeepsInv(s: State, capacity: int, t: nat)
    requires Inv(s) && Enabled(s, Await(t))
    ensures Inv(Next(s, capacity, Await(t)))
  {
    var s' := Next(s, capacity, Await(t));
    forall j | 0 <= j < |s'.slots|
      ensures SlotOk(s', j)
    {
      assert SlotOk(s, j);
    }
    forall v | v in s'.callers
      ensures CallerOk(s', v)
    {
      assert CallerOk(s, v);
    }
  }

  /** Steps that leave the callers, the slots and the marks alone. */
  lemma PoolKeepsInv(s: State, s': State)
    requires Inv(s) && s'.callers == s.callers && s'.asked == s.asked && s'.slots == s.slots
             && s'.inflight == s.inflight
    ensures Inv(s')
  {
    forall j | 0 <= j < |s'.slots|
      ensures SlotOk(s', j)
    {
      assert SlotOk(s, j);
    }
    forall v | v in s'.callers
      ensures CallerOk(s', v)
    {
      assert CallerOk(s, v);
    }
  }

  lemma EvictSectionKeeps(s: State, capacity: int)
    ensures var s' := EvictSection(s, capacity).0;
            && s'.callers == s.callers && s'.asked == s.asked && s'.slots == s.slots && s'.inflight == s.inflight
  {
  }

  lemma FnStepKeepsInv(s: State, capacity: int, step: Step)
    requires Inv(s) && Enabled(s, step) && (step.Call? || step.Touch? || step.Evict? || step.Hibernate?)
    ensures Inv(Next(s, capacity, step))
  {
    LeaderOwns(s, step.t);
    EvictSectionKeeps(s, capacity);
    hide Inv, CallerOk, EvictSection, Without;
    LeaderMoves(s, Next(s, capacity, step), step.t);
  }

  lemma SettleStepKeepsInv(s: State, capacity: int, step: Step)
    requires Inv(s) && Enabled(s, step) && (step.Store? || step.Free? || step.Wake?)
    ensures Inv(Next(s, capacity, step))
  {
    LeaderOwns(s, step.t);
    hide Inv, CallerOk;
    LeaderMoves(s, Next(s, capacity, step), step.t);
  }

  lemma StepKeepsInv(s: State, capacity: int, step: Step)
    requires Inv(s) && Enabled(s, step)
    ensures Inv(Next(s, capacity, step))
  {
    if step.Enter? {
      EnterKeepsInv(s, capacity, step.t, step.user);
    } else if step.Await? {
      AwaitKeepsInv(s, capacity, step.t);
    } else if step.OutsideEvict? || step.Pin? || step.Unpin? || step.Remove? || step.Renew? {
      PoolKeepsInv(s, Next(s, capacity, step));
    } else if step.Store? || step.Free? || step.Wake? {
      SettleStepKeepsInv(s, capacity, step);
    } else {
      FnStepKeepsInv(s, capacity, step);
    }
  }
}
