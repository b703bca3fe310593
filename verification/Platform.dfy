/**
  The pool with everything that drives it: single operations, warm-pool refreshes, hibernate
  scans and health-probe scans, one at a time and in any order.
 */
module Platform {
  import opened Wrappers
  import opened PoolSpec
  import opened PoolInvariant
  import opened PoolScript
  import opened Sparing
  import opened Hibernation
  import opened ProbeAccounting
  import opened HealthProbe
  import opened WarmPool

  /** `warm` is the warm pool's table, `probes` every probe so far, `now` the last clock reading. */
  datatype State = State(w: World, warm: map<string, string>, stats: ProbeStats, probes: History, now: int)

  datatype Act =
    | Operate(step: PoolStep)
    | Refresh(top: Result<seq<string>>)
    | HibernateScan(limit: string -> int, hibernated: seq<string>)
    | ProbeScan(alive: string -> bool, script: seq<Tick>, trail: Trail)

  /** One act at a time: what the methods of the pool and of its drivers promise. */
  ghost predicate Moves(s: State, capacity: int, grace: int, act: Act, s': State) {
    && s.now <= s'.now
    && match act
       case Operate(step) =>
         && PoolEnabled(s.w, step)
         && s' == s.(w := PoolNext(s.w, capacity, step, s'.now), now := s'.now)
       case Refresh(top) =>
         && RefreshedBy(s.w, capacity, s.now, s.warm, top, s'.now, s'.w, s'.warm)
         && s'.stats == s.stats && s'.probes == s.probes
       case HibernateScan(limit, hibernated) =>
         && ScannedAll(s.w, capacity, limit, s'.now, s'.w, hibernated)
         && s' == s.(w := s'.w, now := s'.now)
       case ProbeScan(alive, script, trail) =>
         && |s.w.lru| <= |script| && GoodScript(script, s.w.cloud, s.now)
         && ScanRun(s.w, s.stats, capacity, grace, alive, script, |s.w.lru|, trail)
         && ReadBy(s.now, script, |s.w.lru|) <= s'.now
         && s' == State(trail.now, s.warm, trail.stats, Joined(s.probes, trail.Events()), s'.now)
  }

  /** The acts so far, oldest first, and where each led. */
  datatype Run = Begin(start: int) | Then(before: Run, act: Act, now: State) {
    function Here(): State {
      if Begin? then State(EMPTY, map[], NO_PROBES, NoProbes, start) else now
    }
  }

  ghost predicate IsRun(r: Run, capacity: int, grace: int) {
    r.Then? ==> IsRun(r.before, capacity, grace) && Moves(r.before.Here(), capacity, grace, r.act, r.now)
  }

  /** Nobody else unpins what the warm pool has recorded. */
  predicate LeavesPinned(s: State, act: Act) {
    act.Operate? && act.step.Unpin? ==> act.step.id !in s.warm.Values
  }

  predicate IsRespectful(r: Run) {
    r.Then? ==> IsRespectful(r.before) && LeavesPinned(r.before.Here(), r.act)
  }

  ghost predicate Sound(s: State, grace: int) {
    && Agrees(s.w) && Ordered(s.w, s.now) && AllLabelled(s.w.cloud, s.warm)
    && s.stats == After(NO_PROBES, s.probes) && Possible(NO_PROBES, s.probes, grace)
  }

  lemma OrderedLater(w: World, now: int, later: int)
    requires Ordered(w, now) && now <= later
    ensures Ordered(w, later)
  {
  }

  lemma OperateIsSound(s: State, capacity: int, grace: int, step: PoolStep, s': State)
    requires Sound(s, grace) && Moves(s, capacity, grace, Operate(step), s')
    ensures Sound(s', grace)
  {
    hide Agrees, Ordered, AllLabelled, KeepsRecords, PoolEnabled, PoolNext;
    StepAgrees(s.w, capacity, step, s'.now);
    StepOrdered(s.w, capacity, step, s.now, s'.now);
    StepKeepsRecords(s.w, capacity, step, s'.now);
    LabelsStay(s.w.cloud, s'.w.cloud, s.warm);
  }

  lemma RefreshIsSound(s: State, capacity: int, grace: int, top: Result<seq<string>>, s': State)
    requires Sound(s, grace) && Moves(s, capacity, grace, Refresh(top), s')
    ensures Sound(s', grace)
  {
    hide Agrees, Ordered, AllLabelled, KeepsRecords, Refreshed;
    ReachesKeeps(s.w, capacity, s.now, s'.now, s'.w);
    ReachesKeepsRecords(s.w, capacity, s.now, s'.now, s'.w);
    if top.Ok? {
      RefreshLabels(s.w, capacity, s.warm, top.value, s'.w, s'.warm);
    }
  }

  lemma HibernateScanIsSound(s: State, capacity: int, grace: int, limit: string -> int, hibernated: seq<string>,
                             s': State)
    requires Sound(s, grace) && Moves(s, capacity, grace, HibernateScan(limit, hibernated), s')
    ensures Sound(s', grace)
  {
    hide Agrees, Ordered, AllLabelled, KeepsRecords;
    OrderedLater(s.w, s.now, s'.now);
    ReachesKeeps(s.w, capacity, s'.now, s'.now, s'.w);
    ReachesKeepsRecords(s.w, capacity, s'.now, s'.now, s'.w);
    LabelsStay(s.w.cloud, s'.w.cloud, s.warm);
  }

  lemma ProbeScanIsSound(s: State, capacity: int, grace: int, alive: string -> bool, script: seq<Tick>, trail: Trail,
                         s': State)
    requires Sound(s, grace) && Moves(s, capacity, grace, ProbeScan(alive, script, trail), s')
    ensures Sound(s', grace)
  {
    hide Agrees, Ordered, AllLabelled, KeepsRecords, ScanRun, GoodScript;
    var n := |s.w.lru|;
    ScanIsARun(s.w, s.stats, capacity, grace, alive, script, n, trail, s.now);
    ScanCounts(s.w, s.stats, capacity, grace, alive, script, n, trail);
    OnTrackKeeps(s.w, capacity, s.now, script, n, s'.w);
    OrderedLater(s'.w, ReadBy(s.now, script, n), s'.now);
    ReachesKeepsRecords(s.w, capacity, s.now, ReadBy(s.now, script, n), s'.w);
    LabelsStay(s.w.cloud, s'.w.cloud, s.warm);
    Composes(NO_PROBES, s.probes, trail.Events(), grace);
  }

  /** What the warm pool has recorded stays held through every act that is not an outside unpin of it. */
  lemma ActKeepsHeld(s: State, capacity: int, grace: int, act: Act, s': State)
    requires Sound(s, grace) && Moves(s, capacity, grace, act, s')
    requires Held(s.w, s.warm) && LeavesPinned(s, act)
    ensures Held(s'.w, s'.warm)
  {
    hide Agrees, Ordered, AllLabelled, Held, KeepsRecords, Refreshed;
    hide PoolEnabled, PoolNext, ScanRun, GoodScript, Scanned;
    match act
    case Operate(step) => StepKeepsHeld(s.w, capacity, step, s'.now, s.warm);
    case Refresh(top) =>
      ReachesKeepsRecords(s.w, capacity, s.now, s'.now, s'.w);
      if top.Ok? {
        RefreshHolds(s.w, capacity, s.warm, top.value, s'.w, s'.warm);
      }
    case HibernateScan(limit, hibernated) =>
      OrderedLater(s.w, s.now, s'.now);
      ReachesKeepsRecords(s.w, capacity, s'.now, s'.now, s'.w);
      ScanKeepsPins(s.w, capacity, limit, s'.now, s'.w, hibernated);
      HeldStays(s.w, s'.w, s.warm);
    case ProbeScan(alive, script, trail) =>
      var n := |s.w.lru|;
      ScanIsARun(s.w, s.stats, capacity, grace, alive, script, n, trail, s.now);
      OnTrackKeeps(s.w, capacity, s.now, script, n, s'.w);
      ReachesKeepsRecords(s.w, capacity, s.now, ReadBy(s.now, script, n), s'.w);
      HeldStays(s.w, s'.w, s.warm);
  }

  lemma ScanKeepsPins(w: World, capacity: int, limit: string -> int, now: int, w': World, hibernated: seq<string>)
    requires Agrees(w) && Ordered(w, now) && ScannedAll(w, capacity, limit, now, w', hibernated)
    ensures w'.pinned == w.pinned
  {
  }

  lemma ActIsSound(s: State, capacity: int, grace: int, act: Act, s': State)
    requires Sound(s, grace) && Moves(s, capacity, grace, act, s')
    ensures Sound(s', grace)
  {
    match act
    case Operate(step) => OperateIsSound(s, capacity, grace, step, s');
    case Refresh(top) => RefreshIsSound(s, capacity, grace, top, s');
    case HibernateScan(limit, hibernated) => HibernateScanIsSound(s, capacity, grace, limit, hibernated, s');
    case ProbeScan(alive, script, trail) => ProbeScanIsSound(s, capacity, grace, alive, script, trail, s');
  }

  lemma {:induction false} RunIsSound(r: Run, capacity: int, grace: int)
    requires IsRun(r, capacity, grace)
    ensures Sound(r.Here(), grace)
    ensures IsRespectful(r) ==> Held(r.Here().w, r.Here().warm)
  {
    hide Moves, Sound;
    if r.Begin? {
      StartIsSound(r.start, grace);
    } else {
      RunIsSound(r.before, capacity, grace);
      ActIsSound(r.before.Here(), capacity, grace, r.act, r.now);
      if IsRespectful(r) {
        ActKeepsHeld(r.before.Here(), capacity, grace, r.act, r.now);
      }
    }
  }

  lemma StartIsSound(start: int, grace: int)
    ensures Sound(Begin(start).Here(), grace) && Held(EMPTY, map[])
  {
  }

  /**
    In every run of operations, refreshes and scans: the active set is exactly the set of running
    sandboxes, one a user and the one the store names, in order of last activity; what the warm
    pool has recorded is its user's own, and pinned unless somebody else unpinned it; and the probe
    counters are those of the whole history of probes.
   */
  lemma EveryRunIsSound(r: Run, capacity: int, grace: int)
    requires IsRun(r, capacity, grace)
    ensures var s := r.Here();
            && OnePerUser(s.w.lru) && ByTime(s.w.lru, s.w.lastActive)
            && (forall u, id :: Entry(u, id) in s.w.lru <==> IsRunning(s.w.cloud, id) && s.w.cloud.UserOf(id) == u)
            && (forall e :: e in s.w.lru ==> e.user in s.w.cloud.store && s.w.cloud.store[e.user] == e.id)
            && (forall u :: u in s.warm ==> Labelled(s.w.cloud, u, s.warm[u]))
            && (IsRespectful(r) ==> forall u :: u in s.warm ==> HeldFor(s.w, u, s.warm[u]))
            && Balanced(s.stats, grace) && s.stats.recreates == |s.probes.Recreated()|
            && s.stats.probes == s.probes.Length() && s.stats.failures == s.probes.Failed()
            && (forall id :: s.stats.Streak(id) == s.probes.FailedSince(id))
  {
    RunIsSound(r, capacity, grace);
    var s := r.Here();
    CountersBalance(s.probes, grace);
    forall id
      ensures s.stats.Streak(id) == s.probes.FailedSince(id)
    {
      StreaksAreTrailing(s.probes, grace, id);
    }
    forall u, id | Entry(u, id) in s.w.lru
      ensures Backed(s.w.cloud, Entry(u, id))
    {
    }
  }

  // ----- what a warm pool is for ------------------------------------------------------

  /** An act that takes a recorded user's sandbox away on purpose. */
  predicate Takes(act: Act, u: string, id: string) {
    match act
    case Operate(Hibernate(x, _)) => x == id
    case Operate(Recreate(_, x, _, _)) => x == id
    case Refresh(Ok(top)) => u !in top
    case ProbeScan(alive, _, _) => !alive(id)
    case _ => false
  }

  lemma RecreationSpares(w: World, capacity: int, u: string, id: string, found: Option<string>, newId: string,
                         now: int, x: string)
    requires Agrees(w) && PoolEnabled(w, Recreate(u, id, found, newId))
    requires IsRunning(w.cloud, x) && x in w.pinned && x != id
    ensures IsRunning(PoolNext(w, capacity, Recreate(u, id, found, newId), now).cloud, x)
  {
    var wc := Cleared(w, u, id);
    assert IsRunning(wc.cloud, x) && x in wc.pinned;
    hide Agrees, AgreesBut, Cleared, Admitted, Evicted, IsRunning;
    ClearedAgrees(w, u, id);
    AdmitSpares(wc, u, found, newId, now);
    EvictionSpares(Admitted(wc, u, found, newId, now).0, capacity);
  }

  lemma OperateSpares(s: State, capacity: int, step: PoolStep, now: int, u: string)
    requires Agrees(s.w) && PoolEnabled(s.w, step)
    requires u in s.warm && HeldFor(s.w, u, s.warm[u]) && IsRunning(s.w.cloud, s.warm[u])
             && !Takes(Operate(step), u, s.warm[u])
    ensures IsRunning(PoolNext(s.w, capacity, step, now).cloud, s.warm[u])
  {
    match step
    case GetOrResume(v, found, newId) => ResumeSpares(s.w, capacity, v, found, newId, now);
    case MaybeEvict => EvictionSpares(s.w, capacity);
    case Recreate(v, id, found, newId) => RecreationSpares(s.w, capacity, v, id, found, newId, now, s.warm[u]);
    case _ =>
  }

  /** A running sandbox the warm pool holds runs on through everything but an act that takes that very one away. */
  lemma WarmRunsOn(s: State, capacity: int, grace: int, act: Act, s': State, u: string)
    requires Sound(s, grace) && Moves(s, capacity, grace, act, s')
    requires u in s.warm && HeldFor(s.w, u, s.warm[u]) && IsRunning(s.w.cloud, s.warm[u]) && !Takes(act, u, s.warm[u])
    ensures IsRunning(s'.w.cloud, s.warm[u]) && u in s'.warm && s'.warm[u] == s.warm[u]
  {
    match act
    case Operate(step) => OperateSpares(s, capacity, step, s'.now, u);
    case Refresh(top) =>
      if top.Ok? {
        CarriedStayUp(s.w, capacity, s.now, s.warm, top.value, s'.now, s'.w, s'.warm, u);
      }
    case HibernateScan(limit, hibernated) =>
      OrderedLater(s.w, s.now, s'.now);
      DueIdsMembers(s.w, s.w.lru, limit, s'.now);
      assert s.w.lru[..|s.w.lru|] == s.w.lru;
    case ProbeScan(alive, script, trail) =>
      ScanLeaves(s.w, s.stats, capacity, grace, alive, script, |s.w.lru|, trail, s.now);
  }
}
