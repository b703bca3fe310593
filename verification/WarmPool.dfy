/**
  The warm pool: pins the sandboxes of the most active users (go/internal/orchestrator/warm_pool.go).
 */
module WarmPool {
  import opened Wrappers
  import opened Provider
  import opened Orchestration
  import opened OneLive
  import opened PoolSpec
  import opened PoolInvariant
  import opened PoolScript
  import opened Sparing
  import opened Pool

  /** Every recorded sandbox is its user's own and protected from eviction. */
  ghost predicate Held(w: World, current: map<string, string>) {
    forall u :: u in current ==> HeldFor(w, u, current[u])
  }

  predicate HeldFor(w: World, u: string, id: string) {
    id in w.pinned && Labelled(w.cloud, u, id)
  }

  predicate Labelled(c: Cloud, u: string, id: string) {
    id in c.sandboxes && c.UserOf(id) == u
  }

  /** Every recorded sandbox is its user's own, protected or not. */
  ghost predicate AllLabelled(c: Cloud, current: map<string, string>) {
    forall u :: u in current ==> Labelled(c, u, current[u])
  }

  /** What the table records for some users. */
  function Recorded(current: map<string, string>, users: set<string>): set<string> {
    set u | u in users && u in current :: current[u]
  }

  function Users(s: seq<string>): set<string> {
    set u | u in s
  }

  // ----- one prewarmed user -----------------------------------------------------

  function Pinned(w: World, id: string): World {
    w.(pinned := w.pinned + {id})
  }

  /** What the body of the prewarm loop does to the pool and the new table. */
  ghost predicate PrewarmStep(w1: World, capacity: int, u: string, tick: Tick, added: map<string, string>,
                              w2: World, added': map<string, string>)
  {
    exists found :: PrewarmedBy(w1, capacity, u, tick, added, found, w2, added')
  }

  ghost predicate PrewarmedBy(w1: World, capacity: int, u: string, tick: Tick, added: map<string, string>,
                              found: Option<string>, w2: World, added': map<string, string>)
  {
    && SearchAnswer(w1.cloud.sandboxes, u, found)
    && var (w', r) := PoolResumed(w1, capacity, u, found, tick.newId, tick.now);
       if r.Ok? then w2 == Pinned(w', r.value.id) && added' == added[u := r.value.id]
       else w2 == w' && added' == added
  }

  /** The pool and the new table after each prewarmed user, latest first. */
  datatype Prewarming =
    | Begun(now: World, added: map<string, string>)
    | Warmed(now: World, added: map<string, string>, before: Prewarming)

  /** The first `n` users are resumed and pinned, one after the other. */
  ghost predicate PrewarmRun(w: World, capacity: int, toAdd: seq<string>, script: seq<Tick>, n: nat, t: Prewarming)
    requires n <= |toAdd| && n <= |script|
  {
    if n == 0 then t == Begun(w, map[])
    else
      && t.Warmed? && PrewarmStep(t.before.now, capacity, toAdd[n - 1], script[n - 1], t.before.added, t.now, t.added)
      && PrewarmRun(w, capacity, toAdd, script, n - 1, t.before)
  }

  /** The users of `top` without a recorded sandbox, in the order of `top` and as often. */
  ghost predicate IsMissing(top: seq<string>, current: map<string, string>, toAdd: seq<string>) {
    exists at: seq<int> :: Places(top, current, toAdd, at)
  }

  /** Where in `top` they stand. */
  ghost predicate Places(top: seq<string>, current: map<string, string>, toAdd: seq<string>, at: seq<int>) {
    && |at| == |toAdd| && (forall i, j :: 0 <= i < j < |at| ==> at[i] < at[j])
    && (forall k :: 0 <= k < |at| ==> 0 <= at[k] < |top| && top[at[k]] == toAdd[k] && toAdd[k] !in current)
    && (forall i :: 0 <= i < |top| && top[i] !in current ==> i in at)
  }

  lemma PrewarmOnTrack(w: World, before: int, script: seq<Tick>, n: nat, capacity: int, u: string,
                       w1: World, added: map<string, string>, w2: World, added': map<string, string>)
    requires Launch(w, before, script) && 0 < n <= |script| && OnTrack(w, capacity, before, script, n - 1, w1)
    requires PrewarmStep(w1, capacity, u, script[n - 1], added, w2, added')
    ensures OnTrack(w, capacity, before, script, n, w2) && Agrees(w1) && NewId(w1.cloud, script[n - 1].newId)
  {
    var tick := script[n - 1];
    var found :| PrewarmedBy(w1, capacity, u, tick, added, found, w2, added');
    var (w', r) := PoolResumed(w1, capacity, u, found, tick.newId, tick.now);
    ResumeOnTrack(w, capacity, before, script, n, w1, u, found);
    if r.Ok? {
      ReachesOn(w, capacity, before, tick.now, w', PoolStep.Pin(r.value.id), tick.now);
    }
  }

  /**
    The first `n` of `toAdd` are through: who has a valid id is in the table with the one live
    sandbox the store names, exactly those are pinned besides, and what was pinned still runs.
    With room for all, everything that ran still runs, and so do the new ones.
   */
  ghost predicate Filled(w: World, capacity: int, toAdd: seq<string>, n: nat, w': World, added: map<string, string>) {
    && n <= |toAdd|
    && Spares(w, capacity, n, w') && w'.pinned == w.pinned + added.Values
    && WakesOnly(w.cloud, Users(toAdd[..n]), w'.cloud)
    && (forall u :: u in added ==> u in toAdd[..n] && Named(w'.cloud, u, added[u]))
    && (forall u :: u in added && HasRoom(w, capacity, n) ==> IsRunning(w'.cloud, added[u]))
    && (forall u :: u in toAdd[..n] && ValidUserId(u) ==> u in added)
  }

  lemma ValuesWith(m: map<string, string>, u: string, id: string)
    requires u in m ==> m[u] == id
    ensures m[u := id].Values == m.Values + {id}
  {
    var m' := m[u := id];
    forall x | x in m.Values
      ensures x in m'.Values
    {
      var v :| v in m && m[v] == x;
      assert v in m' && m'[v] == x;
    }
    assert u in m' && m'[u] == id;
  }

  /** One more resume leaves the users before it with their sandboxes. */
  lemma StaysFilled(w: World, capacity: int, toAdd: seq<string>, n: nat, w1: World, added: map<string, string>,
                    w2: World)
    requires 0 < n && Filled(w, capacity, toAdd, n - 1, w1, added) && Spares(w1, capacity, 1, w2)
    requires forall u, id :: Named(w1.cloud, u, id) ==> Named(w2.cloud, u, id)
    ensures Spares(w, capacity, n, w2) && (HasRoom(w, capacity, n) ==> HasRoom(w1, capacity, 1))
    ensures forall u :: u in added ==>
                          Named(w2.cloud, u, added[u]) && (HasRoom(w, capacity, n) ==> IsRunning(w2.cloud, added[u]))
  {
    SparesThen(w, capacity, n - 1, w1, 1, w2);
    assert HasRoom(w, capacity, n) ==> HasRoom(w, capacity, n - 1);
    forall u | u in added
      ensures Named(w2.cloud, u, added[u]) && (HasRoom(w, capacity, n) ==> IsRunning(w2.cloud, added[u]))
    {
      assert Named(w1.cloud, u, added[u]) && added[u] in w1.pinned;
    }
  }

  lemma PinSpares(w: World, capacity: int, n: nat, w1: World, id: string)
    requires Spares(w, capacity, n, w1)
    ensures Spares(w, capacity, n, Pinned(w1, id))
  {
  }

  lemma PrewarmFills(w: World, capacity: int, toAdd: seq<string>, n: nat, tick: Tick,
                     w1: World, added: map<string, string>, w2: World, added': map<string, string>)
    requires Agrees(w1) && NewId(w1.cloud, tick.newId) && 0 < n <= |toAdd|
             && Filled(w, capacity, toAdd, n - 1, w1, added)
    requires PrewarmStep(w1, capacity, toAdd[n - 1], tick, added, w2, added')
    ensures Filled(w, capacity, toAdd, n, w2, added')
  {
    hide PoolResumed, IsRunning, Named, WakesOnly, KeepsRecords, HasRoom, Agrees, Spares;
    var u := toAdd[n - 1];
    var found :| PrewarmedBy(w1, capacity, u, tick, added, found, w2, added');
    var (w', r) := PoolResumed(w1, capacity, u, found, tick.newId, tick.now);
    ResumeSpares(w1, capacity, u, found, tick.newId, tick.now);
    StaysFilled(w, capacity, toAdd, n, w1, added, w');
    ResumeKeepsRecords(w1, capacity, u, found, tick.newId, tick.now);
    WakesThen(w.cloud, Users(toAdd[..n - 1]), w1.cloud, {u}, w'.cloud);
    assert toAdd[..n] == toAdd[..n - 1] + [u];
    assert Users(toAdd[..n]) == Users(toAdd[..n - 1]) + {u};
    if r.Ok? {
      PinSpares(w, capacity, n, w', r.value.id);
      assert u in added ==> Named(w1.cloud, u, added[u]);
      ValuesWith(added, u, r.value.id);
    }
  }

  /** The prewarm loop after `n` users. */
  ghost predicate Prewarms(w: World, capacity: int, before: int, toAdd: seq<string>, script: seq<Tick>, n: nat,
                           t: Prewarming) {
    && n <= |toAdd| && n <= |script| && PrewarmRun(w, capacity, toAdd, script, n, t)
    && OnTrack(w, capacity, before, script, n, t.now) && Filled(w, capacity, toAdd, n, t.now, t.added)
  }

  lemma StartPrewarms(w: World, capacity: int, before: int, toAdd: seq<string>, script: seq<Tick>)
    ensures Prewarms(w, capacity, before, toAdd, script, 0, Begun(w, map[]))
  {
    StartOnTrack(w, capacity, before, script);
  }

  lemma OnePrewarms(w: World, capacity: int, before: int, toAdd: seq<string>, script: seq<Tick>, n: nat,
                    t: Prewarming, w2: World, added': map<string, string>)
    requires Launch(w, before, script) && Prewarms(w, capacity, before, toAdd, script, n, t)
    requires n < |toAdd| && n < |script|
    requires PrewarmStep(t.now, capacity, toAdd[n], script[n], t.added, w2, added')
    ensures Prewarms(w, capacity, before, toAdd, script, n + 1, Warmed(w2, added', t))
  {
    hide OnTrack, Filled, PrewarmStep, Launch;
    PrewarmOnTrack(w, before, script, n + 1, capacity, toAdd[n], t.now, t.added, w2, added');
    PrewarmFills(w, capacity, toAdd, n + 1, script[n], t.now, t.added, w2, added');
  }

  // ----- one released user ------------------------------------------------------

  function Dropped(w: World, id: string, holder: Option<string>): World {
    PoolHibernated(w.(pinned := w.pinned - {id}), id, holder).0
  }

  /** Exactly these sandboxes are unpinned and no longer active or running; nothing else changes. */
  ghost predicate Gone(w: World, ids: set<string>, w': World) {
    && w'.pinned == w.pinned - ids && w'.cloud.store == w.cloud.store
    && (forall e :: e in w'.lru <==> e in w.lru && e.id !in ids)
    && w'.cloud.sandboxes.Keys == w.cloud.sandboxes.Keys
    && (forall x :: x in w.cloud.sandboxes && x !in ids ==> w'.cloud.sandboxes[x] == w.cloud.sandboxes[x])
    && (forall x :: x in ids ==> !IsRunning(w'.cloud, x))
  }

  lemma GoneNone(w: World)
    ensures Gone(w, {}, w)
  {
  }

  lemma GoneTwice(w: World, first: set<string>, w1: World, second: set<string>, w2: World)
    requires Gone(w, first, w1) && Gone(w1, second, w2)
    ensures Gone(w, first + second, w2)
  {
    forall x | x in first
      ensures !IsRunning(w2.cloud, x)
    {
      assert !IsRunning(w1.cloud, x);
    }
  }

  lemma GoneStops(w: World, ids: set<string>, w': World)
    requires Gone(w, ids, w')
    ensures w'.pinned == w.pinned - ids && forall x :: x in ids ==> !IsRunning(w'.cloud, x)
  {
  }

  /** Unpin and hibernate: this sandbox is affected, and nothing else. */
  lemma DropReleases(w: World, id: string, holder: Option<string>)
    requires Agrees(w) && StopsAt(w.lru, id, holder)
    ensures Gone(w, {id}, Dropped(w, id, holder))
  {
    assert id in w.cloud.sandboxes ==> w.cloud.sandboxes[id].state != Provisioning;
    HolderIsUnique(w, id, holder);
    if holder.Some? {
      WithoutKeeps(w.lru, holder.value);
    }
    assert forall e :: e in w.lru ==> Backed(w.cloud, e);
  }

  lemma DropReaches(w: World, capacity: int, now: int, w1: World, id: string, holder: Option<string>)
    requires Reaches(w, capacity, now, now, w1) && StopsAt(w1.lru, id, holder)
    ensures Reaches(w, capacity, now, now, Dropped(w1, id, holder))
  {
    var w2 := w1.(pinned := w1.pinned - {id});
    ReachesOn(w, capacity, now, now, w1, PoolStep.Unpin(id), now);
    ReachesOn(w, capacity, now, now, w2, PoolStep.Hibernate(id, holder), now);
  }

  // ----- a whole refresh ----------------------------------------------------------

  /** The recorded sandboxes of users that are not in `top` any more. */
  function FallenOut(was: map<string, string>, top: seq<string>): set<string> {
    set u | u in was && u !in top :: was[u]
  }

  /** What a refresh that got the list of top users does. */
  ghost predicate Refreshed(w: World, capacity: int, was: map<string, string>, top: seq<string>,
                            w': World, current: map<string, string>) {
    var gone := FallenOut(was, top);
    && (forall u :: u in was && u in top ==> u in current && current[u] == was[u])
    && (forall u :: u in top && ValidUserId(u) ==> u in current)
    && (forall u :: u in current ==> u in top && (u in was || Named(w'.cloud, u, current[u])))
    && w'.pinned == w.pinned + Recorded(current, current.Keys - was.Keys) - gone
    && WakesOnly(w.cloud, Users(top) - was.Keys, w'.cloud)
    && (forall x :: x in gone ==> !IsRunning(w'.cloud, x))
    && (forall x :: IsRunning(w.cloud, x) && x !in gone && (x in w.pinned || HasRoom(w, capacity, |top|)) ==>
          IsRunning(w'.cloud, x))
    && (forall u :: u in current && u !in was && HasRoom(w, capacity, |top|) ==> IsRunning(w'.cloud, current[u]))
  }

  /** A failed query changes nothing. */
  ghost predicate RefreshedBy(w: World, capacity: int, before: int, was: map<string, string>, top: Result<seq<string>>,
                              now: int, w': World, current: map<string, string>) {
    && Reaches(w, capacity, before, now, w')
    && match top
       case Err(_) => w' == w && current == was
       case Ok(users) => Refreshed(w, capacity, was, users, w', current)
  }

  lemma LabelsStay(c: Cloud, c': Cloud, current: map<string, string>)
    requires AllLabelled(c, current) && KeepsRecords(c, c')
    ensures AllLabelled(c', current)
  {
    forall u | u in current
      ensures Labelled(c', u, current[u])
    {
      assert Labelled(c, u, current[u]);
    }
  }

  /** Held through a run that unpins nothing. */
  lemma HeldStays(w: World, w': World, current: map<string, string>)
    requires Held(w, current) && KeepsRecords(w.cloud, w'.cloud) && w.pinned <= w'.pinned
    ensures Held(w', current)
  {
    forall u | u in current
      ensures HeldFor(w', u, current[u])
    {
      assert HeldFor(w, u, current[u]);
    }
  }

  /** A pool operation, unless it unpins a recorded sandbox, leaves the recorded ones held. */
  lemma StepKeepsHeld(w: World, capacity: int, step: PoolStep, now: int, current: map<string, string>)
    requires Held(w, current) && PoolEnabled(w, step) && !(step.Unpin? && step.id in current.Values)
    ensures Held(PoolNext(w, capacity, step, now), current)
  {
    StepKeepsRecords(w, capacity, step, now);
    var w' := PoolNext(w, capacity, step, now);
    forall u | u in current
      ensures HeldFor(w', u, current[u])
    {
      assert HeldFor(w, u, current[u]);
    }
  }

  /** No recorded sandbox is among those that fell out: they are labelled with other users. */
  lemma RefreshLabels(w: World, capacity: int, was: map<string, string>, top: seq<string>, w': World,
                      current: map<string, string>)
    requires AllLabelled(w.cloud, was) && KeepsRecords(w.cloud, w'.cloud)
             && Refreshed(w, capacity, was, top, w', current)
    ensures AllLabelled(w'.cloud, current)
    ensures forall u :: u in current ==> current[u] !in FallenOut(was, top)
  {
    forall u | u in current
      ensures Labelled(w'.cloud, u, current[u]) && current[u] !in FallenOut(was, top)
    {
      assert u in was ==> Labelled(w.cloud, u, was[u]);
      assert u !in was ==> Owns(w'.cloud, u, current[u]);
      forall v | v in was && v !in top
        ensures was[v] != current[u]
      {
        assert Labelled(w.cloud, v, was[v]);
      }
    }
  }

  /** A refresh holds what it records, if what was recorded before was held. */
  lemma RefreshHolds(w: World, capacity: int, was: map<string, string>, top: seq<string>, w': World,
                     current: map<string, string>)
    requires Held(w, was) && KeepsRecords(w.cloud, w'.cloud) && Refreshed(w, capacity, was, top, w', current)
    ensures Held(w', current)
  {
    assert AllLabelled(w.cloud, was) by {
      assert forall u :: u in was ==> HeldFor(w, u, was[u]);
    }
    RefreshLabels(w, capacity, was, top, w', current);
    forall u | u in current
      ensures HeldFor(w', u, current[u])
    {
      assert Labelled(w'.cloud, u, current[u]);
      assert u in was ==> HeldFor(w, u, was[u]);
    }
  }

  /** What a warm pool is for: the running sandbox of a user who stays on top runs on. */
  lemma CarriedStayUp(w: World, capacity: int, before: int, was: map<string, string>, top: seq<string>,
                      now: int, w': World, current: map<string, string>, u: string)
    requires Agrees(w) && Ordered(w, before) && AllLabelled(w.cloud, was)
    requires Reaches(w, capacity, before, now, w') && Refreshed(w, capacity, was, top, w', current)
    requires u in was && u in top && IsRunning(w.cloud, was[u]) && HeldFor(w, u, was[u])
    ensures IsRunning(w'.cloud, was[u]) && Entry(u, was[u]) in w'.lru
  {
    ReachesKeeps(w, capacity, before, now, w');
    ReachesKeepsRecords(w, capacity, before, now, w');
    RefreshLabels(w, capacity, was, top, w', current);
  }

  /** What prewarming added outlives the release, and so does what it spared. */
  lemma AddedServe(w: World, was: map<string, string>, top: seq<string>, w1: World, added: map<string, string>,
                   w2: World)
    requires AllLabelled(w.cloud, was) && KeepsRecords(w.cloud, w1.cloud) && Gone(w1, FallenOut(was, top), w2)
    requires forall u :: u in added ==> u in top && Named(w1.cloud, u, added[u])
    ensures forall u :: u in added ==>
              Named(w2.cloud, u, added[u]) && (IsRunning(w1.cloud, added[u]) ==> IsRunning(w2.cloud, added[u]))
  {
    forall u | u in added
      ensures added[u] !in FallenOut(was, top) && Named(w2.cloud, u, added[u])
    {
      assert Named(w1.cloud, u, added[u]);
      forall v | v in was && v !in top
        ensures was[v] != added[u]
      {
        assert Labelled(w.cloud, v, was[v]);
      }
    }
  }

  lemma SparedServe(w: World, capacity: int, n: nat, w1: World, ids: set<string>, w2: World, x: string)
    requires Spares(w, capacity, n, w1) && Gone(w1, ids, w2)
    requires IsRunning(w.cloud, x) && x !in ids && (x in w.pinned || HasRoom(w, capacity, n))
    ensures IsRunning(w2.cloud, x)
  {
    assert IsRunning(w1.cloud, x);
  }

  lemma GoneWakesNobody(c: Cloud, users: set<string>, w1: World, ids: set<string>, w2: World)
    requires WakesOnly(c, users, w1.cloud) && Gone(w1, ids, w2)
    ensures WakesOnly(c, users, w2.cloud)
  {
    forall x | IsRunning(w2.cloud, x)
      ensures IsRunning(w1.cloud, x) && w1.cloud.UserOf(x) == w2.cloud.UserOf(x)
    {
      assert x !in ids;
    }
  }

  /** Prewarming, carrying over and releasing make a refresh. */
  lemma MakesRefresh(w: World, capacity: int, was: map<string, string>, top: seq<string>, toAdd: seq<string>,
                     w1: World, added: map<string, string>, w2: World, current: map<string, string>)
    requires AllLabelled(w.cloud, was) && Filled(w, capacity, toAdd, |toAdd|, w1, added) && |toAdd| <= |top|
    requires forall u :: u in toAdd <==> u in top && u !in was
    requires Gone(w1, FallenOut(was, top), w2) && KeepsRecords(w.cloud, w1.cloud)
    requires current == added + map u | u in was && u in top :: was[u]
    ensures Refreshed(w, capacity, was, top, w2, current)
  {
    hide Gone, Named, IsRunning, FallenOut, AllLabelled, KeepsRecords, Spares, WakesOnly;
    var gone := FallenOut(was, top);
    GoneStops(w1, gone, w2);
    assert toAdd[..|toAdd|] == toAdd;
    assert HasRoom(w, capacity, |top|) ==> HasRoom(w, capacity, |toAdd|);
    AddedServe(w, was, top, w1, added, w2);
    RecordedAre(was, top, added, current);
    GoneWakesNobody(w.cloud, Users(toAdd), w1, gone, w2);
    assert Users(toAdd) == Users(top) - was.Keys;
    forall x | IsRunning(w.cloud, x) && x !in gone && (x in w.pinned || HasRoom(w, capacity, |top|))
      ensures IsRunning(w2.cloud, x)
    {
      SparedServe(w, capacity, |toAdd|, w1, gone, w2, x);
    }
    forall u | u in current
      ensures u in top && current[u] == if u in was then was[u] else added[u]
    {
    }
  }

  /** The new users of the table are the added ones. */
  lemma RecordedAre(was: map<string, string>, top: seq<string>, added: map<string, string>,
                    current: map<string, string>)
    requires added.Keys !! was.Keys && current == added + map u | u in was && u in top :: was[u]
    ensures Recorded(current, current.Keys - was.Keys) == added.Values
  {
    forall x | x in added.Values
      ensures x in Recorded(current, current.Keys - was.Keys)
    {
      var u :| u in added && added[u] == x;
      assert u in current.Keys - was.Keys && current[u] == x;
    }
  }

  // ----- the manager --------------------------------------------------------------

  class WarmPoolManager {
    const pool: SandboxPool
    var current: map<string, string>

    constructor (pool: SandboxPool)
      ensures this.pool == pool && current == map[]
    {
      this.pool := pool;
      current := map[];
    }

    method PrewarmOne(u: string, tick: Tick, added: map<string, string>) returns (added': map<string, string>)
      requires pool.Valid()
      modifies pool, pool.orch.client, pool.orch.store
      ensures pool.Valid()
      ensures PrewarmStep(old(pool.View()), pool.capacity, u, tick, added, pool.View(), added')
    {
      var r, found := pool.GetOrResume(u, tick.newId, tick.now);
      added' := added;
      if r.Ok? {
        pool.Pin(r.value.id);
        added' := added'[u := r.value.id];
      }
      assert PrewarmedBy(old(pool.View()), pool.capacity, u, tick, added, found, pool.View(), added');
    }

    method Prewarm(toAdd: seq<string>, script: seq<Tick>, ghost before: int)
      returns (added: map<string, string>, ghost trail: Prewarming)
      requires pool.Valid() && |script| >= |toAdd| && Launch(pool.View(), before, script)
      modifies pool, pool.orch.client, pool.orch.store
      ensures pool.Valid()
      ensures OnTrack(old(pool.View()), pool.capacity, before, script, |toAdd|, pool.View())
      ensures Filled(old(pool.View()), pool.capacity, toAdd, |toAdd|, pool.View(), added)
      ensures PrewarmRun(old(pool.View()), pool.capacity, toAdd, script, |toAdd|, trail)
      ensures trail.now == pool.View() && trail.added == added
    {
      ghost var w := pool.View();
      added, trail := map[], Begun(w, map[]);
      var n := 0;
      StartPrewarms(w, pool.capacity, before, toAdd, script);
      while n < |toAdd|
        invariant 0 <= n <= |toAdd| && pool.Valid()
        invariant Prewarms(w, pool.capacity, before, toAdd, script, n, trail)
        invariant trail.now == pool.View() && trail.added == added
      {
        hide Prewarms, PrewarmStep, SandboxPool.View, SandboxPool.Valid, Launch;
        added := PrewarmOne(toAdd[n], script[n], added);
        OnePrewarms(w, pool.capacity, before, toAdd, script, n, trail, pool.View(), added);
        trail := Warmed(pool.View(), added, trail);
        n := n + 1;
      }
    }

    method ReleaseOne(id: string) returns (ghost holder: Option<string>)
      requires pool.Valid()
      modifies pool, pool.orch.client
      ensures pool.Valid() && StopsAt(old(pool.View()).lru, id, holder)
      ensures pool.View() == Dropped(old(pool.View()), id, holder)
    {
      pool.Unpin(id);
      var ok;
      ok, holder := pool.Hibernate(id);
    }

    /** Exactly the recorded sandboxes of these users are unpinned and stopped. */
    method Release(toRemove: set<string>, ghost now: int)
      requires pool.Valid() && toRemove <= current.Keys
      requires Agrees(pool.View()) && Ordered(pool.View(), now)
      modifies pool, pool.orch.client
      ensures pool.Valid() && Gone(old(pool.View()), Recorded(current, toRemove), pool.View())
      ensures Reaches(old(pool.View()), pool.capacity, now, now, pool.View())
    {
      hide Gone, Dropped, Agrees, Ordered, Reaches, SandboxPool.View, SandboxPool.Valid;
      ghost var w := pool.View();
      var todo := toRemove;
      assert Recorded(current, toRemove - todo) == {};
      GoneNone(w);
      ReachesItself(w, pool.capacity, now, now);
      while todo != {}
        invariant pool.Valid() && todo <= toRemove
        invariant Gone(w, Recorded(current, toRemove - todo), pool.View())
        invariant Reaches(w, pool.capacity, now, now, pool.View())
        decreases |todo|
      {
        var u :| u in todo;
        ghost var w1 := pool.View();
        var holder := ReleaseOne(current[u]);
        ReachesKeeps(w, pool.capacity, now, now, w1);
        DropReaches(w, pool.capacity, now, w1, current[u], holder);
        DropReleases(w1, current[u], holder);
        GoneTwice(w, Recorded(current, toRemove - todo), w1, {current[u]}, pool.View());
        assert Recorded(current, toRemove - todo) + {current[u]} == Recorded(current, toRemove - (todo - {u}));
        todo := todo - {u};
      }
      assert toRemove - {} == toRemove;
    }

    /** The users of `top` without a recorded sandbox, in order and with repetitions. */
    method Missing(top: seq<string>) returns (toAdd: seq<string>)
      ensures forall u :: u in toAdd <==> u in top && u !in current
      ensures |toAdd| <= |top| && IsMissing(top, current, toAdd)
    {
      toAdd := [];
      ghost var at: seq<int> := [];
      for i := 0 to |top|
        invariant Places(top[..i], current, toAdd, at)
        invariant forall u :: u in toAdd <==> u in top[..i] && u !in current
        invariant |toAdd| <= i
      {
        assert top[..i + 1] == top[..i] + [top[i]];
        if top[i] !in current {
          toAdd := toAdd + [top[i]];
          at := at + [i];
          assert at[|at| - 1] == i;
        }
      }
      assert top[..|top|] == top;
    }

    /** The new table, with the users of `top` that already had a recorded sandbox. */
    method Carry(top: seq<string>, added: map<string, string>) returns (kept: map<string, string>)
      ensures kept == added + map u | u in current && u in top :: current[u]
    {
      kept := added;
      for i := 0 to |top|
        invariant kept == added + map u | u in current && u in top[..i] :: current[u]
      {
        assert top[..i + 1] == top[..i] + [top[i]];
        if top[i] in current {
          kept := kept[top[i] := current[top[i]]];
        }
      }
      assert top[..|top|] == top;
    }

    /**
      The missing users are prewarmed in the order of the list, and only then those who fell out are
      released. `now` is the last clock reading, if there was one.
     */
    method Refresh(top: Result<seq<string>>, script: seq<Tick>, ghost before: int)
      returns (ok: bool, ghost now: int, ghost toAdd: seq<string>, ghost trail: Prewarming)
      requires pool.Valid() && (top.Ok? ==> |script| >= |top.value|)
      requires Launch(pool.View(), before, script) && AllLabelled(pool.View().cloud, current)
      modifies this, pool, pool.orch.client, pool.orch.store
      ensures pool.Valid() && ok == top.Ok?
      ensures now == before || exists i :: 0 <= i < |script| && script[i].now == now
      ensures RefreshedBy(old(pool.View()), pool.capacity, before, old(current), top, now, pool.View(), current)
      ensures top.Ok? ==>
                && IsMissing(top.value, old(current), toAdd) && |toAdd| <= |script|
                && PrewarmRun(old(pool.View()), pool.capacity, toAdd, script, |toAdd|, trail)
                && Gone(trail.now, FallenOut(old(current), top.value), pool.View())
    {
      hide Gone, Filled, PrewarmRun, IsMissing, Launch, AllLabelled, Reaches, Refreshed, KeepsRecords;
      hide SandboxPool.View, SandboxPool.Valid;
      ghost var w, was := pool.View(), current;
      if top.Err? {
        ReachesItself(w, pool.capacity, before, before);
        return false, before, [], Begun(w, was);
      }
      var missing := Missing(top.value);
      toAdd := missing;
      var toRemove := set u | u in current && u !in top.value;
      var added;
      added, trail := Prewarm(missing, script, before);
      now := ReadBy(before, script, |toAdd|);
      ghost var w1 := pool.View();
      OnTrackKeeps(w, pool.capacity, before, script, |toAdd|, w1);
      var kept := Carry(top.value, added);
      Release(toRemove, now);
      ReachesKeepsRecords(w, pool.capacity, before, now, w1);
      ReachesThen(w, pool.capacity, before, now, w1, now, pool.View());
      assert Recorded(was, toRemove) == FallenOut(was, top.value);
      MakesRefresh(w, pool.capacity, was, top.value, toAdd, w1, added, pool.View(), kept);
      current := kept;
      return true, now, toAdd, trail;
    }
  }
}
