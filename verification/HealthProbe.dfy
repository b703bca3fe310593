/**
  The health-probe loop over the pool (go/internal/orchestrator/health_probe.go).
  The prober is a parameter; a scan reports, as a ghost, the probes it made.
 */
module HealthProbe {
  import opened Wrappers
  import opened Provider
  import opened Orchestration
  import opened OneLive
  import opened PoolSpec
  import opened PoolInvariant
  import opened PoolScript
  import opened Sparing
  import opened Pool
  import opened ProbeAccounting

  /** The sandbox has failed as many probes in a row as the loop puts up with, this one included. */
  predicate IsDue(s: ProbeStats, id: string, alive: bool, grace: int) {
    !alive && s.Streak(id) + 1 >= grace
  }

  /** The entry is dropped, the sandbox destroyed and the user resumed, which worked or not. */
  ghost predicate RecreatedBy(w: World, capacity: int, e: Entry, tick: Tick, found: Option<string>, w': World,
                              ok: bool) {
    var wc := Cleared(w, e.user, e.id);
    && SearchAnswer(wc.cloud.sandboxes, e.user, found)
    && var (w2, r) := PoolResumed(wc, capacity, e.user, found, tick.newId, tick.now);
       w' == w2 && ok == r.Ok?
  }

  /** One item of a scan recreates the item's sandbox when that is due, and leaves the pool alone when not. */
  ghost predicate ItemEffect(w: World, capacity: int, e: Entry, tick: Tick, due: bool, w': World, recreated: bool) {
    if due then exists found :: RecreatedBy(w, capacity, e, tick, found, w', recreated)
    else w' == w && !recreated
  }

  /** What a scan goes through, latest first: each probe, the pool after it and the counters after it. */
  datatype Trail =
    | Start(now: World, stats: ProbeStats)
    | Went(now: World, stats: ProbeStats, event: ProbeEvent, before: Trail)
  {
    function Events(): History {
      if Start? then NoProbes else Then(before.Events(), event)
    }
  }

  ghost predicate Went1(capacity: int, grace: int, e: Entry, alive: bool, tick: Tick, t: Trail) {
    && t.Went? && t.event.id == e.id && t.event.alive == alive
    && t.stats == Recorded(t.before.stats, t.event)
    && ItemEffect(t.before.now, capacity, e, tick, IsDue(t.before.stats, e.id, alive, grace), t.now, t.event.recreated)
  }

  /** The first `n` of the snapshot are probed once each, in order. */
  ghost predicate ScanRun(w: World, s: ProbeStats, capacity: int, grace: int, alive: string -> bool,
                          script: seq<Tick>, n: nat, t: Trail)
    requires n <= |w.lru| && n <= |script|
  {
    if n == 0 then t == Start(w, s)
    else Went1(capacity, grace, w.lru[n - 1], alive(w.lru[n - 1].id), script[n - 1], t)
         && ScanRun(w, s, capacity, grace, alive, script, n - 1, t.before)
  }

  class HealthProbeLoop {
    const pool: SandboxPool
    const failureGrace: int
    var stats: ProbeStats

    constructor (pool: SandboxPool, failureGrace: int)
      ensures this.pool == pool && this.failureGrace == failureGrace && stats == NO_PROBES
    {
      this.pool := pool;
      this.failureGrace := failureGrace;
      stats := NO_PROBES;
    }

    method ForceRecreate(u: string, id: string, tick: Tick) returns (ok: bool, ghost found: Option<string>)
      requires pool.Valid()
      modifies pool, pool.orch.client, pool.orch.store
      ensures pool.Valid()
      ensures RecreatedBy(old(pool.View()), pool.capacity, Entry(u, id), tick, found, pool.View(), ok)
    {
      pool.Clear(u, id);
      var r;
      r, found := pool.GetOrResume(u, tick.newId, tick.now);
      ok := r.Ok?;
    }

    method CountProbe(id: string, alive: bool) returns (count: nat)
      modifies this`stats
      ensures stats == Recorded(old(stats), ProbeEvent(id, alive, false))
      ensures count == if alive then 0 else old(stats).Streak(id) + 1
    {
      stats := stats.(probes := stats.probes + 1);
      if alive {
        stats := stats.(streaks := stats.streaks - {id});
        return 0;
      }
      count := stats.Streak(id) + 1;
      stats := stats.(streaks := stats.streaks[id := count], failures := stats.failures + 1);
    }

    method CountRecreate(id: string, ghost before: ProbeStats)
      requires stats == Recorded(before, ProbeEvent(id, false, false))
      modifies this`stats
      ensures stats == Recorded(before, ProbeEvent(id, false, true))
    {
      stats := stats.(recreates := stats.recreates + 1, streaks := stats.streaks - {id});
      assert before.streaks[id := before.Streak(id) + 1] - {id} == before.streaks - {id};
    }

    /** One probe and what follows it. */
    method ProbeItem(u: string, id: string, alive: bool, tick: Tick) returns (recreated: bool)
      requires pool.Valid()
      modifies this`stats, pool, pool.orch.client, pool.orch.store
      ensures pool.Valid()
      ensures stats == Recorded(old(stats), ProbeEvent(id, alive, recreated))
      ensures ItemEffect(old(pool.View()), pool.capacity, Entry(u, id), tick,
                         IsDue(old(stats), id, alive, failureGrace), pool.View(), recreated)
    {
      recreated := false;
      var count := CountProbe(id, alive);
      if alive || count < failureGrace {
        return;
      }
      ghost var found;
      recreated, found := ForceRecreate(u, id, tick);
      if recreated {
        CountRecreate(id, old(stats));
      }
    }

    /**
      One scan of a snapshot of the active set: every entry is probed once, in list order.
     */
    method ScanOnce(alive: string -> bool, script: seq<Tick>)
      returns (recreated: seq<string>, ghost trail: Trail)
      requires pool.Valid() && |script| >= |pool.View().lru|
      modifies this`stats, pool, pool.orch.client, pool.orch.store
      ensures pool.Valid()
      ensures var w := old(pool.View());
              ScanRun(w, old(stats), pool.capacity, failureGrace, alive, script, |w.lru|, trail)
      ensures trail.now == pool.View() && trail.stats == stats && recreated == trail.Events().Recreated()
    {
      hide ItemEffect, Recorded, SandboxPool.Valid, SandboxPool.View;
      ghost var w := pool.View();
      var items := pool.ActiveItems();
      recreated, trail := [], Start(w, stats);
      var n := 0;
      while n < |items|
        invariant 0 <= n <= |items| && pool.Valid()
        invariant ScanRun(w, old(stats), pool.capacity, failureGrace, alive, script, n, trail)
        invariant trail.now == pool.View() && trail.stats == stats && recreated == trail.Events().Recreated()
      {
        var item := items[n].entry;
        var again := ProbeItem(item.user, item.id, alive(item.id), script[n]);
        if again {
          recreated := recreated + [item.id];
        }
        trail := Went(pool.View(), stats, ProbeEvent(item.id, alive(item.id), again), trail);
        n := n + 1;
      }
    }
  }

  /** A scan's counters are those of its probes, and nothing is recreated within the grace. */
  lemma {:induction false} ScanCounts(w: World, s: ProbeStats, capacity: int, grace: int, alive: string -> bool,
                                      script: seq<Tick>, n: nat, t: Trail)
    requires n <= |w.lru| && n <= |script| && ScanRun(w, s, capacity, grace, alive, script, n, t)
    ensures t.stats == After(s, t.Events()) && Possible(s, t.Events(), grace) && t.Events().Length() == n
  {
    if n > 0 {
      ScanCounts(w, s, capacity, grace, alive, script, n - 1, t.before);
    }
  }

  /** Between a recreation's two halves its user has no live sandbox, and nobody else is affected. */
  lemma ClearedLeavesNone(w: World, u: string, id: string)
    requires Agrees(w) && Named(w.cloud, u, id)
    ensures var wc := Cleared(w, u, id);
            && AgreesBut(wc, u) && u !in wc.cloud.store && !HasLive(wc.cloud, u)
            && id in wc.cloud.sandboxes && wc.cloud.sandboxes[id].state == Destroyed
            && wc.cloud.sandboxes.Keys == w.cloud.sandboxes.Keys && wc.pinned == w.pinned
            && (forall v, x :: v != u && Named(w.cloud, v, x) ==> Named(wc.cloud, v, x))
            && (forall x :: x != id && IsRunning(w.cloud, x) ==> IsRunning(wc.cloud, x))
  {
    ClearedAgrees(w, u, id);
    forall x | Owns(Cleared(w, u, id).cloud, u, x)
      ensures false
    {
      assert Owns(w.cloud, u, x);
    }
  }

  lemma EvictedStaysDestroyed(w: World, capacity: int, id: string)
    requires id in w.cloud.sandboxes && w.cloud.sandboxes[id].state == Destroyed
    ensures var c := Evicted(w, capacity).cloud; id in c.sandboxes && c.sandboxes[id].state == Destroyed
  {
  }

  /** A new sandbox for a user that has none. */
  lemma CreatedAfresh(w: World, u: string, found: Option<string>, newId: string, now: int)
    requires AgreesBut(w, u) && Enabled(w.cloud, Resume(u, found, newId)) && u !in w.cloud.store && !HasLive(w.cloud, u)
    ensures var (w', r) := Admitted(w, u, found, newId, now);
            && Agrees(w') && (r.Ok? <==> ValidUserId(u)) && (r.Ok? ==> Named(w'.cloud, u, newId))
            && (forall id :: id in w.cloud.sandboxes ==>
                  id in w'.cloud.sandboxes && w'.cloud.sandboxes[id] == w.cloud.sandboxes[id])
            && w'.pinned == w.pinned
  {
    AdmittedAgrees(w, u, found, newId, now);
    ResumeDelivers(w.cloud, u, found, newId);
    assert found.Some? ==> Owns(w.cloud, u, found.value);
  }

  /**
    What a recreation amounts to: the sandbox is destroyed, and exactly a user who may have one
    gets another, which the store names. Nobody else loses a sandbox, and pinned ones run on.
   */
  lemma RecreationReplaces(w: World, capacity: int, e: Entry, tick: Tick, found: Option<string>, w': World, ok: bool)
    requires Agrees(w) && Named(w.cloud, e.user, e.id) && NewId(w.cloud, tick.newId)
    requires RecreatedBy(w, capacity, e, tick, found, w', ok)
    ensures e.id in w'.cloud.sandboxes && w'.cloud.sandboxes[e.id].state == Destroyed
    ensures ok <==> ValidUserId(e.user)
    ensures ok ==> Named(w'.cloud, e.user, tick.newId)
    ensures forall v, x :: v != e.user && Named(w.cloud, v, x) ==> Named(w'.cloud, v, x)
    ensures forall x :: x != e.id && x in w.pinned && IsRunning(w.cloud, x) ==> IsRunning(w'.cloud, x)
    ensures w'.pinned == w.pinned
  {
    hide Agrees, AgreesBut, Named, Evicted, Cleared, HasLive;
    var wc := Cleared(w, e.user, e.id);
    ClearedLeavesNone(w, e.user, e.id);
    CreatedAfresh(wc, e.user, found, tick.newId, tick.now);
    var w1 := Admitted(wc, e.user, found, tick.newId, tick.now).0;
    EvictionSpares(w1, capacity);
    EvictedStaysDestroyed(w1, capacity, e.id);
    forall v, x | v != e.user && Named(w.cloud, v, x)
      ensures Named(w1.cloud, v, x)
    {
      ResumeKeepsNames(wc, e.user, found, tick.newId, tick.now, v, x);
    }
  }

  lemma ResumeKeepsNames(w: World, u: string, found: Option<string>, newId: string, now: int, v: string, id: string)
    requires AgreesBut(w, u) && Enabled(w.cloud, Resume(u, found, newId)) && Named(w.cloud, v, id)
    ensures Named(Admitted(w, u, found, newId, now).0.cloud, v, id)
  {
    AdmitKeepsNames(w, u, found, newId, now, v, id);
  }

  lemma ItemOnTrack(w: World, capacity: int, before: int, script: seq<Tick>, n: nat, w1: World, due: bool, w2: World,
                    recreated: bool)
    requires Launch(w, before, script) && 0 < n <= |w.lru| && n <= |script|
             && OnTrack(w, capacity, before, script, n - 1, w1)
    requires ItemEffect(w1, capacity, w.lru[n - 1], script[n - 1], due, w2, recreated)
    ensures OnTrack(w, capacity, before, script, n, w2)
  {
    var e := w.lru[n - 1];
    assert e in w.lru && Backed(w.cloud, e);
    if due {
      var found :| RecreatedBy(w1, capacity, e, script[n - 1], found, w2, recreated);
      RecreateOnTrack(w, capacity, before, script, n, w1, e.user, e.id, found);
    } else {
      IdleOnTrack(w, capacity, before, script, n, w1);
    }
  }

  /** Whatever it recreates on the way, a scan is a run of pool operations, so it keeps active equal to running. */
  lemma {:induction false} ScanIsARun(w: World, s: ProbeStats, capacity: int, grace: int, alive: string -> bool,
                                      script: seq<Tick>, n: nat, t: Trail, before: int)
    requires n <= |w.lru| && n <= |script| && ScanRun(w, s, capacity, grace, alive, script, n, t)
    requires Launch(w, before, script)
    ensures OnTrack(w, capacity, before, script, n, t.now)
  {
    if n == 0 {
      StartOnTrack(w, capacity, before, script);
    } else {
      ScanIsARun(w, s, capacity, grace, alive, script, n - 1, t.before, before);
      ItemOnTrack(w, capacity, before, script, n, t.before.now,
                  IsDue(t.before.stats, w.lru[n - 1].id, alive(w.lru[n - 1].id), grace),
                  t.now, t.event.recreated);
    }
  }

  /** The sandbox is destroyed, and exactly a user who may have one gets another, which the store names. */
  ghost predicate Replaced(w': World, e: Entry, tick: Tick, recreated: bool) {
    && e.id in w'.cloud.sandboxes && w'.cloud.sandboxes[e.id].state == Destroyed
    && (recreated <==> ValidUserId(e.user)) && (recreated ==> Named(w'.cloud, e.user, tick.newId))
  }

  /** A recreation, or nothing. */
  lemma ItemReplaces(w: World, capacity: int, e: Entry, tick: Tick, due: bool, w': World, recreated: bool)
    requires Agrees(w) && Named(w.cloud, e.user, e.id) && NewId(w.cloud, tick.newId)
    requires ItemEffect(w, capacity, e, tick, due, w', recreated)
    ensures if due then Replaced(w', e, tick, recreated) else w' == w && !recreated
    ensures forall v, x :: v != e.user && Named(w.cloud, v, x) ==> Named(w'.cloud, v, x)
    ensures forall x :: (due ==> x != e.id) && x in w.pinned && IsRunning(w.cloud, x) ==> IsRunning(w'.cloud, x)
    ensures w'.pinned == w.pinned
  {
    hide Agrees, Named, IsRunning, Cleared, PoolResumed;
    if due {
      var found :| RecreatedBy(w, capacity, e, tick, found, w', recreated);
      RecreationReplaces(w, capacity, e, tick, found, w', recreated);
    }
  }

  lemma SnapshotIsNamed(w: World)
    requires Agrees(w)
    ensures forall j :: 0 <= j < |w.lru| ==> Named(w.cloud, w.lru[j].user, w.lru[j].id)
    ensures forall i, j :: 0 <= i < j < |w.lru| ==> w.lru[i].user != w.lru[j].user
  {
    assert forall j :: 0 <= j < |w.lru| ==> w.lru[j] in w.lru && Backed(w.cloud, w.lru[j]);
  }

  /** Where a scan stands before its n-th entry. */
  lemma ScanStands(w: World, s: ProbeStats, capacity: int, grace: int, alive: string -> bool,
                   script: seq<Tick>, n: nat, t: Trail, before: int)
    requires 0 < n <= |w.lru| && n <= |script| && ScanRun(w, s, capacity, grace, alive, script, n, t)
    requires Launch(w, before, script)
    ensures t.Went?
    ensures var e, w1 := w.lru[n - 1], t.before.now;
            && Agrees(w) && Agrees(w1) && NewId(w1.cloud, script[n - 1].newId)
            && ScanRun(w, s, capacity, grace, alive, script, n - 1, t.before)
            && ItemEffect(w1, capacity, e, script[n - 1], IsDue(t.before.stats, e.id, alive(e.id), grace), t.now,
                          t.event.recreated)
  {
    ScanIsARun(w, s, capacity, grace, alive, script, n - 1, t.before, before);
    hide Agrees, Ordered, GoodScript, OnTrack, ItemEffect;
    NextIsNew(w, capacity, before, script, n, t.before.now);
  }

  /** Pins stay, so does every sandbox whose turn has not come, and what is pinned and answers runs on. */
  lemma {:induction false} ScanLeaves(w: World, s: ProbeStats, capacity: int, grace: int, alive: string -> bool,
                                      script: seq<Tick>, n: nat, t: Trail, before: int)
    requires n <= |w.lru| && n <= |script| && ScanRun(w, s, capacity, grace, alive, script, n, t)
    requires Launch(w, before, script)
    ensures t.now.pinned == w.pinned
    ensures forall j :: n <= j < |w.lru| ==> Named(t.now.cloud, w.lru[j].user, w.lru[j].id)
    ensures forall x :: x in w.pinned && IsRunning(w.cloud, x) && alive(x) ==> IsRunning(t.now.cloud, x)
  {
    SnapshotIsNamed(w);
    if n > 0 {
      hide Agrees, Launch, ScanRun, Named, IsRunning, ItemEffect, Replaced, NewId;
      var e := w.lru[n - 1];
      ScanStands(w, s, capacity, grace, alive, script, n, t, before);
      ScanLeaves(w, s, capacity, grace, alive, script, n - 1, t.before, before);
      ItemReplaces(t.before.now, capacity, e, script[n - 1],
                   IsDue(t.before.stats, e.id, alive(e.id), grace), t.now, t.event.recreated);
    }
  }

  /** What a scan does about its n-th entry: a recreation when that is due, and nothing otherwise. */
  lemma ScanReplaces(w: World, s: ProbeStats, capacity: int, grace: int, alive: string -> bool,
                     script: seq<Tick>, n: nat, t: Trail, before: int)
    requires 0 < n <= |w.lru| && n <= |script| && ScanRun(w, s, capacity, grace, alive, script, n, t)
    requires Launch(w, before, script)
    ensures t.Went?
    ensures var e := w.lru[n - 1];
            if !alive(e.id) && t.before.stats.Streak(e.id) + 1 >= grace
            then Replaced(t.now, e, script[n - 1], t.event.recreated)
            else t.now == t.before.now && !t.event.recreated
  {
    hide Agrees, Launch, ScanRun, Named, IsRunning, ItemEffect, Replaced, NewId;
    var e := w.lru[n - 1];
    ScanStands(w, s, capacity, grace, alive, script, n, t, before);
    ScanLeaves(w, s, capacity, grace, alive, script, n - 1, t.before, before);
    ItemReplaces(t.before.now, capacity, e, script[n - 1],
                 IsDue(t.before.stats, e.id, alive(e.id), grace), t.now, t.event.recreated);
  }
}
