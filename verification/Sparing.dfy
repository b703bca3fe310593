/**
  What the pool's operations leave running: eviction passes over pinned sandboxes, and with
  room it takes none (go/internal/orchestrator/pool.go).
 */
module Sparing {
  import opened Wrappers
  import opened Orchestration
  import opened OneLive
  import opened PoolSpec
  import opened PoolInvariant

  /** The user's live sandbox, and the store knows it. */
  predicate Named(c: Cloud, u: string, id: string) {
    Owns(c, u, id) && u in c.store && c.store[u] == id
  }

  predicate HasRoom(w: World, capacity: int, n: nat) {
    |w.lru| + n <= capacity
  }

  /** At most `n` more entries; what was pinned keeps running, and with room for them everything does. */
  ghost predicate Spares(w: World, capacity: int, n: nat, w': World) {
    && w.pinned <= w'.pinned && |w'.lru| <= |w.lru| + n
    && (forall x :: IsRunning(w.cloud, x) && (x in w.pinned || HasRoom(w, capacity, n)) ==> IsRunning(w'.cloud, x))
  }

  /** Nobody else's sandbox starts to run. */
  ghost predicate WakesOnly(c: Cloud, users: set<string>, c': Cloud) {
    forall x :: IsRunning(c', x) ==> IsRunning(c, x) || c'.UserOf(x) in users
  }

  lemma WakesThen(c: Cloud, first: set<string>, c1: Cloud, second: set<string>, c2: Cloud)
    requires WakesOnly(c, first, c1) && WakesOnly(c1, second, c2) && KeepsRecords(c1, c2)
    ensures WakesOnly(c, first + second, c2)
  {
    forall x | IsRunning(c2, x) && !IsRunning(c, x)
      ensures c2.UserOf(x) in first + second
    {
      assert IsRunning(c1, x) ==> c1.UserOf(x) == c2.UserOf(x);
    }
  }

  lemma SparesThen(w: World, capacity: int, n: nat, w1: World, m: nat, w2: World)
    requires Spares(w, capacity, n, w1) && Spares(w1, capacity, m, w2)
    ensures Spares(w, capacity, n + m, w2)
  {
    assert HasRoom(w, capacity, n + m) ==> HasRoom(w, capacity, n) && HasRoom(w1, capacity, m);
  }

  lemma AdmitSpares(w: World, u: string, found: Option<string>, newId: string, now: int)
    requires AgreesBut(w, u) && Enabled(w.cloud, Resume(u, found, newId))
    ensures var w' := Admitted(w, u, found, newId, now).0;
            && Agrees(w') && w'.pinned == w.pinned
            && (forall x :: IsRunning(w.cloud, x) ==> IsRunning(w'.cloud, x))
  {
    ResumeDelivers(w.cloud, u, found, newId);
    AdmittedAgrees(w, u, found, newId, now);
  }

  /** Resume and touch stop nothing; they give the user its one sandbox, running. */
  lemma AdmitDelivers(w: World, u: string, found: Option<string>, newId: string, now: int)
    requires Agrees(w) && Enabled(w.cloud, Resume(u, found, newId))
    ensures var (w', r) := Admitted(w, u, found, newId, now);
            && Agrees(w') && w'.pinned == w.pinned && |w'.lru| <= |w.lru| + 1
            && (forall x :: IsRunning(w.cloud, x) ==> IsRunning(w'.cloud, x)) && WakesOnly(w.cloud, {u}, w'.cloud)
            && (ValidUserId(u) ==> r.Ok?)
            && (r.Ok? ==> Named(w'.cloud, u, r.value.id) && IsRunning(w'.cloud, r.value.id))
  {
    ResumeDelivers(w.cloud, u, found, newId);
    AdmitSpares(w, u, found, newId, now);
    WithoutUpToIsShorter(w.lru, u, |w.lru|);
  }

  /** Whoever was named stays named, the resumed user included. */
  lemma AdmitKeepsNames(w: World, u: string, found: Option<string>, newId: string, now: int, v: string, id: string)
    requires Good(w.cloud) && Enabled(w.cloud, Resume(u, found, newId)) && Named(w.cloud, v, id)
    ensures var (w', r) := Admitted(w, u, found, newId, now);
            Named(w'.cloud, v, id) && (u == v ==> r.Ok? && r.value.id == id)
  {
    ResumeDelivers(w.cloud, u, found, newId);
    var (w', r) := Admitted(w, u, found, newId, now);
    assert Owns(w'.cloud, v, id);
    assert u == v && r.Ok? ==> Owns(w'.cloud, v, r.value.id);
    assert u == v ==> HasLive(w.cloud, u) && u != "";
  }

  lemma EvictionSpares(w: World, capacity: int)
    requires Agrees(w)
    ensures Spares(w, capacity, 0, Evicted(w, capacity)) && Evicted(w, capacity).pinned == w.pinned
    ensures forall u, id :: Named(w.cloud, u, id) ==> Named(Evicted(w, capacity).cloud, u, id)
    ensures |w.lru| <= capacity ==> Evicted(w, capacity) == w
    ensures WakesOnly(w.cloud, {}, Evicted(w, capacity).cloud) && KeepsRecords(w.cloud, Evicted(w, capacity).cloud)
  {
    VictimIndexIs(w.lru, w.pinned);
    if |w.lru| > capacity && VictimIndex(w.lru, w.pinned) < |w.lru| {
      EvictionOnlyDrops(w, capacity);
    }
  }

  lemma ResumeSpares(w: World, capacity: int, u: string, found: Option<string>, newId: string, now: int)
    requires Agrees(w) && Enabled(w.cloud, Resume(u, found, newId))
    ensures var (w', r) := PoolResumed(w, capacity, u, found, newId, now);
            && Spares(w, capacity, 1, w') && w'.pinned == w.pinned && WakesOnly(w.cloud, {u}, w'.cloud)
            && (ValidUserId(u) ==> r.Ok?)
            && (r.Ok? ==> Named(w'.cloud, u, r.value.id))
            && (r.Ok? && HasRoom(w, capacity, 1) ==> IsRunning(w'.cloud, r.value.id))
            && (forall v, id :: Named(w.cloud, v, id) ==>
                  Named(w'.cloud, v, id) && (u == v ==> r.Ok? && r.value.id == id))
  {
    hide Admitted, Evicted;
    var (w1, r) := Admitted(w, u, found, newId, now);
    AdmitDelivers(w, u, found, newId, now);
    EvictionSpares(w1, capacity);
    assert Spares(w, capacity, 1, w1);
    SparesThen(w, capacity, 1, w1, 0, Evicted(w1, capacity));
    WakesThen(w.cloud, {u}, w1.cloud, {}, Evicted(w1, capacity).cloud);
    assert {u} + {} == {u};
    forall v, id | Named(w.cloud, v, id)
      ensures Named(w1.cloud, v, id) && (u == v ==> r.Ok? && r.value.id == id)
    {
      AdmitKeepsNames(w, u, found, newId, now, v, id);
    }
  }
}
