/**
  What a driver of the pool gets from outside, one line per pool operation: the provider's next
  identifier and the clock's reading.
 */
module PoolScript {
  import opened Wrappers
  import opened Provider
  import opened Orchestration
  import opened OneLive
  import opened PoolSpec
  import opened PoolInvariant

  datatype Tick = Tick(newId: string, now: int)

  /** Identifiers are new and never repeat; the clock starts at `before` and never goes back. */
  ghost predicate GoodScript(script: seq<Tick>, c: Cloud, before: int) {
    && (forall i :: 0 <= i < |script| ==> NewId(c, script[i].newId) && before <= script[i].now)
    && (forall i, j :: 0 <= i < j < |script| ==> script[i].newId != script[j].newId && script[i].now <= script[j].now)
  }

  ghost function ReadBy(before: int, script: seq<Tick>, n: nat): int
    requires n <= |script|
  {
    if n == 0 then before else script[n - 1].now
  }

  /** Records are never dropped or relabelled; new ones only carry identifiers in `ids`. */
  ghost predicate Grown(c: Cloud, c': Cloud, ids: set<string>) {
    && (forall id :: id in c.sandboxes ==> id in c'.sandboxes && c'.UserOf(id) == c.UserOf(id))
    && (forall id :: id in c'.sandboxes ==> id in c.sandboxes || id in ids)
  }

  function Ids(script: seq<Tick>, n: nat): set<string>
    requires n <= |script|
  {
    set i | 0 <= i < n :: script[i].newId
  }

  lemma ResumedGrows(c: Cloud, u: string, found: Option<string>, newId: string)
    requires NewId(c, newId) && (found.Some? ==> found.value in c.sandboxes)
    ensures Grown(c, Resumed(c, u, found, newId).0, {newId})
  {
  }

  lemma GrownTwice(c0: Cloud, c1: Cloud, c2: Cloud, a: set<string>, b: set<string>)
    requires Grown(c0, c1, a) && Grown(c1, c2, b)
    ensures Grown(c0, c2, a + b)
  {
  }

  lemma PoolResumedGrows(w: World, capacity: int, u: string, found: Option<string>, newId: string, now: int)
    requires Enabled(w.cloud, Resume(u, found, newId))
    ensures Grown(w.cloud, PoolResumed(w, capacity, u, found, newId, now).0.cloud, {newId})
    ensures PoolResumed(w, capacity, u, found, newId, now).0.pinned == w.pinned
  {
    ResumedGrows(w.cloud, u, found, newId);
  }

  lemma ClearedGrows(w: World, u: string, id: string)
    ensures Grown(w.cloud, Cleared(w, u, id).cloud, {})
  {
  }

  lemma ClearedKeepsNew(w: World, u: string, id: string, newId: string)
    requires NewId(w.cloud, newId)
    ensures NewId(Cleared(w, u, id).cloud, newId)
  {
  }

  lemma RecreateGrows(w: World, capacity: int, u: string, id: string, found: Option<string>, newId: string, now: int)
    requires Enabled(Cleared(w, u, id).cloud, Resume(u, found, newId))
    ensures Grown(w.cloud, PoolResumed(Cleared(w, u, id), capacity, u, found, newId, now).0.cloud, {newId})
    ensures PoolResumed(Cleared(w, u, id), capacity, u, found, newId, now).0.pinned == w.pinned
  {
    var wc := Cleared(w, u, id);
    ClearedGrows(w, u, id);
    PoolResumedGrows(wc, capacity, u, found, newId, now);
    GrownTwice(w.cloud, wc.cloud, PoolResumed(wc, capacity, u, found, newId, now).0.cloud, {}, {newId});
  }

  /** A driver's loop after `n` ticks: a run of pool operations has led there. */
  ghost predicate OnTrack(w: World, capacity: int, before: int, script: seq<Tick>, n: nat, w': World) {
    && n <= |script|
    && Reaches(w, capacity, before, ReadBy(before, script, n), w')
    && Grown(w.cloud, w'.cloud, Ids(script, n)) && w.pinned <= w'.pinned
  }

  ghost predicate Launch(w: World, before: int, script: seq<Tick>) {
    Agrees(w) && Ordered(w, before) && GoodScript(script, w.cloud, before)
  }

  lemma StartOnTrack(w: World, capacity: int, before: int, script: seq<Tick>)
    ensures OnTrack(w, capacity, before, script, 0, w)
  {
    ReachesItself(w, capacity, before, before);
  }

  lemma OnTrackKeeps(w: World, capacity: int, before: int, script: seq<Tick>, n: nat, w': World)
    requires Launch(w, before, script) && OnTrack(w, capacity, before, script, n, w')
    ensures before <= ReadBy(before, script, n) && Reaches(w, capacity, before, ReadBy(before, script, n), w')
    ensures Agrees(w') && Ordered(w', ReadBy(before, script, n))
  {
    ReachesKeeps(w, capacity, before, ReadBy(before, script, n), w');
  }

  lemma NextIsNew(w: World, capacity: int, before: int, script: seq<Tick>, n: nat, w': World)
    requires Launch(w, before, script) && 0 < n <= |script| && OnTrack(w, capacity, before, script, n - 1, w')
    ensures NewId(w'.cloud, script[n - 1].newId) && ReadBy(before, script, n - 1) <= script[n - 1].now && Agrees(w')
  {
    OnTrackKeeps(w, capacity, before, script, n - 1, w');
  }

  lemma OneMoreTick(w: World, before: int, script: seq<Tick>, n: nat, w1: World, w2: World)
    requires 0 < n <= |script| && Grown(w.cloud, w1.cloud, Ids(script, n - 1))
    requires Grown(w1.cloud, w2.cloud, {script[n - 1].newId})
    ensures Grown(w.cloud, w2.cloud, Ids(script, n))
  {
    GrownTwice(w.cloud, w1.cloud, w2.cloud, Ids(script, n - 1), {script[n - 1].newId});
    assert Ids(script, n) == Ids(script, n - 1) + {script[n - 1].newId};
  }

  /** A get-or-resume on tick n-1 keeps a driver on track. */
  lemma ResumeOnTrack(w: World, capacity: int, before: int, script: seq<Tick>, n: nat, w1: World,
                      u: string, found: Option<string>)
    requires Launch(w, before, script) && 0 < n <= |script| && OnTrack(w, capacity, before, script, n - 1, w1)
    requires SearchAnswer(w1.cloud.sandboxes, u, found)
    ensures Agrees(w1) && NewId(w1.cloud, script[n - 1].newId)
    ensures OnTrack(w, capacity, before, script, n,
                    PoolResumed(w1, capacity, u, found, script[n - 1].newId, script[n - 1].now).0)
  {
    NextIsNew(w, capacity, before, script, n, w1);
    var tick := script[n - 1];
    var step := PoolStep.GetOrResume(u, found, tick.newId);
    ReachesOn(w, capacity, before, ReadBy(before, script, n - 1), w1, step, tick.now);
    PoolResumedGrows(w1, capacity, u, found, tick.newId, tick.now);
    OneMoreTick(w, before, script, n, w1, PoolNext(w1, capacity, step, tick.now));
  }

  /** So does a forced recreation of one of the user's own sandboxes. */
  lemma RecreateOnTrack(w: World, capacity: int, before: int, script: seq<Tick>, n: nat, w1: World,
                        u: string, id: string, found: Option<string>)
    requires Launch(w, before, script) && 0 < n <= |script| && OnTrack(w, capacity, before, script, n - 1, w1)
    requires id in w.cloud.sandboxes && w.cloud.UserOf(id) == u
    requires SearchAnswer(Cleared(w1, u, id).cloud.sandboxes, u, found)
    ensures OnTrack(w, capacity, before, script, n,
                    PoolResumed(Cleared(w1, u, id), capacity, u, found, script[n - 1].newId, script[n - 1].now).0)
  {
    NextIsNew(w, capacity, before, script, n, w1);
    ClearedKeepsNew(w1, u, id, script[n - 1].newId);
    var tick := script[n - 1];
    var step := PoolStep.Recreate(u, id, found, tick.newId);
    ReachesOn(w, capacity, before, ReadBy(before, script, n - 1), w1, step, tick.now);
    RecreateGrows(w1, capacity, u, id, found, tick.newId, tick.now);
    OneMoreTick(w, before, script, n, w1, PoolNext(w1, capacity, step, tick.now));
  }

  /** A tick that is not used. */
  lemma IdleOnTrack(w: World, capacity: int, before: int, script: seq<Tick>, n: nat, w1: World)
    requires Launch(w, before, script) && 0 < n <= |script| && OnTrack(w, capacity, before, script, n - 1, w1)
    ensures OnTrack(w, capacity, before, script, n, w1)
  {
    NextIsNew(w, capacity, before, script, n, w1);
    ReachesItself(w1, capacity, ReadBy(before, script, n - 1), script[n - 1].now);
    ReachesThen(w, capacity, before, ReadBy(before, script, n - 1), w1, script[n - 1].now, w1);
    assert Grown(w1.cloud, w1.cloud, {script[n - 1].newId});
    OneMoreTick(w, before, script, n, w1, w1);
  }
}
