/**
  The idle-hibernate scan over the pool
  (go/internal/orchestrator/hibernate.go).
 */
module Hibernation {
  import opened Wrappers
  import opened PoolSpec
  import opened PoolInvariant
  import opened Pool

  const DEFAULT_IDLE := 300

  function ThresholdFor(thresholds: map<string, int>, tier: string): int {
    if tier != "" && tier in thresholds then thresholds[tier]
    else if "default" in thresholds then thresholds["default"]
    else DEFAULT_IDLE
  }

  /** A tier lookup that fails counts as no tier. */
  function Threshold(thresholds: map<string, int>, tierFor: string -> Result<string>, u: string): int {
    ThresholdFor(thresholds, match tierFor(u) case Ok(tier) => tier case Err(_) => "")
  }

  /** Unpinned and idle for at least its user's threshold. */
  predicate Due(w: World, e: Entry, limit: string -> int, now: int) {
    e.id !in w.pinned && e.id in w.lastActive && now - w.lastActive[e.id] >= limit(e.user)
  }

  /** The ids due for hibernation, in list order. */
  function DueIds(w: World, l: seq<Entry>, limit: string -> int, now: int): seq<string> {
    if |l| == 0 then []
    else DueIds(w, l[..|l| - 1], limit, now)
         + if Due(w, l[|l| - 1], limit, now) then [l[|l| - 1].id] else []
  }

  lemma {:induction false} DueIdsMembers(w: World, l: seq<Entry>, limit: string -> int, now: int)
    ensures forall id :: id in DueIds(w, l, limit, now) <==> exists e :: e in l && e.id == id && Due(w, e, limit, now)
  {
    if |l| > 0 {
      DueIdsMembers(w, l[..|l| - 1], limit, now);
      assert l == l[..|l| - 1] + [l[|l| - 1]];
    }
  }

  /** The due list is in list order. */
  lemma {:induction false} DueIdsInOrder(w: World, l: seq<Entry>, limit: string -> int, now: int, a: nat, b: nat)
    requires a < b < |DueIds(w, l, limit, now)|
    ensures exists i, j :: 0 <= i < j < |l| && l[i].id == DueIds(w, l, limit, now)[a]
                           && l[j].id == DueIds(w, l, limit, now)[b]
  {
    var rest := l[..|l| - 1];
    if b < |DueIds(w, rest, limit, now)| {
      DueIdsInOrder(w, rest, limit, now, a, b);
      var i, j :| 0 <= i < j < |rest| && rest[i].id == DueIds(w, rest, limit, now)[a]
                  && rest[j].id == DueIds(w, rest, limit, now)[b];
      assert l[i] == rest[i] && l[j] == rest[j];
    } else {
      DueIdsMembers(w, rest, limit, now);
      var id := DueIds(w, rest, limit, now)[a];
      assert id in DueIds(w, rest, limit, now);
      var e :| e in rest && e.id == id;
      var i :| 0 <= i < |rest| && rest[i] == e;
      assert l[i] == e;
      assert DueIds(w, l, limit, now)[b] == l[|l| - 1].id;
    }
  }

  /** With one threshold for everybody, what is due is the unpinned part of a prefix of the list. */
  lemma DueIsAPrefix(w: World, limit: string -> int, threshold: int, now: int) returns (k: nat)
    requires ByTime(w.lru, w.lastActive) && forall u :: limit(u) == threshold
    ensures k <= |w.lru|
    ensures forall i :: 0 <= i < |w.lru| ==> (Due(w, w.lru[i], limit, now) <==> i < k && w.lru[i].id !in w.pinned)
  {
    k := 0;
    while k < |w.lru| && now - w.lastActive[w.lru[k].id] >= threshold
      invariant 0 <= k <= |w.lru|
      invariant forall i :: 0 <= i < k ==> now - w.lastActive[w.lru[i].id] >= threshold
    {
      k := k + 1;
    }
    forall i | 0 <= i < |w.lru|
      ensures Due(w, w.lru[i], limit, now) <==> i < k && w.lru[i].id !in w.pinned
    {
      if k <= i {
        assert w.lru[k].id in w.lastActive;
        assert w.lastActive[w.lru[k].id] <= w.lastActive[w.lru[i].id];
      }
    }
  }

  /** After the first `n` of the snapshot: exactly the due ones among them have been stopped and dropped. */
  ghost predicate Scanned(w: World, w': World, n: nat, limit: string -> int, now: int)
    requires n <= |w.lru|
  {
    var gone := DueIds(w, w.lru[..n], limit, now);
    && Agrees(w') && Ordered(w', now) && w'.pinned == w.pinned
    && (forall e :: e in w'.lru <==> e in w.lru && e.id !in gone)
    && (forall id :: IsRunning(w'.cloud, id) <==> IsRunning(w.cloud, id) && id !in gone)
  }

  /** No other entry of the snapshot holds the id, so the due list has not met it yet. */
  lemma NotMetYet(w: World, n: nat, limit: string -> int, now: int)
    requires Agrees(w) && n < |w.lru|
    ensures w.lru[n].id !in DueIds(w, w.lru[..n], limit, now)
    ensures DueIds(w, w.lru[..n + 1], limit, now)
         == DueIds(w, w.lru[..n], limit, now) + if Due(w, w.lru[n], limit, now) then [w.lru[n].id] else []
  {
    assert w.lru[..n + 1][..n] == w.lru[..n];
    DueIdsMembers(w, w.lru[..n], limit, now);
    forall x | x in w.lru[..n]
      ensures x.id != w.lru[n].id
    {
      var i :| 0 <= i < n && w.lru[i] == x;
      assert x in w.lru && w.lru[n] in w.lru;
      assert Backed(w.cloud, x) && Backed(w.cloud, w.lru[n]);
    }
  }

  /** Hibernating an active sandbox: it alone stops and leaves the list. */
  lemma HibernateOnlyDrops(w: World, e: Entry, holder: Option<string>, now: int)
    requires Agrees(w) && Ordered(w, now) && e in w.lru && StopsAt(w.lru, e.id, holder)
    ensures var (w', ok) := PoolHibernated(w, e.id, holder);
            && ok && Agrees(w') && Ordered(w', now) && w'.pinned == w.pinned
            && (forall x :: x in w'.lru <==> x in w.lru && x.id != e.id)
            && (forall id :: IsRunning(w'.cloud, id) <==> IsRunning(w.cloud, id) && id != e.id)
  {
    assert Backed(w.cloud, e);
    HolderIsUnique(w, e.id, holder);
    HibernatedAgrees(w, e.id, holder);
    HibernatedOrdered(w, e.id, holder, now);
    WithoutKeeps(w.lru, e.user);
  }

  lemma ScansOne(w: World, w1: World, n: nat, limit: string -> int, now: int, holder: Option<string>)
    requires Agrees(w) && Ordered(w, now) && n < |w.lru| && Scanned(w, w1, n, limit, now)
    requires StopsAt(w1.lru, w.lru[n].id, holder)
    ensures Due(w, w.lru[n], limit, now) ==>
              var (w2, ok) := PoolHibernated(w1, w.lru[n].id, holder);
              ok && Scanned(w, w2, n + 1, limit, now)
    ensures !Due(w, w.lru[n], limit, now) ==> Scanned(w, w1, n + 1, limit, now)
  {
    NotMetYet(w, n, limit, now);
    if Due(w, w.lru[n], limit, now) {
      assert w.lru[n] in w.lru;
      HibernateOnlyDrops(w1, w.lru[n], holder, now);
    }
  }

  /** The loop's state after `n` of the snapshot, for a scan that starts in agreement. */
  ghost predicate ScanProgress(w: World, w1: World, ids: seq<string>, n: nat, limit: string -> int, now: int) {
    Agrees(w) && Ordered(w, now) ==>
      n <= |w.lru| && ids == DueIds(w, w.lru[..n], limit, now) && Scanned(w, w1, n, limit, now)
  }

  lemma ScanProgresses(w: World, w1: World, ids: seq<string>, n: nat, limit: string -> int, now: int,
                       at: int, holder: Option<string>)
    requires n < |w.lru| && ScanProgress(w, w1, ids, n, limit, now) && StopsAt(w1.lru, w.lru[n].id, holder)
    requires w.lru[n].id in w.lastActive ==> at == w.lastActive[w.lru[n].id]
    ensures var e := w.lru[n];
            if e.id !in w.pinned && now - at >= limit(e.user) then
              var (w2, ok) := PoolHibernated(w1, e.id, holder);
              ScanProgress(w, w2, if ok then ids + [e.id] else ids, n + 1, limit, now)
            else ScanProgress(w, w1, ids, n + 1, limit, now)
  {
    if Agrees(w) && Ordered(w, now) {
      ScansOne(w, w1, n, limit, now, holder);
      NotMetYet(w, n, limit, now);
    }
  }

  /**
    A scan is a run of pool operations. Where the active set is the set of running sandboxes,
    exactly the due ones are stopped and reported, in list order.
   */
  ghost predicate ScannedAll(w: World, capacity: int, limit: string -> int, now: int, w': World,
                             hibernated: seq<string>) {
    && Reaches(w, capacity, now, now, w')
    && (Agrees(w) && Ordered(w, now) ==>
          hibernated == DueIds(w, w.lru, limit, now) && Scanned(w, w', |w.lru|, limit, now))
  }

  lemma ItemReaches(w: World, capacity: int, now: int, w1: World, id: string, holder: Option<string>, w2: World)
    requires Reaches(w, capacity, now, now, w1) && StopsAt(w1.lru, id, holder)
    requires w2 == w1 || w2 == PoolHibernated(w1, id, holder).0
    ensures Reaches(w, capacity, now, now, w2)
  {
    ReachesOn(w, capacity, now, now, w1, PoolStep.Hibernate(id, holder), now);
  }

  lemma ScanStarts(w: World, limit: string -> int, now: int)
    ensures ScanProgress(w, w, [], 0, limit, now)
  {
  }

  lemma ScanEnds(w: World, w1: World, ids: seq<string>, limit: string -> int, now: int)
    requires ScanProgress(w, w1, ids, |w.lru|, limit, now)
    ensures Agrees(w) && Ordered(w, now) ==> ids == DueIds(w, w.lru, limit, now) && Scanned(w, w1, |w.lru|, limit, now)
  {
    assert w.lru[..|w.lru|] == w.lru;
  }

  /** With one threshold a scan stops exactly the unpinned entries of a prefix of the list. */
  lemma ScanStopsAPrefix(w: World, capacity: int, limit: string -> int, threshold: int, now: int, w': World,
                         hibernated: seq<string>)
    returns (k: nat)
    requires Agrees(w) && Ordered(w, now) && ScannedAll(w, capacity, limit, now, w', hibernated)
    requires forall u :: limit(u) == threshold
    ensures k <= |w.lru|
    ensures forall i :: 0 <= i < |w.lru| ==>
              (w.lru[i] in w'.lru && IsRunning(w'.cloud, w.lru[i].id) <==> i >= k || w.lru[i].id in w.pinned)
    ensures forall id :: id in hibernated <==> exists i :: 0 <= i < k && w.lru[i].id == id && id !in w.pinned
    ensures forall id :: IsRunning(w'.cloud, id) <==> IsRunning(w.cloud, id) && id !in hibernated
  {
    k := DueIsAPrefix(w, limit, threshold, now);
    assert w.lru[..|w.lru|] == w.lru;
    DueIdsMembers(w, w.lru, limit, now);
    forall i | 0 <= i < |w.lru|
      ensures w.lru[i] in w.lru && Backed(w.cloud, w.lru[i])
      ensures w.lru[i].id in hibernated <==> i < k && w.lru[i].id !in w.pinned
    {
      assert w.lru[i] in w.lru;
      if w.lru[i].id in hibernated {
        var e :| e in w.lru && e.id == w.lru[i].id && Due(w, e, limit, now);
        assert Backed(w.cloud, e) && Backed(w.cloud, w.lru[i]);
        assert e == w.lru[i];
      }
    }
  }

  /**
    What a scan does about an active entry: the threshold is the one for the tier of its user, when
    that is known and has one; otherwise the default one, and 300 seconds when there is none either.
   */
  lemma ScanByTier(
    w: World, capacity: int, thresholds: map<string, int>, tierFor: string -> Result<string>, now: int, w': World,
    hibernated: seq<string>, e: Entry)
    requires Agrees(w) && Ordered(w, now) && e in w.lru
    requires ScannedAll(w, capacity, u => Threshold(thresholds, tierFor, u), now, w', hibernated)
    ensures var t, idle := tierFor(e.user), now - w.lastActive[e.id];
            if e.id in w.pinned then e.id !in hibernated
            else if t.Ok? && t.value != "" && t.value in thresholds
            then e.id in hibernated <==> idle >= thresholds[t.value]
            else if "default" in thresholds then e.id in hibernated <==> idle >= thresholds["default"]
            else e.id in hibernated <==> idle >= 300
    ensures IsRunning(w'.cloud, e.id) <==> e.id !in hibernated
  {
    var limit := u => Threshold(thresholds, tierFor, u);
    assert w.lru[..|w.lru|] == w.lru;
    DueIdsMembers(w, w.lru, limit, now);
    forall x | x in w.lru && x.id == e.id
      ensures x == e
    {
      assert Backed(w.cloud, x) && Backed(w.cloud, e);
    }
    assert Backed(w.cloud, e);
    assert e.id in hibernated <==> Due(w, e, limit, now);
  }

  class HibernateScheduler {
    const pool: SandboxPool
    const thresholds: map<string, int>

    constructor (pool: SandboxPool, thresholds: map<string, int>)
      ensures this.pool == pool && this.thresholds == thresholds
    {
      this.pool := pool;
      this.thresholds := thresholds;
    }

    method ScanItem(item: ActiveItem, now: int, threshold: int) returns (stopped: bool, ghost holder: Option<string>)
      requires pool.Valid()
      modifies pool, pool.orch.client
      ensures pool.Valid()
      ensures StopsAt(old(pool.View()).lru, item.entry.id, holder) && pool.pinned == old(pool.pinned)
      ensures (pool.View(), stopped) == if item.entry.id !in old(pool.pinned) && now - item.lastActive >= threshold
                                        then PoolHibernated(old(pool.View()), item.entry.id, holder)
                                        else (old(pool.View()), false)
    {
      holder := AHolder(pool.View().lru, item.entry.id);
      stopped := false;
      if item.entry.id in pool.pinned {
        return;
      }
      if now - item.lastActive < threshold {
        return;
      }
      stopped, holder := pool.Hibernate(item.entry.id);
    }

    /** One scan over a snapshot of the active set. */
    method ScanOnce(now: int, tierFor: string -> Result<string>) returns (hibernated: seq<string>)
      requires pool.Valid()
      modifies pool, pool.orch.client
      ensures pool.Valid()
      ensures ScannedAll(old(pool.View()), pool.capacity, u => Threshold(thresholds, tierFor, u), now, pool.View(),
                         hibernated)
    {
      hide Reaches, PoolHibernated, ScanProgress, SandboxPool.Valid, Threshold;
      ghost var w := pool.View();
      ghost var limit := u => Threshold(thresholds, tierFor, u);
      var items := pool.ActiveItems();
      hibernated := [];
      var n := 0;
      ReachesItself(w, pool.capacity, now, now);
      ScanStarts(w, limit, now);
      while n < |items|
        invariant 0 <= n <= |items| && pool.Valid()
        invariant pool.pinned == w.pinned
        invariant ScanProgress(w, pool.View(), hibernated, n, limit, now)
        invariant Reaches(w, pool.capacity, now, now, pool.View())
      {
        var item := items[n];
        ghost var w1, before := pool.View(), hibernated;
        var stopped, holder := ScanItem(item, now, Threshold(thresholds, tierFor, item.entry.user));
        if stopped {
          hibernated := hibernated + [item.entry.id];
        }
        ScanProgresses(w, w1, before, n, limit, now, item.lastActive, holder);
        ItemReaches(w, pool.capacity, now, w1, item.entry.id, holder, pool.View());
        n := n + 1;
      }
      ScanEnds(w, pool.View(), hibernated, limit, now);
    }
  }
}
