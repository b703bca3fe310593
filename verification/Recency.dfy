/**
  The pool evicts by recency: what a resume and a touch do to the order and the times, who an
  eviction pass takes, and what a timestamp says after a whole run
  (go/internal/orchestrator/pool.go).
 */
module Recency {
  import opened Wrappers
  import opened Provider
  import opened Orchestration
  import opened OneLive
  import opened PoolSpec
  import opened PoolInvariant

  /** `e` stands somewhere before `f`. */
  ghost predicate Before(l: seq<Entry>, e: Entry, f: Entry) {
    exists i, j :: 0 <= i < j < |l| && l[i] == e && l[j] == f
  }

  /** `l'` holds some of the entries of `l`, in the same order. */
  ghost predicate InOrder(l: seq<Entry>, l': seq<Entry>) {
    && (forall e :: e in l' ==> e in l)
    && (forall e, f :: e in l' && f in l' ==> (Before(l', e, f) <==> Before(l, e, f)))
  }

  // ----- cutting and moving -----------------------------------------------------------

  lemma BeforeThen(l: seq<Entry>, x: Entry, e: Entry, f: Entry)
    ensures Before(l + [x], e, f) <==> Before(l, e, f) || (e in l && f == x)
  {
    var m := l + [x];
    if Before(m, e, f) {
      var i, j :| 0 <= i < j < |m| && m[i] == e && m[j] == f;
      assert m[i] == l[i];
      if j < |l| {
        assert l[j] == f;
      }
    }
    if Before(l, e, f) {
      var i, j :| 0 <= i < j < |l| && l[i] == e && l[j] == f;
      assert m[i] == e && m[j] == f;
    }
    if e in l && f == x {
      var i :| 0 <= i < |l| && l[i] == e;
      assert m[i] == e && m[|l|] == f;
    }
  }

  lemma {:induction false} WithoutUpToInOrder(l: seq<Entry>, u: string, n: nat, e: Entry, f: Entry)
    requires n <= |l|
    ensures Before(WithoutUpTo(l, u, n), e, f) <==> Before(l[..n], e, f) && e.user != u && f.user != u
  {
    if n > 0 {
      WithoutUpToInOrder(l, u, n - 1, e, f);
      WithoutUpToMembers(l, u, n - 1);
      assert l[..n] == l[..n - 1] + [l[n - 1]];
      BeforeThen(l[..n - 1], l[n - 1], e, f);
      BeforeThen(WithoutUpTo(l, u, n - 1), l[n - 1], e, f);
    }
  }

  /** Taking a user out leaves the others in their order. */
  lemma WithoutInOrder(l: seq<Entry>, u: string, e: Entry, f: Entry)
    ensures Before(Without(l, u), e, f) <==> Before(l, e, f) && e.user != u && f.user != u
  {
    WithoutUpToInOrder(l, u, |l|, e, f);
    assert l[..|l|] == l;
  }

  lemma CutKeepsOrder(l: seq<Entry>, i: nat, e: Entry, f: Entry)
    requires i < |l| && Before(l[..i] + l[i + 1..], e, f)
    ensures Before(l, e, f)
  {
    var m := l[..i] + l[i + 1..];
    var a, b :| 0 <= a < b < |m| && m[a] == e && m[b] == f;
    assert l[if a < i then a else a + 1] == e && l[if b < i then b else b + 1] == f;
  }

  lemma CutLosesNoOrder(l: seq<Entry>, i: nat, e: Entry, f: Entry)
    requires i < |l| && Before(l, e, f) && e != l[i] && f != l[i]
    ensures Before(l[..i] + l[i + 1..], e, f)
  {
    var m := l[..i] + l[i + 1..];
    var a, b :| 0 <= a < b < |l| && l[a] == e && l[b] == f;
    assert m[if a < i then a else a - 1] == e && m[if b < i then b else b - 1] == f;
  }

  /** Cutting one entry out leaves the others in their order. */
  lemma CutInOrder(l: seq<Entry>, i: nat)
    requires i < |l| && OnePerUser(l)
    ensures var m := l[..i] + l[i + 1..];
            forall e, f :: e in m && f in m ==> (Before(m, e, f) <==> Before(l, e, f))
  {
    var m := l[..i] + l[i + 1..];
    CutAt(l, i);
    forall e, f | e in m && f in m
      ensures Before(m, e, f) <==> Before(l, e, f)
    {
      if Before(m, e, f) {
        CutKeepsOrder(l, i, e, f);
      }
      if Before(l, e, f) {
        CutLosesNoOrder(l, i, e, f);
      }
    }
  }

  lemma {:induction false} WithoutUpToLength(l: seq<Entry>, u: string, n: nat)
    requires n <= |l| && OnePerUser(l)
    ensures |WithoutUpTo(l, u, n)| == n - if exists i :: 0 <= i < n && l[i].user == u then 1 else 0
  {
    if n > 0 {
      WithoutUpToLength(l, u, n - 1);
    }
  }

  /** What moving a user's entry to the back, or putting it there, does to a list. */
  ghost predicate AtBack(l: seq<Entry>, mine: Entry, l': seq<Entry>) {
    && |l'| > 0 && l'[|l'| - 1] == mine
    && (forall e :: e in l' <==> e == mine || (e in l && e.user != mine.user))
    && (forall e, f :: e in l' && f in l' && e != mine && f != mine ==> (Before(l', e, f) <==> Before(l, e, f)))
  }

  lemma MovesBack(l: seq<Entry>, mine: Entry)
    ensures AtBack(l, mine, Without(l, mine.user) + [mine])
    ensures OnePerUser(l) ==>
              |Without(l, mine.user)| + 1 == if exists e :: e in l && e.user == mine.user then |l| else |l| + 1
  {
    var l' := Without(l, mine.user) + [mine];
    WithoutKeeps(l, mine.user);
    if OnePerUser(l) {
      WithoutUpToLength(l, mine.user, |l|);
    }
    forall e, f | e in l' && f in l' && e != mine && f != mine
      ensures Before(l', e, f) <==> Before(l, e, f)
    {
      BeforeThen(Without(l, mine.user), mine, e, f);
      WithoutInOrder(l, mine.user, e, f);
    }
    if e :| e in l && e.user == mine.user {
      var i :| 0 <= i < |l| && l[i] == e;
    }
  }

  // ----- a touch from outside -----------------------------------------------------------

  /**
    A touch renews the time of any sandbox it names, and nobody else's; the entry that holds the
    sandbox, if one does, goes to the back, and the others stay in their order.
   */
  lemma TouchRenews(w: World, capacity: int, id: string, holder: Option<string>, now: int)
    requires Agrees(w) && PoolEnabled(w, Touch(id, holder))
    ensures var w' := PoolNext(w, capacity, Touch(id, holder), now);
            && w'.cloud == w.cloud && w'.pinned == w.pinned
            && w'.lastActive == w.lastActive[id := now]
            && (forall e :: e in w.lru && e.id == id ==> AtBack(w.lru, e, w'.lru))
            && ((forall e :: e in w.lru ==> e.id != id) ==> w'.lru == w.lru)
  {
    HolderIsUnique(w, id, holder);
    if holder.Some? {
      MovesBack(w.lru, Entry(holder.value, id));
      assert Entry(holder.value, id) in w.lru;
    }
  }

  // ----- leaving --------------------------------------------------------------------------

  /** Hibernating works on every sandbox that is not destroyed, and drops its entry and its time. */
  lemma HibernateDrops(w: World, id: string, holder: Option<string>)
    requires Agrees(w) && StopsAt(w.lru, id, holder)
    ensures var (w', ok) := PoolHibernated(w, id, holder);
            && (ok <==> id in w.cloud.sandboxes && w.cloud.sandboxes[id].state != Destroyed)
            && (!ok ==> w' == w)
            && (ok ==>
                  && id in w'.cloud.sandboxes && w'.cloud.sandboxes[id].state == Hibernated
                  && w'.lastActive == w.lastActive - {id} && w'.pinned == w.pinned
                  && (forall e :: e in w'.lru <==> e in w.lru && e.id != id) && InOrder(w.lru, w'.lru))
  {
    HolderIsUnique(w, id, holder);
    assert id in w.cloud.sandboxes ==> w.cloud.sandboxes[id].state != Provisioning;
    if holder.Some? {
      LeavesInOrder(w.lru, holder.value);
    }
  }

  lemma LeavesInOrder(l: seq<Entry>, u: string)
    ensures InOrder(l, Without(l, u)) && forall e :: e in Without(l, u) <==> e in l && e.user != u
  {
    WithoutKeeps(l, u);
    forall e, f | e in Without(l, u) && f in Without(l, u)
      ensures Before(Without(l, u), e, f) <==> Before(l, e, f)
    {
      WithoutInOrder(l, u, e, f);
    }
  }

  /** Removing a user drops its entry and that sandbox's time, and nothing else. */
  lemma RemoveDrops(w: World, u: string)
    requires Agrees(w)
    ensures var w' := Removed(w, u);
            && w'.cloud == w.cloud && w'.pinned == w.pinned
            && (forall e :: e in w'.lru <==> e in w.lru && e.user != u) && InOrder(w.lru, w'.lru)
            && (forall id :: id in w'.lastActive <==> id in w.lastActive && Entry(u, id) !in w.lru)
            && (forall id :: id in w'.lastActive ==> w'.lastActive[id] == w.lastActive[id])
  {
    HeldIs(w.lru, u);
    LeavesInOrder(w.lru, u);
    var held := HeldUpTo(w.lru, u, |w.lru|);
    forall e | e in w.lru && e.user == u
      ensures held == Some(e.id)
    {
      assert Backed(w.cloud, e) && Backed(w.cloud, Entry(u, held.value));
    }
    if held.None? {
      assert forall e, f :: Before(w.lru, e, f) <==> Before(Removed(w, u).lru, e, f);
    }
  }

  // ----- a resume ----------------------------------------------------------------------------

  /** The entries an eviction pass after the user's resume chooses from. */
  predicate Contends(w: World, mine: Entry, e: Entry) {
    e == mine || (e in w.lru && e.user != mine.user)
  }

  function TimeOf(w: World, mine: Entry, now: int, e: Entry): int {
    if e == mine then now else if e.id in w.lastActive then w.lastActive[e.id] else 0
  }

  /** How many those are: the user may have had an entry before. */
  ghost function Contenders(w: World, u: string): nat {
    if exists e :: e in w.lru && e.user == u then |w.lru| else |w.lru| + 1
  }

  /**
    Nobody goes while there is room, or everybody is pinned; otherwise one goes that is not pinned and
    was used least recently.
   */
  ghost predicate Leaves(w: World, capacity: int, mine: Entry, now: int, out: Option<Entry>) {
    match out
    case None => Contenders(w, mine.user) <= capacity || forall e :: Contends(w, mine, e) ==> e.id in w.pinned
    case Some(v) =>
      && Contenders(w, mine.user) > capacity && Contends(w, mine, v) && v.id !in w.pinned
      && (forall e :: Contends(w, mine, e) && e.id !in w.pinned ==> TimeOf(w, mine, now, v) <= TimeOf(w, mine, now, e))
  }

  /** The list and the times after a resume that gave the user `mine`. */
  ghost predicate Renewed(w: World, mine: Entry, now: int, out: Option<Entry>, w': World) {
    && (forall e :: e in w'.lru <==> Contends(w, mine, e) && out != Some(e))
    && (mine in w'.lru ==> w'.lru[|w'.lru| - 1] == mine)
    && (forall e, f :: e in w'.lru && f in w'.lru && e != mine && f != mine ==>
          (Before(w'.lru, e, f) <==> Before(w.lru, e, f)))
    && (forall e :: e in w'.lru ==> e.id in w'.lastActive && w'.lastActive[e.id] == TimeOf(w, mine, now, e))
    && (out.Some? ==> !IsRunning(w'.cloud, out.value.id) && out.value.id !in w'.lastActive)
  }

  /** After the touch, before the pass. */
  lemma AdmittedRenews(w: World, u: string, found: Option<string>, newId: string, before: int, now: int)
    requires Agrees(w) && Ordered(w, before) && before <= now && Enabled(w.cloud, Resume(u, found, newId))
    requires Resumed(w.cloud, u, found, newId).1.Ok?
    ensures var w1, mine := Admitted(w, u, found, newId, now).0, Entry(u, Resumed(w.cloud, u, found, newId).1.value.id);
            && Agrees(w1) && Ordered(w1, now) && w1.pinned == w.pinned
            && |w1.lru| == Contenders(w, u) && Renewed(w, mine, now, None, w1)
  {
    var id := Resumed(w.cloud, u, found, newId).1.value.id;
    AdmittedAgrees(w, u, found, newId, now);
    AdmittedOrdered(w, u, found, newId, before, now);
    TouchedRenews(w, Admitted(w, u, found, newId, now).0, Entry(u, id), now);
  }

  lemma TouchedRenews(w: World, w1: World, mine: Entry, now: int)
    requires Agrees(w) && Agrees(w1) && Ordered(w1, now)
    requires w1.lru == Without(w.lru, mine.user) + [mine] && w1.lastActive == w.lastActive[mine.id := now]
    ensures |w1.lru| == Contenders(w, mine.user) && Renewed(w, mine, now, None, w1)
  {
    MovesBack(w.lru, mine);
    forall e | e in w1.lru
      ensures e.id in w1.lastActive && w1.lastActive[e.id] == TimeOf(w, mine, now, e)
    {
      assert Backed(w1.cloud, e) && Backed(w1.cloud, mine);
      var i :| 0 <= i < |w1.lru| && w1.lru[i] == e;
    }
  }

  lemma EvictedKeepsTimes(w: World, capacity: int)
    requires Agrees(w)
    ensures forall e :: e in Evicted(w, capacity).lru ==>
              e in w.lru && (e.id in w.lastActive ==>
                e.id in Evicted(w, capacity).lastActive && Evicted(w, capacity).lastActive[e.id] == w.lastActive[e.id])
  {
    var i, w' := VictimIndex(w.lru, w.pinned), Evicted(w, capacity);
    if |w.lru| > capacity && i < |w.lru| {
      CutAt(w.lru, i);
      assert w.lru[i] in w.lru;
      forall e | e in w'.lru
        ensures e in w.lru && e.id != w.lru[i].id
      {
        assert Backed(w.cloud, e) && Backed(w.cloud, w.lru[i]);
      }
    }
  }

  /** A pass that takes an entry out leaves the others with their places and times. */
  lemma PassKeepsOthers(w: World, capacity: int)
    requires Agrees(w) && |w.lru| > capacity && VictimIndex(w.lru, w.pinned) < |w.lru|
    ensures var v, w' := w.lru[VictimIndex(w.lru, w.pinned)], Evicted(w, capacity);
            && v in w.lru && OnlyDrops(w, w', v) && v.id !in w'.lastActive
            && (forall e, f :: e in w'.lru && f in w'.lru ==> (Before(w'.lru, e, f) <==> Before(w.lru, e, f)))
            && (w.lru[|w.lru| - 1] in w'.lru ==> w'.lru[|w'.lru| - 1] == w.lru[|w.lru| - 1])
  {
    var i := VictimIndex(w.lru, w.pinned);
    EvictionOnlyDrops(w, capacity);
    CutInOrder(w.lru, i);
    assert Evicted(w, capacity).lru == w.lru[..i] + w.lru[i + 1..];
    assert i == |w.lru| - 1 ==> w.lru[i] !in Evicted(w, capacity).lru;
  }

  /** The pass after the touch takes out one entry, and leaves the others as they are. */
  lemma PassRenews(w: World, w1: World, capacity: int, mine: Entry, now: int)
    requires Agrees(w1) && Ordered(w1, now) && w1.pinned == w.pinned
    requires Renewed(w, mine, now, None, w1) && |w1.lru| == Contenders(w, mine.user)
    requires |w1.lru| > capacity && VictimIndex(w1.lru, w1.pinned) < |w1.lru|
    ensures var v := w1.lru[VictimIndex(w1.lru, w1.pinned)];
            Leaves(w, capacity, mine, now, Some(v)) && Renewed(w, mine, now, Some(v), Evicted(w1, capacity))
  {
    hide Agrees, Ordered, Evicted, VictimIndex, Before, IsRunning, Contenders, TimeOf;
    VictimIsOldest(w1, now);
    PassKeepsOthers(w1, capacity);
    EvictedKeepsTimes(w1, capacity);
    assert mine in w1.lru;
  }

  /**
    Get-or-resume is least-recently-used. The user's entry goes to the back with the clock's
    reading and everybody else keeps place and time; then, over capacity, exactly one entry that
    is not pinned and was used least recently goes, if there is one.
   */
  lemma ResumeIsLru(w: World, capacity: int, u: string, found: Option<string>, newId: string, before: int, now: int)
    returns (out: Option<Entry>)
    requires Agrees(w) && Ordered(w, before) && before <= now && Enabled(w.cloud, Resume(u, found, newId))
    ensures var (w', r) := PoolResumed(w, capacity, u, found, newId, now);
            && w'.pinned == w.pinned
            && (r.Err? ==> w'.lru == w.lru && w'.lastActive == w.lastActive)
            && (r.Ok? ==>
                  && Leaves(w, capacity, Entry(u, r.value.id), now, out)
                  && Renewed(w, Entry(u, r.value.id), now, out, w'))
  {
    var r := Resumed(w.cloud, u, found, newId).1;
    out := None;
    if r.Ok? {
      var w1, mine := Admitted(w, u, found, newId, now).0, Entry(u, r.value.id);
      AdmittedRenews(w, u, found, newId, before, now);
      VictimIndexIs(w1.lru, w1.pinned);
      hide Admitted, Agrees, Ordered, Renewed, Resumed;
      if |w1.lru| > capacity && VictimIndex(w1.lru, w1.pinned) < |w1.lru| {
        PassRenews(w, w1, capacity, mine, now);
        out := Some(w1.lru[VictimIndex(w1.lru, w1.pinned)]);
      } else if |w1.lru| > capacity {
        AllPinnedLeaves(w, w1, mine, now);
      }
    }
  }

  lemma AllPinnedLeaves(w: World, w1: World, mine: Entry, now: int)
    requires Renewed(w, mine, now, None, w1) && w1.pinned == w.pinned
    requires forall i :: 0 <= i < |w1.lru| ==> w1.lru[i].id in w1.pinned
    ensures forall e :: Contends(w, mine, e) ==> e.id in w.pinned
  {
    forall e | Contends(w, mine, e)
      ensures e.id in w.pinned
    {
      assert e in w1.lru;
    }
  }

  // ----- whole runs ---------------------------------------------------------------------

  /** The sandbox a step resumes or touches. */
  ghost predicate Uses(w: World, step: PoolStep, id: string)
    requires PoolEnabled(w, step)
  {
    match step
    case GetOrResume(u, found, newId) =>
      var r := Resumed(w.cloud, u, found, newId).1; r.Ok? && r.value.id == id
    case Recreate(u, x, found, newId) =>
      var r := Resumed(Cleared(w, u, x).cloud, u, found, newId).1; r.Ok? && r.value.id == id
    case Touch(x, _) => x == id
    case _ => false
  }

  /** The clock's reading at the last use of the sandbox in the run, or `since` when there is none. */
  ghost function LastUse(
    w: World, capacity: int, before: int, steps: seq<Timed>, w': World, id: string, since: int): int
    requires PoolInvariant.Leads(w, capacity, before, steps, w')
    decreases |steps|
  {
    if |steps| == 0 then since
    else LastUse(PoolNext(w, capacity, steps[0].step, steps[0].now), capacity, steps[0].now, steps[1..], w', id,
                 if Uses(w, steps[0].step, id) then steps[0].now else since)
  }

  /** Every entry's time is what `since` says about its sandbox. */
  ghost predicate Stamped(w: World, since: string -> int) {
    forall e :: e in w.lru ==> e.id in w.lastActive && w.lastActive[e.id] == since(e.id)
  }

  lemma AdmittedStamps(w: World, u: string, found: Option<string>, newId: string, now: int, since: string -> int)
    requires AgreesBut(w, u) && Enabled(w.cloud, Resume(u, found, newId)) && Stamped(w, since)
    ensures var r := Resumed(w.cloud, u, found, newId).1;
            Stamped(Admitted(w, u, found, newId, now).0, id => if r.Ok? && r.value.id == id then now else since(id))
  {
    WithoutKeeps(w.lru, u);
  }

  /** A resume, whether after clearing or not: the user's entry is stamped, the others keep their times. */
  lemma ResumeStamps(
    w: World, capacity: int, u: string, found: Option<string>, newId: string, now: int, since: string -> int)
    requires AgreesBut(w, u) && Enabled(w.cloud, Resume(u, found, newId)) && Stamped(w, since)
    ensures var r := Resumed(w.cloud, u, found, newId).1;
            Stamped(PoolResumed(w, capacity, u, found, newId, now).0,
                    id => if r.Ok? && r.value.id == id then now else since(id))
  {
    AdmittedAgrees(w, u, found, newId, now);
    AdmittedStamps(w, u, found, newId, now, since);
    hide AgreesBut, Agrees, Resumed, Evicted, Without;
    EvictedKeepsTimes(Admitted(w, u, found, newId, now).0, capacity);
  }

  lemma ClearedStamps(w: World, u: string, id: string, since: string -> int)
    requires Agrees(w) && Stamped(w, since)
    ensures Stamped(Cleared(w, u, id), since)
  {
    HeldIs(w.lru, u);
    WithoutKeeps(w.lru, u);
    var held := HeldUpTo(w.lru, u, |w.lru|);
    forall e | e in Cleared(w, u, id).lru
      ensures e in w.lru && (held.Some? ==> e.id != held.value)
    {
      assert held.Some? ==> Backed(w.cloud, e) && Backed(w.cloud, Entry(u, held.value));
    }
  }

  lemma HibernatedStamps(w: World, id: string, holder: Option<string>, since: string -> int)
    requires Agrees(w) && StopsAt(w.lru, id, holder) && Stamped(w, since)
    ensures Stamped(PoolHibernated(w, id, holder).0, since)
  {
    HolderIsUnique(w, id, holder);
    if holder.Some? {
      WithoutKeeps(w.lru, holder.value);
    }
  }

  lemma TouchStamps(w: World, id: string, holder: Option<string>, now: int, since: string -> int)
    requires Agrees(w) && StopsAt(w.lru, id, holder) && Stamped(w, since)
    ensures Stamped(HookTouched(w, id, now, holder), x => if x == id then now else since(x))
  {
    if holder.Some? {
      WithoutKeeps(w.lru, holder.value);
    }
  }

  lemma StepStamps(w: World, capacity: int, step: PoolStep, now: int, since: string -> int)
    requires Agrees(w) && PoolEnabled(w, step) && Stamped(w, since)
    ensures Stamped(PoolNext(w, capacity, step, now), id => if Uses(w, step, id) then now else since(id))
  {
    var later := id => if Uses(w, step, id) then now else since(id);
    match step
    case GetOrResume(u, found, newId) => ResumeStamps(w, capacity, u, found, newId, now, since);
    case MaybeEvict => EvictedKeepsTimes(w, capacity);
    case Hibernate(id, holder) => HibernatedStamps(w, id, holder, since);
    case Touch(id, holder) => TouchStamps(w, id, holder, now, since);
    case Pin(_) =>
    case Unpin(_) =>
    case Recreate(u, id, found, newId) =>
      ClearedAgrees(w, u, id);
      ClearedStamps(w, u, id, since);
      ResumeStamps(Cleared(w, u, id), capacity, u, found, newId, now, since);
  }

  lemma {:induction false} RunStamps(
    w: World, capacity: int, before: int, steps: seq<Timed>, w': World, since: string -> int)
    requires Agrees(w) && PoolInvariant.Leads(w, capacity, before, steps, w') && Stamped(w, since)
    ensures Stamped(w', id => LastUse(w, capacity, before, steps, w', id, since(id)))
    decreases |steps|
  {
    if |steps| > 0 {
      var w1 := PoolNext(w, capacity, steps[0].step, steps[0].now);
      var later := (id: string) => if Uses(w, steps[0].step, id) then steps[0].now else since(id);
      StepAgrees(w, capacity, steps[0].step, steps[0].now);
      StepStamps(w, capacity, steps[0].step, steps[0].now, since);
      RunStamps(w1, capacity, steps[0].now, steps[1..], w', later);
    }
  }

  /** In every run from an empty platform an active entry's time is that of the last resume or touch of its sandbox. */
  lemma TimesAreLastUses(capacity: int, start: int, steps: seq<Timed>, w: World)
    requires PoolInvariant.Leads(EMPTY, capacity, start, steps, w)
    ensures forall e :: e in w.lru ==>
              e.id in w.lastActive && w.lastActive[e.id] == LastUse(EMPTY, capacity, start, steps, w, e.id, start)
  {
    RunStamps(EMPTY, capacity, start, steps, w, _ => start);
  }

  // ----- capacity ---------------------------------------------------------------------------

  lemma EvictedFits(w: World, capacity: int)
    requires w.pinned == {}
    ensures |Evicted(w, capacity).lru| <= if |w.lru| > capacity && |w.lru| > 0 then |w.lru| - 1 else |w.lru|
  {
  }

  /** With nothing pinned no operation takes the active set beyond its capacity. */
  lemma StepFits(w: World, capacity: nat, step: PoolStep, now: int)
    requires PoolEnabled(w, step) && w.pinned == {} && !step.Pin? && |w.lru| <= capacity
    ensures var w' := PoolNext(w, capacity, step, now); w'.pinned == {} && |w'.lru| <= capacity
  {
    match step
    case GetOrResume(u, found, newId) =>
      WithoutUpToIsShorter(w.lru, u, |w.lru|);
      EvictedFits(Admitted(w, u, found, newId, now).0, capacity);
    case MaybeEvict => EvictedFits(w, capacity);
    case Hibernate(_, Some(u)) => WithoutUpToIsShorter(w.lru, u, |w.lru|);
    case Touch(id, Some(u)) =>
      WithoutUpToIsShorter(w.lru, u, |w.lru|);
      assert exists i :: 0 <= i < |w.lru| && w.lru[i].user == u by {
        var i :| 0 <= i < |w.lru| && w.lru[i] == Entry(u, id);
      }
    case Recreate(u, id, found, newId) =>
      WithoutUpToIsShorter(w.lru, u, |w.lru|);
      var wc := Cleared(w, u, id);
      WithoutUpToIsShorter(wc.lru, u, |wc.lru|);
      EvictedFits(Admitted(wc, u, found, newId, now).0, capacity);
    case _ =>
  }

  lemma {:induction false} RunFits(w: World, capacity: nat, before: int, steps: seq<Timed>, w': World)
    requires PoolInvariant.Leads(w, capacity, before, steps, w') && w.pinned == {} && |w.lru| <= capacity
    requires forall i :: 0 <= i < |steps| ==> !steps[i].step.Pin?
    ensures |w'.lru| <= capacity
    decreases |steps|
  {
    if |steps| > 0 {
      StepFits(w, capacity, steps[0].step, steps[0].now);
      RunFits(PoolNext(w, capacity, steps[0].step, steps[0].now), capacity, steps[0].now, steps[1..], w');
    }
  }
}
