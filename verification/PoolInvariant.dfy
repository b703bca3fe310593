/**
  What every run of pool operations keeps: the active set is exactly the set of running
  sandboxes, and list order refines the order of the last-active times.
 */
module PoolInvariant {
  import opened Wrappers
  import opened Provider
  import opened Orchestration
  import opened OneLive
  import opened PoolSpec

  predicate IsRunning(c: Cloud, id: string) {
    id in c.sandboxes && c.sandboxes[id].state == Running
  }

  /** An active entry is running, carries its user's label and is what the store names. */
  predicate Backed(c: Cloud, e: Entry) {
    && IsRunning(c, e.id) && c.UserOf(e.id) == e.user
    && e.user in c.store && c.store[e.user] == e.id
  }

  ghost predicate OnePerUser(l: seq<Entry>) {
    forall i, j :: 0 <= i < j < |l| ==> l[i].user != l[j].user
  }

  /** Active equals running, except that `u`'s running sandbox may be missing. */
  ghost predicate AgreesBut(w: World, u: string) {
    && Good(w.cloud) && OnePerUser(w.lru)
    && (forall e :: e in w.lru ==> Backed(w.cloud, e))
    && (forall id :: IsRunning(w.cloud, id) && w.cloud.UserOf(id) != u ==> Entry(w.cloud.UserOf(id), id) in w.lru)
  }

  ghost predicate Agrees(w: World) {
    && Good(w.cloud) && OnePerUser(w.lru)
    && (forall e :: e in w.lru ==> Backed(w.cloud, e))
    && (forall id :: IsRunning(w.cloud, id) ==> Entry(w.cloud.UserOf(id), id) in w.lru)
  }

  ghost predicate ByTime(l: seq<Entry>, at: map<string, int>) {
    && (forall i :: 0 <= i < |l| ==> l[i].id in at)
    && (forall i, j :: 0 <= i <= j < |l| ==> at[l[i].id] <= at[l[j].id])
  }

  /** Front to back the times do not decrease, and none is later than `now`. */
  ghost predicate Ordered(w: World, now: int) {
    && ByTime(w.lru, w.lastActive)
    && (forall e :: e in w.lru ==> w.lastActive[e.id] <= now)
  }

  datatype PoolStep =
    | GetOrResume(u: string, found: Option<string>, newId: string)
    | MaybeEvict
    | Hibernate(id: string, holder: Option<string>)
    | Touch(id: string, holder: Option<string>)
    | Pin(id: string)
    | Unpin(id: string)
    | Recreate(u: string, id: string, found: Option<string>, newId: string)

  /** Nondeterministic answers are possible ones; a recreation is of the user's own sandbox. */
  ghost predicate PoolEnabled(w: World, step: PoolStep) {
    match step
    case GetOrResume(u, found, newId) => Enabled(w.cloud, Resume(u, found, newId))
    case Hibernate(id, holder) => StopsAt(w.lru, id, holder)
    case Touch(id, holder) => StopsAt(w.lru, id, holder)
    case Recreate(u, id, found, newId) =>
      (id in w.cloud.sandboxes ==> w.cloud.UserOf(id) == u) && Enabled(Cleared(w, u, id).cloud, Resume(u, found, newId))
    case _ => true
  }

  /** One operation, its clock read being `now`. */
  ghost function PoolNext(w: World, capacity: int, step: PoolStep, now: int): World
    requires PoolEnabled(w, step)
  {
    match step
    case GetOrResume(u, found, newId) => PoolResumed(w, capacity, u, found, newId, now).0
    case MaybeEvict => Evicted(w, capacity)
    case Hibernate(id, holder) => PoolHibernated(w, id, holder).0
    case Touch(id, holder) => HookTouched(w, id, now, holder)
    case Pin(id) => w.(pinned := w.pinned + {id})
    case Unpin(id) => w.(pinned := w.pinned - {id})
    case Recreate(u, id, found, newId) => PoolResumed(Cleared(w, u, id), capacity, u, found, newId, now).0
  }

  // ----- the list -------------------------------------------------------------

  lemma {:induction false} WithoutUpToMembers(l: seq<Entry>, u: string, n: nat)
    requires n <= |l|
    ensures forall e :: e in WithoutUpTo(l, u, n) <==> e in l[..n] && e.user != u
  {
    if n > 0 {
      WithoutUpToMembers(l, u, n - 1);
      assert l[..n] == l[..n - 1] + [l[n - 1]];
    }
  }

  lemma {:induction false} WithoutUpToOnePerUser(l: seq<Entry>, u: string, n: nat)
    requires n <= |l| && OnePerUser(l)
    ensures OnePerUser(WithoutUpTo(l, u, n))
  {
    if n > 0 {
      WithoutUpToOnePerUser(l, u, n - 1);
      WithoutUpToMembers(l, u, n - 1);
      var m := WithoutUpTo(l, u, n - 1);
      assert forall i :: 0 <= i < |m| ==> m[i] in l[..n - 1];
    }
  }

  lemma {:induction false} WithoutUpToByTime(l: seq<Entry>, u: string, n: nat, at: map<string, int>)
    requires n <= |l| && ByTime(l, at)
    ensures ByTime(WithoutUpTo(l, u, n), at)
  {
    if n > 0 {
      WithoutUpToByTime(l, u, n - 1, at);
      WithoutUpToMembers(l, u, n - 1);
      var m := WithoutUpTo(l, u, n - 1);
      assert forall i :: 0 <= i < |m| ==> m[i] in l[..n - 1];
    }
  }

  lemma WithoutKeeps(l: seq<Entry>, u: string)
    ensures forall e :: e in Without(l, u) <==> e in l && e.user != u
    ensures OnePerUser(l) ==> OnePerUser(Without(l, u))
  {
    WithoutUpToMembers(l, u, |l|);
    assert l[..|l|] == l;
    if OnePerUser(l) {
      WithoutUpToOnePerUser(l, u, |l|);
    }
  }

  lemma CutHas(l: seq<Entry>, i: nat)
    requires i < |l| && forall j :: 0 <= j < |l| && j != i ==> l[j] != l[i]
    ensures forall e :: e in l[..i] + l[i + 1..] <==> e in l && e != l[i]
  {
    var before, after := l[..i], l[i + 1..];
    assert l == before + [l[i]] + after;
    assert l[i] !in before && l[i] !in after;
  }

  /** The list without its i-th entry. */
  lemma CutAt(l: seq<Entry>, i: nat)
    requires i < |l| && OnePerUser(l)
    ensures var m := l[..i] + l[i + 1..];
            && OnePerUser(m)
            && (forall e :: e in m <==> e in l && e != l[i])
  {
    var m := l[..i] + l[i + 1..];
    CutHas(l, i);
    assert forall k :: 0 <= k < |m| ==> m[k] == l[if k < i then k else k + 1];
  }

  lemma CutByTime(l: seq<Entry>, i: nat, at: map<string, int>)
    requires i < |l| && ByTime(l, at)
    ensures ByTime(l[..i] + l[i + 1..], at)
  {
    var m := l[..i] + l[i + 1..];
    assert forall k :: 0 <= k < |m| ==> m[k] == l[if k < i then k else k + 1];
  }

  lemma {:induction false} VictimIndexIs(l: seq<Entry>, pinned: set<string>)
    ensures var i := VictimIndex(l, pinned);
            && (forall j :: 0 <= j < i ==> l[j].id in pinned)
            && (i < |l| ==> l[i].id !in pinned)
  {
    if |l| > 0 && l[0].id in pinned {
      VictimIndexIs(l[1..], pinned);
      assert forall j :: 0 < j < |l| ==> l[j] == l[1..][j - 1];
    }
  }

  // ----- agreement ------------------------------------------------------------

  lemma RefusedAgrees(w: World, u: string, c: Cloud, r: Result<Sandbox>)
    requires AgreesBut(w, u) && Good(c) && Delivers(w.cloud, u, c, r) && r.Err?
    ensures Agrees(w.(cloud := c))
  {
    forall e | e in w.lru
      ensures Backed(c, e)
    {
      assert Backed(w.cloud, e);
      assert Owns(w.cloud, e.user, e.id);
    }
    forall id | IsRunning(c, id)
      ensures c.UserOf(id) != u
    {
      assert c.UserOf(id) == u ==> Owns(w.cloud, u, id);
    }
  }

  lemma GrantedAgrees(w: World, u: string, c: Cloud, r: Result<Sandbox>, now: int)
    requires AgreesBut(w, u) && Good(c) && Delivers(w.cloud, u, c, r) && r.Ok?
    ensures Agrees(Touched(w.(cloud := c), u, r.value.id, now))
  {
    var mine := Entry(u, r.value.id);
    var l := Without(w.lru, u) + [mine];
    WithoutKeeps(w.lru, u);
    assert l[|l| - 1] == mine && Backed(c, mine);
    forall e | e in Without(w.lru, u)
      ensures Backed(c, e)
    {
      assert Backed(w.cloud, e);
    }
    forall id | IsRunning(c, id)
      ensures Entry(c.UserOf(id), id) in l
    {
      if c.UserOf(id) == u {
        assert Owns(c, u, id) && Owns(c, u, r.value.id);
      } else {
        assert IsRunning(w.cloud, id);
      }
    }
  }

  lemma AdmittedAgrees(w: World, u: string, found: Option<string>, newId: string, now: int)
    requires AgreesBut(w, u) && Enabled(w.cloud, Resume(u, found, newId))
    ensures Agrees(Admitted(w, u, found, newId, now).0)
  {
    var (c, r) := Resumed(w.cloud, u, found, newId);
    ResumeDelivers(w.cloud, u, found, newId);
    if r.Err? {
      RefusedAgrees(w, u, c, r);
    } else {
      GrantedAgrees(w, u, c, r, now);
    }
  }

  /** Stopping a sandbox and dropping its entry, wherever it is held. */
  lemma StoppedAgrees(w: World, l: seq<Entry>, id: string, at: map<string, int>)
    requires Agrees(w) && OnePerUser(l)
    requires forall e :: e in l <==> e in w.lru && e.id != id
    ensures Agrees(w.(cloud := Stopped(w.cloud, id).0, lru := l, lastActive := at))
            || (IsRunning(w.cloud, id) && !Stopped(w.cloud, id).1)
    ensures id in w.cloud.sandboxes && w.cloud.sandboxes[id].state == Running ==> Stopped(w.cloud, id).1
  {
    StepKeepsGood(w.cloud, CloudStep.Hibernate(id));
    var c := Stopped(w.cloud, id).0;
    forall e | e in l
      ensures Backed(c, e)
    {
      assert Backed(w.cloud, e);
    }
    forall x | IsRunning(c, x)
      ensures Entry(c.UserOf(x), x) in l
    {
      assert IsRunning(w.cloud, x);
    }
  }

  /** Every entry that holds `id` is the one the walk stops at. */
  lemma HolderIsUnique(w: World, id: string, holder: Option<string>)
    requires Agrees(w) && StopsAt(w.lru, id, holder)
    ensures forall e :: e in w.lru ==> (e.id == id <==> holder == Some(e.user))
  {
    if holder.Some? {
      forall e | e in w.lru
        ensures e.id == id <==> e.user == holder.value
      {
        assert Backed(w.cloud, e) && Backed(w.cloud, Entry(holder.value, id));
      }
    }
  }

  lemma HibernatedAgrees(w: World, id: string, holder: Option<string>)
    requires Agrees(w) && StopsAt(w.lru, id, holder)
    ensures Agrees(PoolHibernated(w, id, holder).0)
  {
    HolderIsUnique(w, id, holder);
    if holder.Some? {
      WithoutKeeps(w.lru, holder.value);
    }
    var l := match holder case Some(u) => Without(w.lru, u) case None => w.lru;
    StoppedAgrees(w, l, id, w.lastActive - {id});
  }

  lemma EvictedAgrees(w: World, capacity: int)
    requires Agrees(w)
    ensures Agrees(Evicted(w, capacity))
  {
    var i := VictimIndex(w.lru, w.pinned);
    if |w.lru| > capacity && i < |w.lru| {
      var id := w.lru[i].id;
      var l := w.lru[..i] + w.lru[i + 1..];
      CutAt(w.lru, i);
      assert w.lru[i] in w.lru && Backed(w.cloud, w.lru[i]);
      forall e | e in w.lru
        ensures e in l <==> e.id != id
      {
        assert Backed(w.cloud, e);
      }
      StoppedAgrees(w, l, id, w.lastActive - {id});
    }
  }

  lemma HookTouchedAgrees(w: World, id: string, now: int, holder: Option<string>)
    requires Agrees(w) && StopsAt(w.lru, id, holder)
    ensures Agrees(HookTouched(w, id, now, holder))
  {
    if holder.Some? {
      var u := holder.value;
      WithoutKeeps(w.lru, u);
      var l := Without(w.lru, u) + [Entry(u, id)];
      assert l[|l| - 1] == Entry(u, id);
      assert Backed(w.cloud, Entry(u, id));
      forall e | e in w.lru
        ensures e in l
      {
        assert Backed(w.cloud, e);
      }
    }
  }

  lemma ClearedAgrees(w: World, u: string, id: string)
    requires Agrees(w) && (id in w.cloud.sandboxes ==> w.cloud.UserOf(id) == u)
    ensures AgreesBut(Cleared(w, u, id), u)
  {
    var w' := Cleared(w, u, id);
    HeldIs(w.lru, u);
    WithoutKeeps(w.lru, u);
    StepKeepsGood(w.cloud, Destroy(id));
    forall e | e in w'.lru
      ensures Backed(w'.cloud, e)
    {
      assert Backed(w.cloud, e);
    }
    forall x | IsRunning(w'.cloud, x) && w'.cloud.UserOf(x) != u
      ensures Entry(w'.cloud.UserOf(x), x) in w'.lru
    {
      assert IsRunning(w.cloud, x);
    }
  }

  /** Every operation keeps the active set equal to the set of running sandboxes. */
  lemma StepAgrees(w: World, capacity: int, step: PoolStep, now: int)
    requires Agrees(w) && PoolEnabled(w, step)
    ensures Agrees(PoolNext(w, capacity, step, now))
  {
    match step
    case GetOrResume(u, found, newId) =>
      AdmittedAgrees(w, u, found, newId, now);
      EvictedAgrees(Admitted(w, u, found, newId, now).0, capacity);
    case MaybeEvict => EvictedAgrees(w, capacity);
    case Hibernate(id, holder) => HibernatedAgrees(w, id, holder);
    case Touch(id, holder) => HookTouchedAgrees(w, id, now, holder);
    case Pin(id) =>
    case Unpin(id) =>
    case Recreate(u, id, found, newId) =>
      ClearedAgrees(w, u, id);
      var w1 := Cleared(w, u, id);
      AdmittedAgrees(w1, u, found, newId, now);
      EvictedAgrees(Admitted(w1, u, found, newId, now).0, capacity);
  }

  // ----- order ----------------------------------------------------------------

  lemma TouchedOrdered(w: World, u: string, id: string, before: int, now: int)
    requires Ordered(w, before) && before <= now
    requires forall e :: e in w.lru && e.id == id ==> e.user == u
    ensures Ordered(Touched(w, u, id, now), now)
  {
    var w' := Touched(w, u, id, now);
    var m := Without(w.lru, u);
    WithoutUpToMembers(w.lru, u, |w.lru|);
    WithoutUpToByTime(w.lru, u, |w.lru|, w.lastActive);
    assert w.lru[..|w.lru|] == w.lru;
    assert forall i :: 0 <= i < |m| ==> m[i] in w.lru && m[i].id != id;
    assert forall i :: 0 <= i < |m| ==> w'.lru[i] == m[i];
  }

  /** Dropping entries and the timestamps of ids that are no longer held. */
  lemma DroppedOrdered(w: World, w': World, now: int)
    requires Ordered(w, now) && ByTime(w'.lru, w.lastActive)
    requires forall e :: e in w'.lru ==> e in w.lru
    requires forall e :: e in w'.lru ==> e.id in w'.lastActive && w'.lastActive[e.id] == w.lastActive[e.id]
    ensures Ordered(w', now)
  {
    assert forall i :: 0 <= i < |w'.lru| ==> w'.lru[i] in w'.lru;
  }

  lemma AdmittedOrdered(w: World, u: string, found: Option<string>, newId: string, before: int, now: int)
    requires AgreesBut(w, u) && Enabled(w.cloud, Resume(u, found, newId))
    requires Ordered(w, before) && before <= now
    ensures Ordered(Admitted(w, u, found, newId, now).0, now)
  {
    var (c, r) := Resumed(w.cloud, u, found, newId);
    ResumeDelivers(w.cloud, u, found, newId);
    if r.Ok? {
      forall e | e in w.lru && e.id == r.value.id
        ensures e.user == u
      {
        assert Backed(w.cloud, e);
      }
      TouchedOrdered(w.(cloud := c), u, r.value.id, before, now);
    }
  }

  lemma EvictedOrdered(w: World, capacity: int, now: int)
    requires Agrees(w) && Ordered(w, now)
    ensures Ordered(Evicted(w, capacity), now)
  {
    var i := VictimIndex(w.lru, w.pinned);
    if |w.lru| > capacity && i < |w.lru| {
      var l := w.lru[..i] + w.lru[i + 1..];
      CutAt(w.lru, i);
      CutByTime(w.lru, i, w.lastActive);
      forall e | e in l
        ensures e in w.lru && e.id != w.lru[i].id
      {
        assert w.lru[i] in w.lru && Backed(w.cloud, e) && Backed(w.cloud, w.lru[i]);
      }
      DroppedOrdered(w, Evicted(w, capacity), now);
    }
  }

  lemma HibernatedOrdered(w: World, id: string, holder: Option<string>, now: int)
    requires Agrees(w) && Ordered(w, now) && StopsAt(w.lru, id, holder)
    ensures Ordered(PoolHibernated(w, id, holder).0, now)
  {
    HolderIsUnique(w, id, holder);
    if PoolHibernated(w, id, holder).1 {
      if holder.Some? {
        WithoutKeeps(w.lru, holder.value);
        WithoutUpToByTime(w.lru, holder.value, |w.lru|, w.lastActive);
      }
      DroppedOrdered(w, PoolHibernated(w, id, holder).0, now);
    }
  }

  lemma ClearedOrdered(w: World, u: string, id: string, now: int)
    requires Agrees(w) && Ordered(w, now)
    ensures Ordered(Cleared(w, u, id), now)
  {
    HeldIs(w.lru, u);
    WithoutKeeps(w.lru, u);
    WithoutUpToByTime(w.lru, u, |w.lru|, w.lastActive);
    var held := HeldUpTo(w.lru, u, |w.lru|);
    forall e | e in Without(w.lru, u) && held.Some?
      ensures e.id != held.value
    {
      assert Backed(w.cloud, e) && Backed(w.cloud, Entry(u, held.value));
    }
    DroppedOrdered(w, Cleared(w, u, id), now);
  }

  lemma StepOrdered(w: World, capacity: int, step: PoolStep, before: int, now: int)
    requires Agrees(w) && PoolEnabled(w, step) && Ordered(w, before) && before <= now
    ensures Ordered(PoolNext(w, capacity, step, now), now)
  {
    match step
    case GetOrResume(u, found, newId) =>
      AdmittedOrdered(w, u, found, newId, before, now);
      AdmittedAgrees(w, u, found, newId, now);
      EvictedOrdered(Admitted(w, u, found, newId, now).0, capacity, now);
    case MaybeEvict => EvictedOrdered(w, capacity, now);
    case Hibernate(id, holder) => HibernatedOrdered(w, id, holder, now);
    case Touch(id, holder) =>
      HolderIsUnique(w, id, holder);
      if holder.Some? {
        TouchedOrdered(w, holder.value, id, before, now);
      }
    case Pin(id) =>
    case Unpin(id) =>
    case Recreate(u, id, found, newId) =>
      var w1 := Cleared(w, u, id);
      ClearedAgrees(w, u, id);
      ClearedOrdered(w, u, id, before);
      AdmittedOrdered(w1, u, found, newId, before, now);
      AdmittedAgrees(w1, u, found, newId, now);
      EvictedOrdered(Admitted(w1, u, found, newId, now).0, capacity, now);
  }

  // ----- every run ------------------------------------------------------------

  datatype Timed = Timed(step: PoolStep, now: int)

  /** A run from `w` to `w'` whose clock reads start at `before` and never go back. */
  ghost predicate Leads(w: World, capacity: int, before: int, steps: seq<Timed>, w': World)
    decreases |steps|
  {
    if |steps| == 0 then w == w'
    else
      && PoolEnabled(w, steps[0].step) && before <= steps[0].now
      && Leads(PoolNext(w, capacity, steps[0].step, steps[0].now), capacity, steps[0].now, steps[1..], w')
  }

  function LastRead(before: int, steps: seq<Timed>): int {
    if |steps| == 0 then before else steps[|steps| - 1].now
  }

  /** One run after another. */
  lemma {:induction false} LeadsThen(w: World, capacity: int, before: int, first: seq<Timed>, w1: World,
                                     at: int, second: seq<Timed>, w2: World)
    requires Leads(w, capacity, before, first, w1) && LastRead(before, first) <= at
    requires Leads(w1, capacity, at, second, w2)
    ensures Leads(w, capacity, before, first + second, w2)
    decreases |first|
  {
    hide PoolNext, PoolEnabled;
    if |first| == 0 {
      assert first + second == second;
    } else {
      LeadsThen(PoolNext(w, capacity, first[0].step, first[0].now), capacity, first[0].now, first[1..], w1, at,
                second, w2);
      assert (first + second)[1..] == first[1..] + second;
    }
  }

  /** Some run leads from `w` to `w'`, with clock reads from `before` to `now`. */
  ghost predicate Reaches(w: World, capacity: int, before: int, now: int, w': World) {
    before <= now && exists steps :: Leads(w, capacity, before, steps, w') && LastRead(before, steps) <= now
  }

  lemma ReachesItself(w: World, capacity: int, before: int, now: int)
    requires before <= now
    ensures Reaches(w, capacity, before, now, w)
  {
    assert Leads(w, capacity, before, [], w) && LastRead(before, []) <= now;
  }

  lemma ReachesThen(w: World, capacity: int, before: int, at: int, w1: World, now: int, w2: World)
    requires Reaches(w, capacity, before, at, w1) && Reaches(w1, capacity, at, now, w2)
    ensures Reaches(w, capacity, before, now, w2)
  {
    var first :| Leads(w, capacity, before, first, w1) && LastRead(before, first) <= at;
    var second :| Leads(w1, capacity, at, second, w2) && LastRead(at, second) <= now;
    LeadsThen(w, capacity, before, first, w1, at, second, w2);
    assert LastRead(before, first + second) <= now;
  }

  /** What one more operation reaches. */
  lemma ReachesOn(w: World, capacity: int, before: int, at: int, w1: World, step: PoolStep, now: int)
    requires Reaches(w, capacity, before, at, w1) && PoolEnabled(w1, step) && at <= now
    ensures Reaches(w, capacity, before, now, PoolNext(w1, capacity, step, now))
  {
    var steps := [Timed(step, now)];
    var w2 := PoolNext(w1, capacity, step, now);
    assert steps[1..] == [] && Leads(w2, capacity, now, steps[1..], w2);
    assert Leads(w1, capacity, at, steps, w2) && LastRead(at, steps) <= now;
    ReachesThen(w, capacity, before, at, w1, now, w2);
  }

  const EMPTY := World(Cloud(map[], map[]), [], map[], {})

  lemma {:induction false} RunKeeps(w: World, capacity: int, before: int, steps: seq<Timed>, w': World)
    requires Agrees(w) && Ordered(w, before) && Leads(w, capacity, before, steps, w')
    ensures Agrees(w') && Ordered(w', LastRead(before, steps))
    decreases |steps|
  {
    if |steps| > 0 {
      var w1 := PoolNext(w, capacity, steps[0].step, steps[0].now);
      StepAgrees(w, capacity, steps[0].step, steps[0].now);
      StepOrdered(w, capacity, steps[0].step, before, steps[0].now);
      RunKeeps(w1, capacity, steps[0].now, steps[1..], w');
    }
  }

  lemma ReachesKeeps(w: World, capacity: int, before: int, now: int, w': World)
    requires Agrees(w) && Ordered(w, before) && Reaches(w, capacity, before, now, w')
    ensures Agrees(w') && Ordered(w', now)
  {
    var steps :| Leads(w, capacity, before, steps, w') && LastRead(before, steps) <= now;
    RunKeeps(w, capacity, before, steps, w');
  }

  /** Records are never dropped or relabelled. */
  ghost predicate KeepsRecords(c: Cloud, c': Cloud) {
    forall id :: id in c.sandboxes ==> id in c'.sandboxes && c'.UserOf(id) == c.UserOf(id)
  }

  lemma ResumeKeepsRecords(w: World, capacity: int, u: string, found: Option<string>, newId: string, now: int)
    requires Enabled(w.cloud, Resume(u, found, newId))
    ensures KeepsRecords(w.cloud, PoolResumed(w, capacity, u, found, newId, now).0.cloud)
  {
    assert KeepsRecords(w.cloud, Resumed(w.cloud, u, found, newId).0);
  }

  lemma ClearKeepsRecords(w: World, u: string, id: string)
    ensures KeepsRecords(w.cloud, Cleared(w, u, id).cloud)
  {
  }

  lemma StepKeepsRecords(w: World, capacity: int, step: PoolStep, now: int)
    requires PoolEnabled(w, step)
    ensures KeepsRecords(w.cloud, PoolNext(w, capacity, step, now).cloud)
  {
    hide PoolResumed, Cleared;
    match step
    case GetOrResume(u, found, newId) => ResumeKeepsRecords(w, capacity, u, found, newId, now);
    case Recreate(u, id, found, newId) =>
      ClearKeepsRecords(w, u, id);
      ResumeKeepsRecords(Cleared(w, u, id), capacity, u, found, newId, now);
    case _ =>
  }

  lemma {:induction false} RunKeepsRecords(w: World, capacity: int, before: int, steps: seq<Timed>, w': World)
    requires Leads(w, capacity, before, steps, w')
    ensures KeepsRecords(w.cloud, w'.cloud)
    decreases |steps|
  {
    if |steps| > 0 {
      StepKeepsRecords(w, capacity, steps[0].step, steps[0].now);
      RunKeepsRecords(PoolNext(w, capacity, steps[0].step, steps[0].now), capacity, steps[0].now, steps[1..], w');
    }
  }

  lemma ReachesKeepsRecords(w: World, capacity: int, before: int, now: int, w': World)
    requires Reaches(w, capacity, before, now, w')
    ensures KeepsRecords(w.cloud, w'.cloud)
  {
    var steps :| Leads(w, capacity, before, steps, w') && LastRead(before, steps) <= now;
    RunKeepsRecords(w, capacity, before, steps, w');
  }

  /** No unpinned entry was last active earlier than `v`. */
  ghost predicate OldestUnpinned(w: World, v: Entry) {
    && v in w.lru && v.id !in w.pinned && v.id in w.lastActive
    && forall e :: e in w.lru && e.id !in w.pinned ==> e.id in w.lastActive && w.lastActive[v.id] <= w.lastActive[e.id]
  }

  /** `v` leaves the active set and stops running, and nothing else happens. */
  ghost predicate OnlyDrops(w: World, w': World, v: Entry) {
    && (forall e :: e in w'.lru <==> e in w.lru && e != v)
    && |w'.lru| == |w.lru| - 1
    && (forall id :: IsRunning(w'.cloud, id) <==> IsRunning(w.cloud, id) && id != v.id)
  }

  lemma VictimIsOldest(w: World, now: int)
    requires Agrees(w) && Ordered(w, now) && VictimIndex(w.lru, w.pinned) < |w.lru|
    ensures OldestUnpinned(w, w.lru[VictimIndex(w.lru, w.pinned)])
  {
    var i := VictimIndex(w.lru, w.pinned);
    VictimIndexIs(w.lru, w.pinned);
    forall e | e in w.lru && e.id !in w.pinned
      ensures e.id in w.lastActive && w.lastActive[w.lru[i].id] <= w.lastActive[e.id]
    {
      var j :| 0 <= j < |w.lru| && w.lru[j] == e;
      assert i <= j;
    }
  }

  lemma EvictionOnlyDrops(w: World, capacity: int)
    requires Agrees(w) && |w.lru| > capacity && VictimIndex(w.lru, w.pinned) < |w.lru|
    ensures OnlyDrops(w, Evicted(w, capacity), w.lru[VictimIndex(w.lru, w.pinned)])
  {
    var i := VictimIndex(w.lru, w.pinned);
    CutAt(w.lru, i);
    assert w.lru[i] in w.lru && Backed(w.cloud, w.lru[i]);
  }

  /** An eviction takes an oldest unpinned entry exactly when over capacity with something unpinned. */
  lemma EvictsTheOldest(w: World, capacity: int, now: int)
    requires Agrees(w) && Ordered(w, now)
    ensures if |w.lru| > capacity && exists e :: e in w.lru && e.id !in w.pinned
            then exists v :: OldestUnpinned(w, v) && OnlyDrops(w, Evicted(w, capacity), v)
            else Evicted(w, capacity) == w
  {
    VictimIndexIs(w.lru, w.pinned);
    if |w.lru| > capacity && exists e :: e in w.lru && e.id !in w.pinned {
      VictimIsOldest(w, now);
      EvictionOnlyDrops(w, capacity);
    }
  }
}
