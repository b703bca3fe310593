/**
  What each pool operation does, as functions on values
  (go/internal/orchestrator/pool.go and forceRecreate of health_probe.go).
  Go leaves the walk over `byUser` unordered, so the user whose entry it stops at is a parameter.
 */
module PoolSpec {
  import opened Wrappers
  import opened Orchestration

  datatype Entry = Entry(user: string, id: string)

  /** `lru` runs from least to most recently used. */
  datatype World = World(cloud: Cloud, lru: seq<Entry>, lastActive: map<string, int>, pinned: set<string>)

  function Without(l: seq<Entry>, u: string): seq<Entry> {
    WithoutUpTo(l, u, |l|)
  }

  function WithoutUpTo(l: seq<Entry>, u: string, n: nat): seq<Entry>
    requires n <= |l|
  {
    if n == 0 then []
    else if l[n - 1].user == u then WithoutUpTo(l, u, n - 1)
    else WithoutUpTo(l, u, n - 1) + [l[n - 1]]
  }

  lemma {:induction false} WithoutUpToIsShorter(l: seq<Entry>, u: string, n: nat)
    requires n <= |l|
    ensures |WithoutUpTo(l, u, n)| <= n
    ensures (exists i :: 0 <= i < n && l[i].user == u) ==> |WithoutUpTo(l, u, n)| < n
  {
    if n > 0 {
      WithoutUpToIsShorter(l, u, n - 1);
    }
  }

  /** Which user's entry for sandbox `id` a walk over the users stops at. */
  ghost predicate StopsAt(l: seq<Entry>, id: string, holder: Option<string>) {
    match holder
    case Some(u) => Entry(u, id) in l
    case None => forall e :: e in l ==> e.id != id
  }

  ghost function AHolder(l: seq<Entry>, id: string): (holder: Option<string>)
    ensures StopsAt(l, id, holder)
  {
    if exists u :: Entry(u, id) in l then
      var u :| Entry(u, id) in l;
      Some(u)
    else
      assert forall e :: e in l && e.id == id ==> Entry(e.user, id) == e;
      None
  }

  /** The first entry that is not pinned, or the length when all are. */
  function VictimIndex(l: seq<Entry>, pinned: set<string>): (i: nat)
    ensures i <= |l|
  {
    if |l| == 0 || l[0].id !in pinned then 0 else 1 + VictimIndex(l[1..], pinned)
  }

  function Touched(w: World, u: string, id: string, now: int): World {
    w.(lru := Without(w.lru, u) + [Entry(u, id)], lastActive := w.lastActive[id := now])
  }

  function HookTouched(w: World, id: string, now: int, holder: Option<string>): World {
    match holder
    case Some(u) => Touched(w, u, id, now)
    case None => w.(lastActive := w.lastActive[id := now])
  }

  /** The sandbox held for `u` among the first `n` entries. */
  function HeldUpTo(l: seq<Entry>, u: string, n: nat): Option<string>
    requires n <= |l|
  {
    if n == 0 then None
    else if l[n - 1].user == u then Some(l[n - 1].id)
    else HeldUpTo(l, u, n - 1)
  }

  lemma {:induction false} HeldUpToIs(l: seq<Entry>, u: string, n: nat)
    requires n <= |l|
    ensures match HeldUpTo(l, u, n)
            case Some(id) => Entry(u, id) in l[..n]
            case None => forall e :: e in l[..n] ==> e.user != u
  {
    if n > 0 {
      HeldUpToIs(l, u, n - 1);
      assert l[..n] == l[..n - 1] + [l[n - 1]];
    }
  }

  lemma HeldIs(l: seq<Entry>, u: string)
    ensures match HeldUpTo(l, u, |l|)
            case Some(id) => Entry(u, id) in l
            case None => forall e :: e in l ==> e.user != u
  {
    HeldUpToIs(l, u, |l|);
    assert l[..|l|] == l;
  }

  function Removed(w: World, u: string): World {
    match HeldUpTo(w.lru, u, |w.lru|)
    case None => w
    case Some(id) => w.(lru := Without(w.lru, u), lastActive := w.lastActive - {id})
  }

  function PoolHibernated(w: World, id: string, holder: Option<string>): (World, bool) {
    var (c, ok) := Stopped(w.cloud, id);
    if !ok then (w, false)
    else
      var l := match holder case Some(u) => Without(w.lru, u) case None => w.lru;
      (w.(cloud := c, lru := l, lastActive := w.lastActive - {id}), true)
  }

  function Evicted(w: World, capacity: int): World {
    var i := VictimIndex(w.lru, w.pinned);
    if |w.lru| <= capacity || i == |w.lru| then w
    else
      var id := w.lru[i].id;
      w.(cloud := Stopped(w.cloud, id).0, lru := w.lru[..i] + w.lru[i + 1..], lastActive := w.lastActive - {id})
  }

  /** Resume and touch, before the eviction pass. */
  function Admitted(w: World, u: string, found: Option<string>, newId: string, now: int): (World, Result<Sandbox>)
    requires found.Some? ==> found.value in w.cloud.sandboxes
  {
    var (c, r) := Resumed(w.cloud, u, found, newId);
    match r
    case Err(_) => (w.(cloud := c), r)
    case Ok(sandbox) => (Touched(w.(cloud := c), u, sandbox.id, now), r)
  }

  function PoolResumed(w: World, capacity: int, u: string, found: Option<string>, newId: string, now: int)
    : (World, Result<Sandbox>)
    requires found.Some? ==> found.value in w.cloud.sandboxes
  {
    var (w', r) := Admitted(w, u, found, newId, now);
    (if r.Ok? then Evicted(w', capacity) else w', r)
  }

  /** Drop the user and destroy the sandbox: the first half of a forced recreation. */
  function Cleared(w: World, u: string, id: string): World {
    var w1 := Removed(w, u);
    w1.(cloud := Torn(w1.cloud, id))
  }
}
