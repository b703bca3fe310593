/**
  The sandbox pool's linked structures: the LRU list, the user index into it,
  the timestamps and the pins (go/internal/orchestrator/pool.go).
  Each method's effect is one function of `PoolSpec`.
 */
module Pool {
  import opened Wrappers
  import opened Provider
  import opened Orchestration
  import opened PoolSpec

  /**
    container/list: a list of element handles and the value each element holds now.
    The user index shares the handles, so a value set through one is seen through the other.
   */
  datatype List = List(order: seq<nat>, value: map<nat, Entry>)

  function Values(l: List): (s: seq<Entry>)
    requires forall e :: e in l.order ==> e in l.value
    ensures |s| == |l.order|
    ensures forall i :: 0 <= i < |s| ==> s[i] == l.value[l.order[i]]
  {
    seq(|l.order|, i requires 0 <= i < |l.order| => l.value[l.order[i]])
  }

  /** The list and the user index are in bijection; handles from `next` on are unused. */
  ghost predicate Linked(l: List, byUser: map<string, nat>, next: nat) {
    && (forall i, j :: 0 <= i < j < |l.order| ==> l.order[i] != l.order[j])
    && (forall i {:trigger l.order[i]} :: 0 <= i < |l.order| ==> l.order[i] in l.value && l.order[i] < next)
    && (forall i {:trigger l.order[i]} :: 0 <= i < |l.order| ==>
                                            var u := l.value[l.order[i]].user; u in byUser && byUser[u] == l.order[i])
    && (forall u {:trigger byUser[u]} :: u in byUser ==>
                                           byUser[u] in l.order && byUser[u] in l.value && l.value[byUser[u]].user == u)
  }

  lemma DistinctUsers(l: List, byUser: map<string, nat>, next: nat)
    requires Linked(l, byUser, next)
    ensures forall i, j :: 0 <= i < j < |l.order| ==> Values(l)[i].user != Values(l)[j].user
  {
    forall i, j | 0 <= i < j < |l.order|
      ensures Values(l)[i].user != Values(l)[j].user
    {
      assert l.order[i] in l.order && l.order[j] in l.order;
    }
  }

  function Cut(l: List, i: nat): List
    requires i < |l.order|
  {
    l.(order := l.order[..i] + l.order[i + 1..])
  }

  lemma CutKeeps<T>(es: seq<T>, i: nat)
    requires i < |es|
    requires forall j, k :: 0 <= j < k < |es| ==> es[j] != es[k]
    ensures var kept := es[..i] + es[i + 1..];
            && (forall j, k :: 0 <= j < k < |kept| ==> kept[j] != kept[k])
            && (forall e :: e in kept <==> e in es && e != es[i])
  {
    var kept := es[..i] + es[i + 1..];
    assert forall k :: 0 <= k < |kept| ==> kept[k] == es[if k < i then k else k + 1];
    assert forall k :: 0 <= k < |es| && k != i ==> es[k] == kept[if k < i then k else k - 1];
  }

  lemma LinkedAt(l: List, byUser: map<string, nat>, next: nat, e: nat)
    requires Linked(l, byUser, next) && e in l.order
    ensures e in l.value && e < next
    ensures var u := l.value[e].user; u in byUser && byUser[u] == e
  {
    var i :| 0 <= i < |l.order| && l.order[i] == e;
  }

  lemma UnlinkedAt(l: List, byUser: map<string, nat>, next: nat, i: nat)
    requires Linked(l, byUser, next) && i < |l.order|
    ensures Linked(Cut(l, i), byUser - {l.value[l.order[i]].user}, next)
    ensures l.order[i] !in Cut(l, i).order
  {
    var l', u := Cut(l, i), l.value[l.order[i]].user;
    LinkedAt(l, byUser, next, l.order[i]);
    CutKeeps(l.order, i);
    forall k | 0 <= k < |l'.order|
      ensures l'.order[k] in l'.order && l'.order[k] in l.value && l'.order[k] < next
      ensures l.value[l'.order[k]].user in byUser - {u} && byUser[l.value[l'.order[k]].user] == l'.order[k]
    {
      assert l'.order[k] in l'.order;
      LinkedAt(l, byUser, next, l'.order[k]);
    }
  }

  lemma CutValues(l: List, i: nat)
    requires i < |l.order| && forall e :: e in l.order ==> e in l.value
    requires forall j, k :: 0 <= j < k < |l.order| ==> l.value[l.order[j]].user != l.value[l.order[k]].user
    ensures Values(Cut(l, i)) == Without(Values(l), l.value[l.order[i]].user)
  {
    CutIsWithout(Values(l), i);
    assert Values(Cut(l, i)) == Values(l)[..i] + Values(l)[i + 1..];
  }

  function Pushed(l: List, e: nat, v: Entry): List {
    List(l.order + [e], l.value[e := v])
  }

  lemma PushedLinked(l: List, byUser: map<string, nat>, next: nat, e: nat, v: Entry)
    requires Linked(l, byUser, next) && e !in l.order && e < next && v.user !in byUser
    ensures Linked(Pushed(l, e, v), byUser[v.user := e], next)
    ensures Values(Pushed(l, e, v)) == Values(l) + [v]
  {
    var l' := Pushed(l, e, v);
    assert l'.order[|l.order|] == e;
    assert forall x :: x in l'.order <==> x in l.order || x == e;
  }

  lemma HeldOfLinked(l: List, byUser: map<string, nat>, next: nat, u: string)
    requires Linked(l, byUser, next)
    ensures HeldUpTo(Values(l), u, |l.order|) == if u in byUser then Some(l.value[byUser[u]].id) else None
  {
    var s := Values(l);
    HeldIs(s, u);
    forall e | e in s && e.user == u
      ensures u in byUser && e == l.value[byUser[u]]
    {
      var i :| 0 <= i < |s| && s[i] == e;
      assert l.order[i] in l.order;
    }
    if u in byUser {
      var i :| 0 <= i < |l.order| && l.order[i] == byUser[u];
      assert s[i] == l.value[byUser[u]];
    }
  }

  /** Taking out the only element of a user is taking out the user. */
  lemma CutIsWithout(l: seq<Entry>, i: nat)
    requires i < |l|
    requires forall j, k :: 0 <= j < k < |l| ==> l[j].user != l[k].user
    ensures l[..i] + l[i + 1..] == Without(l, l[i].user)
  {
    CutUpTo(l, i, |l|);
    assert l[i + 1..|l|] == l[i + 1..];
  }

  lemma {:induction false} CutUpTo(l: seq<Entry>, i: nat, n: nat)
    requires i < n <= |l|
    requires forall j, k :: 0 <= j < k < |l| ==> l[j].user != l[k].user
    ensures l[..i] + l[i + 1..n] == WithoutUpTo(l, l[i].user, n)
  {
    if n == i + 1 {
      AbsentUpTo(l, l[i].user, i);
    } else {
      CutUpTo(l, i, n - 1);
    }
  }

  lemma {:induction false} AbsentUpTo(l: seq<Entry>, u: string, n: nat)
    requires n <= |l| && forall j :: 0 <= j < n ==> l[j].user != u
    ensures WithoutUpTo(l, u, n) == l[..n]
  {
    if n > 0 {
      AbsentUpTo(l, u, n - 1);
    }
  }

  lemma AbsentFromLinked(l: List, byUser: map<string, nat>, next: nat, u: string)
    requires Linked(l, byUser, next) && u !in byUser
    ensures Without(Values(l), u) == Values(l)
  {
    assert forall i :: 0 <= i < |l.order| ==> l.order[i] in l.order;
    AbsentUser(Values(l), u);
  }

  lemma AbsentUser(l: seq<Entry>, u: string)
    requires forall j :: 0 <= j < |l| ==> l[j].user != u
    ensures Without(l, u) == l
  {
    AbsentUpTo(l, u, |l|);
  }

  lemma EvictionIs(w: World, capacity: int, i: nat)
    requires |w.lru| > capacity && i < |w.lru| && i == VictimIndex(w.lru, w.pinned)
    requires forall j, k :: 0 <= j < k < |w.lru| ==> w.lru[j].user != w.lru[k].user
    ensures var e := w.lru[i];
            Evicted(w, capacity) == w.(cloud := Stopped(w.cloud, e.id).0,
                                       lru := Without(w.lru, e.user),
                                       lastActive := w.lastActive - {e.id})
  {
    CutIsWithout(w.lru, i);
  }

  /** The victim is the first entry whose predecessors are all pinned. */
  lemma {:induction false} VictimIs(l: seq<Entry>, pinned: set<string>, i: nat)
    requires i <= |l|
    requires forall j :: 0 <= j < i ==> l[j].id in pinned
    requires i < |l| ==> l[i].id !in pinned
    ensures VictimIndex(l, pinned) == i
  {
    if i > 0 {
      VictimIs(l[1..], pinned, i - 1);
    }
  }

  datatype ActiveItem = ActiveItem(entry: Entry, lastActive: int)

  /** Go's zero time, read for a sandbox without a timestamp. */
  const ZERO_TIME := 0

  class SandboxPool {
    const orch: Orchestrator
    const capacity: int
    var active: List
    var byUser: map<string, nat>
    var lastActive: map<string, int>
    var pinned: set<string>
    /** The handle the next allocated element gets. */
    var next: nat

    ghost predicate Valid()
      reads this, orch.client
    {
      Keyed(orch.client.sandboxes) && Linked(active, byUser, next)
    }

    ghost function View(): World
      requires Valid()
      reads this, orch.client, orch.store
    {
      World(orch.View(), Values(active), lastActive, pinned)
    }

    constructor (orch: Orchestrator, capacity: int)
      requires Keyed(orch.client.sandboxes)
      ensures this.orch == orch && this.capacity == capacity
      ensures Valid() && View() == World(orch.View(), [], map[], {})
    {
      this.orch := orch;
      this.capacity := capacity;
      active, byUser, lastActive, pinned, next := List([], map[]), map[], map[], {}, 0;
    }

    /** container/list's Remove, with the index entry dropped as the callers do. */
    method Unlink(e: nat)
      requires Linked(active, byUser, next) && e in active.order
      modifies this`active, this`byUser
      ensures Linked(active, byUser, next) && e !in active.order
      ensures byUser == old(byUser) - {old(active).value[e].user}
      ensures Values(active) == Without(old(Values(active)), old(active).value[e].user)
    {
      var i := 0;
      while active.order[i] != e
        invariant 0 <= i < |active.order|
        invariant e !in active.order[..i]
        decreases |active.order| - i
      {
        i := i + 1;
      }
      UnlinkedAt(active, byUser, next, i);
      DistinctUsers(active, byUser, next);
      CutValues(active, i);
      byUser := byUser - {active.value[e].user};
      active := Cut(active, i);
    }

    /** The list half of touchInternal: move the user's element to the back, or push a new one. */
    method MoveOrPush(u: string, id: string)
      requires Linked(active, byUser, next)
      modifies this`active, this`byUser, this`next
      ensures Linked(active, byUser, next)
      ensures Values(active) == Without(old(Values(active)), u) + [Entry(u, id)]
    {
      var e := next;
      if u in byUser {
        e := byUser[u];
        Unlink(e);
      } else {
        AbsentFromLinked(active, byUser, next, u);
        next := next + 1;
      }
      PushedLinked(active, byUser, next, e, Entry(u, id));
      active := Pushed(active, e, Entry(u, id));
      byUser := byUser[u := e];
    }

    method TouchInternal(u: string, id: string, now: int)
      requires Valid()
      modifies this
      ensures Valid()
      ensures View() == Touched(old(View()), u, id, now)
    {
      lastActive := lastActive[id := now];
      MoveOrPush(u, id);
    }

    method Touch(id: string, now: int) returns (ghost holder: Option<string>)
      requires Valid()
      modifies this
      ensures Valid()
      ensures StopsAt(old(View()).lru, id, holder) && View() == HookTouched(old(View()), id, now, holder)
    {
      lastActive := lastActive[id := now];
      var at := FindHolder(id);
      if at.Some? {
        MoveOrPush(at.value, id);
      }
      holder := at;
    }

    /** The walk over `byUser` for the first element that holds `id`. */
    method FindHolder(id: string) returns (holder: Option<string>)
      requires Linked(active, byUser, next)
      ensures StopsAt(Values(active), id, holder)
      ensures holder.Some? ==> holder.value in byUser && active.value[byUser[holder.value]] == Entry(holder.value, id)
    {
      var todo := byUser.Keys;
      while todo != {}
        invariant todo <= byUser.Keys
        invariant forall u :: u in byUser && u !in todo ==> active.value[byUser[u]].id != id
        decreases |todo|
      {
        var u :| u in todo;
        if active.value[byUser[u]].id == id {
          return Some(u);
        }
        todo := todo - {u};
      }
      assert forall i :: 0 <= i < |active.order| ==> active.order[i] in active.order;
      return None;
    }

    method Remove(u: string)
      requires Valid()
      modifies this
      ensures Valid() && View() == Removed(old(View()), u)
    {
      HeldOfLinked(active, byUser, next, u);
      if u in byUser {
        Drop(byUser[u]);
      }
    }

    method Hibernate(id: string) returns (ok: bool, ghost holder: Option<string>)
      requires Valid()
      modifies this, orch.client
      ensures Valid()
      ensures StopsAt(old(View()).lru, id, holder) && (View(), ok) == PoolHibernated(old(View()), id, holder)
    {
      ok := HibernateInCloud(id);
      holder := AHolder(View().lru, id);
      if ok {
        holder := DropSandbox(id);
      }
    }

    /** The walk from the front of the list past the pinned entries. */
    method PickVictim() returns (i: nat)
      requires Linked(active, byUser, next)
      ensures i == VictimIndex(Values(active), pinned)
      ensures i <= |active.order|
    {
      i := 0;
      while i < |active.order| && active.value[active.order[i]].id in pinned
        invariant 0 <= i <= |active.order|
        invariant forall j :: 0 <= j < i ==> active.value[active.order[j]].id in pinned
      {
        i := i + 1;
      }
      VictimIs(Values(active), pinned, i);
    }

    method MaybeEvict()
      requires Valid()
      modifies this, orch.client
      ensures Valid() && View() == Evicted(old(View()), capacity)
    {
      if |active.order| <= capacity {
        return;
      }
      var i := PickVictim();
      if i == |active.order| {
        return;
      }
      var id := active.value[active.order[i]].id;
      DistinctUsers(active, byUser, next);
      EvictionIs(View(), capacity, i);
      Drop(active.order[i]);
      var _ := HibernateInCloud(id);
    }

    /** Unlink an element and forget its timestamp. */
    method Drop(e: nat)
      requires Valid() && e in active.order
      modifies this`active, this`byUser, this`lastActive
      ensures Valid()
      ensures View() == old(View()).(lru := Without(old(View()).lru, old(active).value[e].user),
                                     lastActive := old(lastActive) - {old(active).value[e].id})
    {
      lastActive := lastActive - {active.value[e].id};
      Unlink(e);
    }

    /** Drop the entry that holds `id`, wherever it is, and the timestamp in any case. */
    method DropSandbox(id: string) returns (ghost holder: Option<string>)
      requires Valid()
      modifies this`active, this`byUser, this`lastActive
      ensures Valid() && StopsAt(old(View()).lru, id, holder)
      ensures View() == old(View()).(lru := match holder
                                            case Some(u) => Without(old(View()).lru, u)
                                            case None => old(View()).lru,
                                     lastActive := old(lastActive) - {id})
    {
      var at := FindHolder(id);
      holder := at;
      if at.Some? {
        Drop(byUser[at.value]);
      } else {
        lastActive := lastActive - {id};
      }
    }

    method HibernateInCloud(id: string) returns (ok: bool)
      requires Valid()
      modifies orch.client
      ensures Valid()
      ensures (View().cloud, ok) == Stopped(old(View()).cloud, id) && View() == old(View()).(cloud := View().cloud)
    {
      ok := orch.Hibernate(id);
    }

    function TimeOf(id: string): int
      reads this
    {
      if id in lastActive then lastActive[id] else ZERO_TIME
    }

    /** A snapshot in LRU-first order. */
    method ActiveItems() returns (out: seq<ActiveItem>)
      requires Valid()
      ensures |out| == |View().lru|
      ensures forall i :: 0 <= i < |out| ==>
                            out[i].entry == View().lru[i]
                            && out[i].lastActive == TimeOf(out[i].entry.id)
    {
      out := [];
      for i := 0 to |active.order|
        invariant |out| == i
        invariant forall j :: 0 <= j < i ==>
                                out[j].entry == Values(active)[j]
                                && out[j].lastActive == TimeOf(out[j].entry.id)
      {
        var e := active.value[active.order[i]];
        out := out + [ActiveItem(e, TimeOf(e.id))];
      }
    }

    method Pin(id: string)
      requires Valid()
      modifies this`pinned
      ensures Valid() && View() == old(View()).(pinned := old(pinned) + {id})
    {
      pinned := pinned + {id};
    }

    method Unpin(id: string)
      requires Valid()
      modifies this`pinned
      ensures Valid() && View() == old(View()).(pinned := old(pinned) - {id})
    {
      pinned := pinned - {id};
    }

    method GetOrResume(u: string, newId: string, now: int) returns (r: Result<Sandbox>, ghost found: Option<string>)
      requires Valid()
      modifies this, orch.client, orch.store
      ensures Valid()
      ensures SearchAnswer(old(orch.client.sandboxes), u, found)
      ensures (View(), r) == PoolResumed(old(View()), capacity, u, found, newId, now)
    {
      r, found := orch.GetOrResume(u, newId);
      if r.Err? {
        return;
      }
      TouchInternal(u, r.value.id, now);
      MaybeEvict();
    }

    /** forceRecreate's first two calls. */
    method Clear(u: string, id: string)
      requires Valid()
      modifies this, orch.client, orch.store
      ensures Valid() && View() == Cleared(old(View()), u, id)
    {
      Remove(u);
      orch.Destroy(id);
    }
  }
}
