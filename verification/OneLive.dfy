/**
  One live sandbox per user, over every run of whole lifecycle operations interleaved
  with the provider's own auto-stop and with deletions made behind the orchestrator's back.
 */
module OneLive {
  import opened Wrappers
  import opened Provider
  import opened Orchestration

  /** `id` is a live sandbox of `u`. */
  predicate Owns(c: Cloud, u: string, id: string) {
    Carries(c.sandboxes, id, u)
  }

  ghost predicate AtMostOneLive(c: Cloud) {
    forall u, a, b :: Owns(c, u, a) && Owns(c, u, b) ==> a == b
  }

  /** The store names the user's own sandbox, and no other live one exists beside it. */
  ghost predicate NamesExactly(c: Cloud, u: string, id: string) {
    && id in c.sandboxes && c.UserOf(id) == u
    && forall x :: Owns(c, u, x) ==> x == id
  }

  ghost predicate StoreIsExact(c: Cloud) {
    forall u :: u in c.store ==> NamesExactly(c, u, c.store[u])
  }

  ghost predicate WellFormed(c: Cloud) {
    && Keyed(c.sandboxes)
    && "" !in c.sandboxes
    && (forall id :: id in c.sandboxes ==> c.UserOf(id) != "")
    && (forall id :: id in c.sandboxes ==> c.sandboxes[id].state != Provisioning)
  }

  ghost predicate Good(c: Cloud) {
    WellFormed(c) && AtMostOneLive(c) && StoreIsExact(c)
  }

  datatype CloudStep =
    | Resume(u: string, found: Option<string>, newId: string)
    | Hibernate(id: string)
    | Destroy(id: string)
    | AutoStop(id: string)
    | DeleteOutside(id: string)

  predicate NewId(c: Cloud, id: string) {
    id != "" && id !in c.sandboxes
  }

  ghost predicate Enabled(c: Cloud, step: CloudStep) {
    match step
    case Resume(u, found, newId) => SearchAnswer(c.sandboxes, u, found) && NewId(c, newId)
    case AutoStop(id) => id in c.sandboxes && c.sandboxes[id].state == Running
    case _ => true
  }

  ghost function Next(c: Cloud, step: CloudStep): Cloud
    requires Enabled(c, step)
  {
    match step
    case Resume(u, found, newId) => Resumed(c, u, found, newId).0
    case Hibernate(id) => Stopped(c, id).0
    case Destroy(id) => Torn(c, id)
    case AutoStop(id) => c.(sandboxes := WithState(c.sandboxes, id, Hibernated))
    case DeleteOutside(id) => c.(sandboxes := Deleted(c.sandboxes, id))
  }

  /** `steps` takes `c` to `c'`, every step enabled where it is taken. */
  ghost predicate Leads(c: Cloud, steps: seq<CloudStep>, c': Cloud)
    decreases |steps|
  {
    if |steps| == 0 then c == c'
    else Enabled(c, steps[0]) && Leads(Next(c, steps[0]), steps[1..], c')
  }

  // ----- one operation --------------------------------------------------------

  /** Some sandbox of the user could be handed out without creating one. */
  ghost predicate HasLive(c: Cloud, u: string) {
    exists id :: Owns(c, u, id)
  }

  /** Nothing in the user's id that a volume name may not hold. */
  ghost predicate NamesVolumes(u: string) {
    forall i :: 0 <= i < |u| ==> u[i] != ' ' && u[i] != '/' && u[i] != ':'
  }

  /** What a caller of get-or-resume is owed. */
  ghost predicate Delivers(c: Cloud, u: string, c': Cloud, r: Result<Sandbox>) {
    && (r.Ok? <==> u != "" && (NamesVolumes(u) || HasLive(c, u)))
    && (r.Err? ==> c'.sandboxes == c.sandboxes)
    && (r.Ok? ==>
          && r.value.userId == u && r.value.state == Running
          && u in c'.store && c'.store[u] == r.value.id
          && r.value.id in c'.sandboxes && c'.sandboxes[r.value.id].state == Running && c'.UserOf(r.value.id) == u
          && (HasLive(c, u) ==> r.value.id in c.sandboxes && c'.sandboxes.Keys == c.sandboxes.Keys)
          && (r.value.id in c.sandboxes ==> c.UserOf(r.value.id) == u)
          && (forall id :: id in c.sandboxes && id != r.value.id ==>
                id in c'.sandboxes && c'.sandboxes[id] == c.sandboxes[id]))
    && (forall id :: id in c'.sandboxes ==> id in c.sandboxes || (r.Ok? && id == r.value.id))
    && (forall v :: v != u ==> (v in c'.store <==> v in c.store) && (v in c.store ==> c'.store[v] == c.store[v]))
  }

  /** Waking or stopping a live sandbox moves nothing but its own state. */
  lemma TurnKeepsGood(c: Cloud, id: string, state: SandboxState)
    requires Good(c) && id in c.sandboxes && c.sandboxes[id].Live() && state != Destroyed && state != Provisioning
    ensures Good(c.(sandboxes := WithState(c.sandboxes, id, state)))
    ensures forall u, x :: Owns(c.(sandboxes := WithState(c.sandboxes, id, state)), u, x) == Owns(c, u, x)
  {
    var c' := c.(sandboxes := WithState(c.sandboxes, id, state));
    assert forall u, x :: Owns(c', u, x) == Owns(c, u, x);
    assert forall x :: x in c.sandboxes ==> c'.UserOf(x) == c.UserOf(x);
    assert forall u :: u in c.store && NamesExactly(c, u, c.store[u]) ==> NamesExactly(c', u, c'.store[u]);
  }

  lemma DeleteKeepsGood(c: Cloud, id: string)
    requires Good(c)
    ensures Good(c.(sandboxes := Deleted(c.sandboxes, id)))
  {
    var c' := c.(sandboxes := Deleted(c.sandboxes, id));
    assert forall u, x :: Owns(c', u, x) ==> Owns(c, u, x);
    assert forall x :: x in c.sandboxes ==> c'.UserOf(x) == c.UserOf(x);
    assert forall u :: u in c.store && NamesExactly(c, u, c.store[u]) ==> NamesExactly(c', u, c'.store[u]);
  }

  lemma CreateKeepsGood(c: Cloud, u: string, newId: string)
    requires Good(c) && NewId(c, newId) && !HasLive(c, u)
    ensures Good(Created(c, u, newId).0)
  {
    var (c', r) := Created(c, u, newId);
    if r.Ok? {
      assert forall x :: x in c.sandboxes ==> c'.UserOf(x) == c.UserOf(x);
      assert forall v, x :: Owns(c', v, x) ==> Owns(c, v, x) || (v == u && x == newId);
      assert NamesExactly(c', u, newId);
      forall v | v in c'.store && v != u
        ensures NamesExactly(c', v, c'.store[v])
      {
        assert NamesExactly(c, v, c.store[v]);
      }
    }
  }

  lemma ValidNamesVolumes(u: string)
    ensures ValidUserId(u) <==> u != "" && NamesVolumes(u)
  {
  }

  lemma CreateDelivers(c: Cloud, u: string, newId: string)
    requires Good(c) && NewId(c, newId) && !HasLive(c, u)
    ensures var (c', r) := Created(c, u, newId); Good(c') && Delivers(c, u, c', r)
  {
    CreateKeepsGood(c, u, newId);
    ValidNamesVolumes(u);
  }

  lemma WakeDelivers(c: Cloud, u: string, id: string, newId: string)
    requires Good(c) && u in c.store && c.store[u] == id && NewId(c, newId)
    ensures var (c', r) := Woken(c, u, c.sandboxes[id], newId); Good(c') && Delivers(c, u, c', r)
  {
    assert NamesExactly(c, u, id);
    if c.sandboxes[id].state == Destroyed {
      assert !Owns(c, u, id);
      CreateDelivers(c, u, newId);
    } else {
      assert Owns(c, u, id);
      if c.sandboxes[id].state == Hibernated {
        TurnKeepsGood(c, id, Running);
      }
    }
  }

  /**
    Get-or-resume hands out the user's single running sandbox, even though the branch for a
    destroyed record creates without a label search: that record being named by the store
    already rules a second live one out.
   */
  lemma ResumeDelivers(c: Cloud, u: string, found: Option<string>, newId: string)
    requires Good(c) && Enabled(c, Resume(u, found, newId))
    ensures var (c', r) := Resumed(c, u, found, newId); Good(c') && Delivers(c, u, c', r)
  {
    if u == "" {
    } else if u in c.store {
      assert NamesExactly(c, u, c.store[u]);
      WakeDelivers(c, u, c.store[u], newId);
    } else if found.Some? {
      var id := found.value;
      assert Owns(c, u, id);
      var c1 := c.(store := c.store[u := id]);
      assert forall v, x :: Owns(c1, v, x) == Owns(c, v, x);
      assert NamesExactly(c1, u, id);
      assert forall v :: v in c.store && NamesExactly(c, v, c.store[v]) ==> NamesExactly(c1, v, c1.store[v]);
      WakeDelivers(c1, u, id, newId);
      assert HasLive(c1, u);
    } else {
      assert forall id :: Owns(c, u, id) ==> id in c.sandboxes;
      CreateDelivers(c, u, newId);
    }
  }

  lemma DestroyKeepsGood(c: Cloud, id: string)
    requires Good(c)
    ensures Good(Torn(c, id))
  {
    DeleteKeepsGood(c, id);
    var c1, c' := c.(sandboxes := Deleted(c.sandboxes, id)), Torn(c, id);
    assert forall u, x :: Owns(c', u, x) == Owns(c1, u, x);
    assert forall u :: u in c'.store && NamesExactly(c1, u, c1.store[u]) ==> NamesExactly(c', u, c'.store[u]);
  }

  lemma StepKeepsGood(c: Cloud, step: CloudStep)
    requires Good(c) && Enabled(c, step)
    ensures Good(Next(c, step))
  {
    match step
    case Resume(u, found, newId) => ResumeDelivers(c, u, found, newId);
    case Hibernate(id) =>
      if id in c.sandboxes && c.sandboxes[id].Live() {
        TurnKeepsGood(c, id, Hibernated);
      }
    case Destroy(id) => DestroyKeepsGood(c, id);
    case AutoStop(id) => TurnKeepsGood(c, id, Hibernated);
    case DeleteOutside(id) => DeleteKeepsGood(c, id);
  }

  // ----- every run ------------------------------------------------------------

  lemma {:induction false} RunKeepsGood(c: Cloud, steps: seq<CloudStep>, c': Cloud)
    requires Good(c) && Leads(c, steps, c')
    ensures Good(c')
    decreases |steps|
  {
    if steps != [] {
      StepKeepsGood(c, steps[0]);
      RunKeepsGood(Next(c, steps[0]), steps[1..], c');
    }
  }

  /** From an empty provider and store, whatever the interleaving. */
  lemma EveryRunHasOneLivePerUser(steps: seq<CloudStep>, c: Cloud)
    requires Leads(Cloud(map[], map[]), steps, c)
    ensures AtMostOneLive(c) && StoreIsExact(c)
    ensures forall a, b :: a in c.sandboxes && b in c.sandboxes && c.UserOf(a) == c.UserOf(b) ==>
              a == b || c.sandboxes[a].state == Destroyed || c.sandboxes[b].state == Destroyed
    ensures forall u, x :: u in c.store && x in c.sandboxes && c.UserOf(x) == u ==>
              x == c.store[u] || c.sandboxes[x].state == Destroyed
  {
    RunKeepsGood(Cloud(map[], map[]), steps, c);
    forall a, b | a in c.sandboxes && b in c.sandboxes && c.UserOf(a) == c.UserOf(b)
                  && c.sandboxes[a].state != Destroyed && c.sandboxes[b].state != Destroyed
      ensures a == b
    {
      assert Owns(c, c.UserOf(a), a) && Owns(c, c.UserOf(a), b);
    }
    forall u, x | u in c.store && x in c.sandboxes && c.UserOf(x) == u && c.sandboxes[x].state != Destroyed
      ensures x == c.store[u]
    {
      assert NamesExactly(c, u, c.store[u]) && Owns(c, u, x);
    }
  }
}
