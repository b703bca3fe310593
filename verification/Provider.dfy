/**
  The sandbox provider, as its in-memory implementation behaves
  (go/internal/orchestrator/daytona_client_fake.go).
  Random identifiers are a parameter; the order in which Go walks a map is left open.
 */
module Provider {
  import opened Wrappers

  datatype SandboxState = Provisioning | Running | Hibernated | Destroyed

  /** `user` is the value of the one label the platform stamps, platform.user_id. */
  datatype RawSandbox = RawSandbox(id: string, state: SandboxState, user: string) {
    predicate Live() {
      state != Destroyed
    }
  }

  type Sandboxes = map<string, RawSandbox>

  /** Every record sits under its own identifier. */
  ghost predicate Keyed(m: Sandboxes) {
    forall id :: id in m ==> m[id].id == id
  }

  function WithState(m: Sandboxes, id: string, state: SandboxState): Sandboxes
    requires id in m
  {
    m[id := m[id].(state := state)]
  }

  function Deleted(m: Sandboxes, id: string): Sandboxes {
    if id in m then WithState(m, id, Destroyed) else m
  }

  predicate Carries(m: Sandboxes, id: string, user: string) {
    id in m && m[id].user == user && m[id].Live()
  }

  /** What a label search may answer: any live carrier, or nothing when there is none. */
  ghost predicate SearchAnswer(m: Sandboxes, user: string, found: Option<string>) {
    match found
    case Some(id) => Carries(m, id, user)
    case None => forall id :: id in m ==> !Carries(m, id, user)
  }

  /** Some answer the search may give. */
  ghost function AnAnswer(m: Sandboxes, user: string): (found: Option<string>)
    ensures SearchAnswer(m, user, found)
  {
    if exists id :: Carries(m, id, user) then
      var id :| Carries(m, id, user);
      Some(id)
    else None
  }

  class FakeDaytonaClient {
    var sandboxes: Sandboxes

    constructor ()
      ensures sandboxes == map[]
    {
      sandboxes := map[];
    }

    method CreateSandbox(newId: string, user: string) returns (raw: RawSandbox)
      modifies this
      ensures raw == RawSandbox(newId, Running, user)
      ensures sandboxes == old(sandboxes)[newId := raw]
    {
      raw := RawSandbox(newId, Running, user);
      sandboxes := sandboxes[newId := raw];
    }

    method GetSandbox(id: string) returns (r: Result<RawSandbox>)
      ensures r == if id in sandboxes then Ok(sandboxes[id]) else Err("sandbox not found")
    {
      if id !in sandboxes {
        return Err("sandbox not found");
      }
      return Ok(sandboxes[id]);
    }

    method FindByLabel(user: string) returns (r: Option<RawSandbox>, ghost found: Option<string>)
      ensures SearchAnswer(sandboxes, user, found)
      ensures r.Some? <==> exists id :: Carries(sandboxes, id, user)
      ensures r.Some? ==> r.value.user == user && r.value.Live()
      ensures r == match found { case Some(id) => Some(sandboxes[id]) case None => None }
    {
      var todo := sandboxes.Keys;
      while todo != {}
        invariant todo <= sandboxes.Keys
        invariant forall id :: id in sandboxes && id !in todo ==> !Carries(sandboxes, id, user)
        decreases |todo|
      {
        var id :| id in todo;
        if sandboxes[id].user == user && sandboxes[id].state != Destroyed {
          assert Carries(sandboxes, id, user);
          return Some(sandboxes[id]), Some(id);
        }
        todo := todo - {id};
      }
      return None, None;
    }

    method StartSandbox(id: string) returns (r: Result<RawSandbox>)
      modifies this
      ensures id !in old(sandboxes) ==> r.Err? && sandboxes == old(sandboxes)
      ensures id in old(sandboxes) ==>
                sandboxes == WithState(old(sandboxes), id, Running) && r == Ok(sandboxes[id])
    {
      if id !in sandboxes {
        return Err("sandbox not found");
      }
      var updated := sandboxes[id].(state := Running);
      sandboxes := sandboxes[id := updated];
      return Ok(updated);
    }

    method StopSandbox(id: string) returns (r: Result<RawSandbox>)
      modifies this
      ensures id !in old(sandboxes) ==> r.Err? && sandboxes == old(sandboxes)
      ensures id in old(sandboxes) ==>
                sandboxes == WithState(old(sandboxes), id, Hibernated) && r == Ok(sandboxes[id])
    {
      if id !in sandboxes {
        return Err("sandbox not found");
      }
      var updated := sandboxes[id].(state := Hibernated);
      sandboxes := sandboxes[id := updated];
      return Ok(updated);
    }

    method DeleteSandbox(id: string)
      modifies this
      ensures sandboxes == Deleted(old(sandboxes), id)
    {
      if id !in sandboxes {
        return;
      }
      sandboxes := sandboxes[id := sandboxes[id].(state := Destroyed)];
    }
  }
}
