/**
  Sandbox lifecycle on top of the provider and the user-to-sandbox store
  (go/internal/orchestrator/sandbox.go).
 */
module Orchestration {
  import opened Wrappers
  import opened Provider

  datatype Sandbox = Sandbox(id: string, userId: string, state: SandboxState)

  // ----- specification state ------------------------------------------------

  /** What the provider holds and what the store names. */
  datatype Cloud = Cloud(sandboxes: Sandboxes, store: map<string, string>) {
    function UserOf(id: string): string
      requires id in sandboxes
    {
      sandboxes[id].user
    }
  }

  /** User ids for which volume names, and so sandboxes, can be made. */
  predicate ValidUserId(u: string) {
    u != "" && ' ' !in u && '/' !in u && ':' !in u
  }

  function Wrap(raw: RawSandbox, u: string): Sandbox {
    Sandbox(raw.id, if u == "" then raw.user else u, raw.state)
  }

  function Created(c: Cloud, u: string, newId: string): (Cloud, Result<Sandbox>) {
    if !ValidUserId(u) then (c, Err("invalid user_id"))
    else
      var raw := RawSandbox(newId, Running, u);
      (Cloud(c.sandboxes[newId := raw], c.store[u := newId]), Ok(Wrap(raw, u)))
  }

  /** The tail of a lookup that found `raw`. */
  function Woken(c: Cloud, u: string, raw: RawSandbox, newId: string): (Cloud, Result<Sandbox>) {
    match raw.state
    case Destroyed => Created(c, u, newId)
    case Hibernated =>
      if raw.id !in c.sandboxes then (c, Err("start sandbox"))
      else
        var c' := c.(sandboxes := WithState(c.sandboxes, raw.id, Running));
        (c', Ok(Wrap(c'.sandboxes[raw.id], u)))
    case _ => (c, Ok(Wrap(raw, u)))
  }

  /** `found` is the label search's answer, `newId` the provider's next identifier. */
  function Resumed(c: Cloud, u: string, found: Option<string>, newId: string): (Cloud, Result<Sandbox>)
    requires found.Some? ==> found.value in c.sandboxes
  {
    if u == "" then (c, Err("user_id is required"))
    else if u in c.store && c.store[u] != "" && c.store[u] in c.sandboxes then
      Woken(c, u, c.sandboxes[c.store[u]], newId)
    else match found
      case Some(id) =>
        var raw := c.sandboxes[id];
        Woken(c.(store := c.store[u := raw.id]), u, raw, newId)
      case None => Created(c, u, newId)
  }

  function Stopped(c: Cloud, id: string): (Cloud, bool) {
    if id !in c.sandboxes then (c, false)
    else match c.sandboxes[id].state
      case Hibernated => (c, true)
      case Destroyed => (c, false)
      case _ => (c.(sandboxes := WithState(c.sandboxes, id, Hibernated)), true)
  }

  function Forget(store: map<string, string>, id: string): map<string, string> {
    map u | u in store && store[u] != id :: store[u]
  }

  function Torn(c: Cloud, id: string): Cloud {
    Cloud(Deleted(c.sandboxes, id), Forget(c.store, id))
  }

  // ----- the classes ----------------------------------------------------------

  class InMemorySandboxStore {
    var userToSandbox: map<string, string>

    constructor ()
      ensures userToSandbox == map[]
    {
      userToSandbox := map[];
    }

    function FindByUser(u: string): string
      reads this
    {
      if u in userToSandbox then userToSandbox[u] else ""
    }

    method Upsert(u: string, id: string)
      modifies this
      ensures userToSandbox == old(userToSandbox)[u := id]
    {
      userToSandbox := userToSandbox[u := id];
    }

    method Remove(id: string)
      modifies this
      ensures userToSandbox == Forget(old(userToSandbox), id)
      ensures forall u :: u in userToSandbox <==> u in old(userToSandbox) && old(userToSandbox)[u] != id
      ensures forall u :: u in userToSandbox ==> userToSandbox[u] == old(userToSandbox)[u]
    {
      ghost var was := userToSandbox;
      var todo := userToSandbox.Keys;
      while todo != {}
        invariant todo <= was.Keys
        invariant forall u :: u in userToSandbox <==> u in was && (u in todo || was[u] != id)
        invariant forall u :: u in userToSandbox ==> userToSandbox[u] == was[u]
        decreases |todo|
      {
        var u :| u in todo;
        if userToSandbox[u] == id {
          userToSandbox := userToSandbox - {u};
        }
        todo := todo - {u};
      }
    }
  }

  class Orchestrator {
    const client: FakeDaytonaClient
    const store: InMemorySandboxStore

    constructor (client: FakeDaytonaClient, store: InMemorySandboxStore)
      ensures this.client == client && this.store == store
    {
      this.client := client;
      this.store := store;
    }

    ghost function View(): Cloud
      reads client, store
    {
      Cloud(client.sandboxes, store.userToSandbox)
    }

    method Create(u: string, newId: string) returns (r: Result<Sandbox>)
      modifies client, store
      ensures (View(), r) == Created(old(View()), u, newId)
    {
      if u == "" {
        return Err("invalid user_id");
      }
      if ' ' in u || '/' in u || ':' in u {
        return Err("invalid user_id");
      }
      var raw := client.CreateSandbox(newId, u);
      store.Upsert(u, raw.id);
      return Ok(Wrap(raw, u));
    }

    method GetOrResume(u: string, newId: string) returns (r: Result<Sandbox>, ghost found: Option<string>)
      requires Keyed(client.sandboxes)
      modifies client, store
      ensures SearchAnswer(old(client.sandboxes), u, found)
      ensures (View(), r) == Resumed(old(View()), u, found, newId)
    {
      found := AnAnswer(client.sandboxes, u);
      if u == "" {
        return Err("user_id is required"), found;
      }
      var sandboxId := store.FindByUser(u);
      var raw: Option<RawSandbox> := None;
      if sandboxId != "" {
        var got := client.GetSandbox(sandboxId);
        if got.Ok? {
          raw := Some(got.value);
        }
      }
      if raw.None? {
        var got;
        got, found := client.FindByLabel(u);
        if got.Some? {
          raw := got;
          store.Upsert(u, got.value.id);
        }
      }
      if raw.None? || raw.value.state == Destroyed {
        r := Create(u, newId);
        return r, found;
      }
      if raw.value.state == Hibernated {
        var started := client.StartSandbox(raw.value.id);
        if started.Err? {
          return Err("start sandbox"), found;
        }
        raw := Some(started.value);
      }
      return Ok(Wrap(raw.value, u)), found;
    }

    method Hibernate(id: string) returns (ok: bool)
      modifies client
      ensures (View(), ok) == Stopped(old(View()), id)
    {
      var raw := client.GetSandbox(id);
      if raw.Err? {
        return false;
      }
      if raw.value.state == Hibernated {
        return true;
      }
      if raw.value.state == Destroyed {
        return false;
      }
      var stopped := client.StopSandbox(id);
      return stopped.Ok?;
    }

    method Destroy(id: string)
      modifies client, store
      ensures View() == Torn(old(View()), id)
    {
      client.DeleteSandbox(id);
      store.Remove(id);
    }
  }
}
