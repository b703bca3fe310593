/**
  The in-memory circuit breaker (go/internal/runtime/fallback.go): one mutable entry a
  provider, whose failure list is pruned inside its own backing array.
  `now` is what the breaker's clock answers when an operation reads it.
 */
module Breaker {
  import opened Wrappers
  import opened BreakerSpec

  class BreakerEntry {
    var backing: array<real>
    var len: nat
    var state: State
    var openedAt: real
    var inflight: bool

    ghost predicate Valid()
      reads this
    {
      len <= backing.Length
    }

    ghost function View(): EntryView
      requires Valid()
      reads this, backing
    {
      EntryView(backing[..len], state, openedAt, inflight)
    }

    constructor ()
      ensures Valid() && View() == FRESH
      ensures fresh(backing)
    {
      backing := new real[0];
      len := 0;
      state := Closed;
      openedAt := 0.0;
      inflight := false;
      new;
      assert backing[..0] == [];
    }

    method MaybeHalfOpen(cfg: Config, now: real)
      requires Valid()
      modifies this
      ensures Valid() && backing == old(backing)
      ensures View() == HalfOpened(cfg, old(View()), now)
    {
      if state != Open || openedAt == 0.0 {
        return;
      }
      if now - openedAt >= cfg.cooldown {
        state := HalfOpen;
        inflight := false;
        len := 0;
      }
    }

    /** The failures at or after the cutoff, moved to the front of the array they are read from. */
    method Prune(cutoff: real)
      requires Valid()
      modifies this`len, backing
      ensures Valid() && backing == old(backing)
      ensures backing[..len] == Kept(old(backing[..len]), cutoff)
    {
      ghost var was := backing[..len];
      var kept := 0;
      for i := 0 to len
        modifies backing
        invariant kept <= i
        invariant backing[..kept] == KeptUpTo(was, cutoff, i)
        invariant backing[i..len] == was[i..]
      {
        assert backing[i] == was[i];
        if backing[i] >= cutoff {
          assert backing[i + 1..len] == was[i + 1..];
          backing[kept] := backing[i];
          kept := kept + 1;
        }
      }
      len := kept;
    }

    method Append(t: real)
      requires Valid()
      modifies this`len, this`backing, backing
      ensures Valid() && (backing == old(backing) || fresh(backing))
      ensures backing[..len] == old(backing[..len]) + [t]
    {
      if len == backing.Length {
        ghost var was := backing[..len];
        var grown := new real[2 * len + 1];
        for i := 0 to len
          modifies grown
          invariant grown[..i] == was[..i]
        {
          grown[i] := backing[i];
        }
        backing := grown;
      }
      backing[len] := t;
      len := len + 1;
    }

    method Fail(cfg: Config, class_: ErrorClass, now: real)
      requires Valid()
      modifies this, backing
      ensures Valid() && (backing == old(backing) || fresh(backing))
      ensures View() == Failed(cfg, old(View()), class_, now)
    {
      if !class_.Worthy() {
        if state == HalfOpen {
          state := Open;
          openedAt := now;
          inflight := false;
        }
        return;
      }
      Prune(now - cfg.window);
      Append(now);
      inflight := false;
      if state == HalfOpen || len >= cfg.threshold {
        state := Open;
        openedAt := now;
      }
    }

    method Start()
      requires Valid()
      modifies this`inflight
      ensures Valid() && View() == Started(old(View()))
    {
      if state == HalfOpen {
        inflight := true;
      }
    }

    method Succeed()
      requires Valid()
      modifies this
      ensures Valid() && backing == old(backing) && View() == FRESH
    {
      len := 0;
      state := Closed;
      openedAt := 0.0;
      inflight := false;
    }
  }

  class CircuitBreaker {
    const cfg: Config
    var entries: map<string, BreakerEntry>
    /** Which provider each entry and each backing array belongs to. */
    ghost var owner: map<object, string>

    ghost function Repr(): set<object>
      reads this
    {
      {this} + owner.Keys
    }

    ghost predicate Owns(p: string, e: BreakerEntry)
      reads this, e
    {
      && e in owner && owner[e] == p
      && e.backing in owner && owner[e.backing] == p
      && e.Valid()
    }

    ghost predicate Valid()
      reads Repr()
    {
      && this !in owner
      && cfg.Valid()
      && forall p {:trigger entries[p]} :: p in entries ==> entries[p] in owner && Owns(p, entries[p])
    }

    /** What the breaker holds about one provider. */
    ghost function At(p: string): EntryView
      requires Valid()
      reads Repr()
    {
      if p in entries then entries[p].View() else FRESH
    }

    constructor (cfg: Config)
      requires cfg.Valid()
      ensures Valid() && fresh(Repr()) && (forall q :: At(q) == FRESH) && this.cfg == cfg
    {
      this.cfg := cfg;
      entries := map[];
      owner := map[];
    }

    /** Refuses negative settings and fills in the defaults. */
    static method New(raw: Config) returns (r: Result<CircuitBreaker>)
      ensures r.Ok? <==> raw.threshold >= 0 && raw.window >= 0.0 && raw.cooldown >= 0.0
      ensures r.Ok? ==>
                var cb := r.value;
                cb.Valid() && fresh(cb.Repr()) && cb.cfg == WithDefaults(raw) && forall q :: cb.At(q) == FRESH
      ensures r.Ok? ==>
                && r.value.cfg.threshold == (if raw.threshold == 0 then 3 else raw.threshold)
                && r.value.cfg.window == (if raw.window == 0.0 then 60.0 else raw.window)
                && r.value.cfg.cooldown == (if raw.cooldown == 0.0 then 30.0 else raw.cooldown)
    {
      if raw.threshold < 0 {
        return Err("FailureThreshold must be >= 0 (0 = use default 3)");
      }
      if raw.window < 0.0 {
        return Err("WindowSeconds must be >= 0 (0 = use default 60)");
      }
      if raw.cooldown < 0.0 {
        return Err("CooldownSeconds must be >= 0 (0 = use default 30)");
      }
      var cb := new CircuitBreaker(WithDefaults(raw));
      return Ok(cb);
    }

    method StateOf(p: string, now: real) returns (state: State)
      requires Valid()
      modifies Repr()
      ensures Valid() && fresh(Repr() - old(Repr()))
      ensures At(p) == HalfOpened(cfg, old(At(p)), now) && state == At(p).state
      ensures forall q :: q != p ==> At(q) == old(At(q))
    {
      if p !in entries {
        return Closed;
      }
      var e := entries[p];
      e.MaybeHalfOpen(cfg, now);
      return e.state;
    }

    method IsOpen(p: string, now: real) returns (open: bool)
      requires Valid()
      modifies Repr()
      ensures Valid() && fresh(Repr() - old(Repr()))
      ensures At(p) == HalfOpened(cfg, old(At(p)), now) && open == Skips(At(p))
      ensures open <==> At(p).state == Open || (At(p).state == HalfOpen && At(p).inflight)
      ensures var v := old(At(p));
              if v.state == Open && v.openedAt != 0.0 && now - v.openedAt >= cfg.cooldown
              then At(p).state == HalfOpen && At(p).failures == [] && !At(p).inflight else At(p) == v
      ensures forall q :: q != p ==> At(q) == old(At(q))
    {
      if p !in entries {
        return false;
      }
      var e := entries[p];
      e.MaybeHalfOpen(cfg, now);
      open := e.state == Open || (e.state == HalfOpen && e.inflight);
    }

    method AttemptStarted(p: string)
      requires Valid()
      modifies Repr()
      ensures Valid() && fresh(Repr() - old(Repr()))
      ensures At(p) == Started(old(At(p)))
      ensures forall q :: q != p ==> At(q) == old(At(q))
    {
      if p in entries {
        entries[p].Start();
      }
    }

    method RecordSuccess(p: string)
      requires Valid()
      modifies Repr()
      ensures Valid() && fresh(Repr() - old(Repr()))
      ensures At(p) == FRESH
      ensures forall q :: q != p ==> At(q) == old(At(q))
    {
      if p in entries {
        entries[p].Succeed();
      }
    }

    /** Makes an entry for `p` when there is none. */
    method Ensure(p: string)
      requires Valid()
      modifies this
      ensures Valid() && fresh(Repr() - old(Repr())) && p in entries
      ensures forall q :: At(q) == old(At(q))
    {
      if p !in entries {
        var made := new BreakerEntry();
        entries := entries[p := made];
        owner := owner[made := p][made.backing := p];
      }
    }

    method Fail(p: string, class_: ErrorClass, now: real)
      requires Valid() && p in entries
      modifies Repr()
      ensures Valid() && fresh(Repr() - old(Repr()))
      ensures At(p) == Failed(cfg, old(At(p)), class_, now)
      ensures forall q :: q != p ==> At(q) == old(At(q))
    {
      var e := entries[p];
      e.Fail(cfg, class_, now);
      owner := owner[e.backing := p];
    }

    method RecordFailure(p: string, class_: ErrorClass, now: real)
      requires Valid()
      modifies Repr()
      ensures Valid() && fresh(Repr() - old(Repr()))
      ensures At(p) == Failed(cfg, old(At(p)), class_, now)
      ensures forall q :: q != p ==> At(q) == old(At(q))
    {
      if p !in entries && !class_.Worthy() {
        return;
      }
      Ensure(p);
      Fail(p, class_, now);
    }
  }
}
