/** The provider fallback chain itself (go/internal/runtime/fallback.go). */
module Chain {
  import opened Wrappers
  import opened Breaker
  import opened ChainSpec

  /** The entries of one kind, in their configured order. */
  function Picked(entries: seq<ProviderEntry>, fallback: bool): seq<ProviderEntry> {
    PickedUpTo(entries, fallback, |entries|)
  }

  function PickedUpTo(entries: seq<ProviderEntry>, fallback: bool, n: nat): seq<ProviderEntry>
    requires n <= |entries|
  {
    if n == 0 then []
    else if entries[n - 1].fallbackOnly == fallback then PickedUpTo(entries, fallback, n - 1) + [entries[n - 1]]
    else PickedUpTo(entries, fallback, n - 1)
  }

  lemma {:induction false} PickedAll(entries: seq<ProviderEntry>, fallback: bool, n: nat)
    requires n <= |entries|
    ensures forall e :: e in PickedUpTo(entries, fallback, n) ==> e.fallbackOnly == fallback
  {
    if n > 0 {
      PickedAll(entries, fallback, n - 1);
    }
  }

  lemma {:induction false} PickedCounts(entries: seq<ProviderEntry>, n: nat)
    requires n <= |entries|
    ensures multiset(entries[..n]) == multiset(PickedUpTo(entries, false, n)) + multiset(PickedUpTo(entries, true, n))
  {
    if n > 0 {
      PickedCounts(entries, n - 1);
      assert entries[..n] == entries[..n - 1] + [entries[n - 1]];
    }
  }

  lemma {:induction false} PickedLengths(entries: seq<ProviderEntry>, n: nat)
    requires n <= |entries|
    ensures |PickedUpTo(entries, false, n)| + |PickedUpTo(entries, true, n)| == n
  {
    if n > 0 {
      PickedLengths(entries, n - 1);
    }
  }

  function Ordered(entries: seq<ProviderEntry>): (order: seq<ProviderEntry>)
    ensures |order| == |entries|
  {
    PickedLengths(entries, |entries|);
    Picked(entries, false) + Picked(entries, true)
  }

  /** Of a list that is primaries and then fallbacks, each kind is one part. */
  lemma {:induction false} PickedOfSplit(a: seq<ProviderEntry>, b: seq<ProviderEntry>, fallback: bool, n: nat)
    requires forall e :: e in a ==> !e.fallbackOnly
    requires forall e :: e in b ==> e.fallbackOnly
    requires n <= |a| + |b|
    ensures PickedUpTo(a + b, fallback, n)
         == if fallback then (if n <= |a| then [] else b[..n - |a|]) else if n <= |a| then a[..n] else a
  {
    if n > 0 {
      PickedOfSplit(a, b, fallback, n - 1);
      if n <= |a| {
        assert (a + b)[n - 1] == a[n - 1] && a[n - 1] in a;
      } else {
        assert (a + b)[n - 1] == b[n - 1 - |a|] && b[n - 1 - |a|] in b;
      }
    }
  }

  /**
    The dispatch order is the stable primaries-first permutation: the same entries as often, no
    fallback before a primary, and each kind in its configured order. No other list is.
   */
  ghost predicate StablePrimariesFirst(entries: seq<ProviderEntry>, order: seq<ProviderEntry>) {
    && multiset(order) == multiset(entries)
    && (forall i, j :: 0 <= i < j < |order| && order[i].fallbackOnly ==> order[j].fallbackOnly)
    && Picked(order, false) == Picked(entries, false)
    && Picked(order, true) == Picked(entries, true)
  }

  lemma OrderedIsPermutation(entries: seq<ProviderEntry>)
    ensures multiset(Ordered(entries)) == multiset(entries)
  {
    PickedCounts(entries, |entries|);
    assert entries[..|entries|] == entries;
  }

  lemma OrderedKeepsKinds(entries: seq<ProviderEntry>, fallback: bool)
    ensures Picked(Ordered(entries), fallback) == Picked(entries, fallback)
  {
    var a, b := Picked(entries, false), Picked(entries, true);
    PickedAll(entries, false, |entries|);
    PickedAll(entries, true, |entries|);
    PickedOfSplit(a, b, fallback, |a| + |b|);
  }

  lemma OrderedIsStable(entries: seq<ProviderEntry>)
    ensures StablePrimariesFirst(entries, Ordered(entries))
  {
    OrderedIsPermutation(entries);
    OrderedKeepsKinds(entries, false);
    OrderedKeepsKinds(entries, true);
    PickedAll(entries, false, |entries|);
    PickedAll(entries, true, |entries|);
  }

  /** A list with its primaries first is its primaries and then its fallbacks. */
  lemma {:induction false} SplitsByKind(order: seq<ProviderEntry>, n: nat)
    requires n <= |order|
    requires forall i, j :: 0 <= i < j < |order| && order[i].fallbackOnly ==> order[j].fallbackOnly
    ensures order[..n] == PickedUpTo(order, false, n) + PickedUpTo(order, true, n)
    ensures n > 0 && !order[n - 1].fallbackOnly ==> PickedUpTo(order, true, n) == []
  {
    if n > 0 {
      SplitsByKind(order, n - 1);
      assert order[..n] == order[..n - 1] + [order[n - 1]];
      if !order[n - 1].fallbackOnly && n > 1 {
        assert !order[n - 2].fallbackOnly;
      }
    }
  }

  lemma StableIsUnique(entries: seq<ProviderEntry>, order: seq<ProviderEntry>)
    requires StablePrimariesFirst(entries, order)
    ensures order == Ordered(entries)
  {
    SplitsByKind(order, |order|);
    assert order[..|order|] == order;
  }

  /** A copy of the attempts with the failures before the first success marked, if there is a success. */
  method StampParentErrors(attempts: seq<Attempt>) returns (out: seq<Attempt>)
    ensures Stamped(attempts, out)
  {
    out := attempts;
    var seen := false;
    var i := |out|;
    while i > 0
      invariant 0 <= i <= |out|
      invariant forall j :: i <= j < |out| ==> !attempts[j].succeeded
    {
      i := i - 1;
      if out[i].succeeded {
        seen := true;
        break;
      }
    }
    if !seen {
      return;
    }
    var k := 0;
    while k < |out|
      invariant 0 <= k <= |out| == |attempts|
      invariant forall j :: 0 <= j < k ==> !attempts[j].succeeded && out[j] == attempts[j].(parentError := true)
      invariant forall j :: k <= j < |out| ==> out[j] == attempts[j]
    {
      if out[k].succeeded {
        break;
      }
      out := out[k := out[k].(parentError := true)];
      k := k + 1;
    }
  }

  class ProviderChain {
    const entries: seq<ProviderEntry>
    const breaker: CircuitBreaker

    constructor (entries: seq<ProviderEntry>, breaker: CircuitBreaker)
      ensures this.entries == entries && this.breaker == breaker
    {
      this.entries := entries;
      this.breaker := breaker;
    }

    /** Refuses an empty list and one without a primary. */
    static method New(entries: seq<ProviderEntry>, breaker: CircuitBreaker) returns (r: Result<ProviderChain>)
      ensures r.Ok? <==> exists e :: e in entries && !e.fallbackOnly
      ensures r.Ok? ==> fresh(r.value) && r.value.entries == entries && r.value.breaker == breaker
    {
      if |entries| == 0 {
        return Err("ProviderChain requires at least one entry");
      }
      var hasNonFallback := false;
      for i := 0 to |entries|
        invariant !hasNonFallback
        invariant forall j :: 0 <= j < i ==> entries[j].fallbackOnly
      {
        if !entries[i].fallbackOnly {
          hasNonFallback := true;
          break;
        }
      }
      if !hasNonFallback {
        return Err("ProviderChain requires at least one non-fallback_only entry");
      }
      var chain := new ProviderChain(entries, breaker);
      return Ok(chain);
    }

    method OrderedForDispatch() returns (order: seq<ProviderEntry>)
      ensures order == Ordered(entries)
    {
      var primaries, fallbacks := [], [];
      for i := 0 to |entries|
        invariant primaries == PickedUpTo(entries, false, i)
        invariant fallbacks == PickedUpTo(entries, true, i)
      {
        if entries[i].fallbackOnly {
          fallbacks := fallbacks + [entries[i]];
        } else {
          primaries := primaries + [entries[i]];
        }
      }
      return primaries + fallbacks;
    }

    /** The breaker stands as the walk says. */
    ghost predicate Stands(views: Views)
      reads breaker.Repr()
    {
      breaker.Valid() && forall q :: breaker.At(q) == Of(views, q)
    }

    /** Deals with one entry of the order: skip it, or dispatch to it and record what came back. */
    method Visit(entry: ProviderEntry, leg: Leg, ghost w: Walk) returns (att: Attempt, err: Option<CliError>)
      requires Stands(w.views) && !w.ended
      modifies breaker.Repr()
      ensures Stands(Stepped(breaker.cfg, w, entry, leg).views) && fresh(breaker.Repr() - old(breaker.Repr()))
      ensures att == AttemptOf(entry, leg, Dispatched(breaker.cfg, Of(w.views, entry.id), leg))
      ensures err == if att.skipped then None else Failure(leg.reply)
    {
      assert breaker.At(entry.id) == Of(w.views, entry.id);
      var open := breaker.IsOpen(entry.id, leg.asked);
      if open {
        return Attempt(entry.id, entry.model, leg.started, 0, false, None, SKIP_MESSAGE, true, false), None;
      }
      breaker.AttemptStarted(entry.id);
      var latency := Truncated((leg.ended - leg.started) * 1000.0);
      if leg.reply.output.Some? && leg.reply.error.None? {
        breaker.RecordSuccess(entry.id);
        return Attempt(entry.id, entry.model, leg.started, latency, true, None, "", false, false), None;
      }
      var e := if leg.reply.error.None? then NO_REPLY else leg.reply.error.value;
      breaker.RecordFailure(entry.id, e.class_, leg.recorded);
      att := Attempt(entry.id, entry.model, leg.started, latency, false, Some(e.class_), e.message, false, false);
      return att, Some(e);
    }

    /** The turn's loop: visits the order until a visit ends the walk. */
    method WalkThrough(order: seq<ProviderEntry>, legs: seq<Leg>, ghost before: Views)
      returns (attempts: seq<Attempt>, output: Option<CliTurnOutput>, lastErr: Option<CliError>, ghost w: Walk)
      requires Stands(before) && |order| == |legs|
      modifies breaker.Repr()
      ensures w == WalkUpTo(breaker.cfg, before, order, legs, |legs|)
      ensures w.attempts == attempts && w.output == output && w.lastErr == lastErr
      ensures Stands(w.views) && fresh(breaker.Repr() - old(breaker.Repr()))
    {
      hide Stands, Visited, Dispatched, Latency;
      attempts, output, lastErr := [], None, None;
      w := WalkUpTo(breaker.cfg, before, order, legs, 0);
      var i, ended := 0, false;
      while i < |order| && !ended
        invariant i <= |order|
        invariant Stands(w.views) && fresh(breaker.Repr() - old(breaker.Repr()))
        invariant w == WalkUpTo(breaker.cfg, before, order, legs, i)
        invariant w == Walk(w.views, attempts, output, lastErr, ended)
      {
        var att, err := Visit(order[i], legs[i], w);
        w := Stepped(breaker.cfg, w, order[i], legs[i]);
        attempts := attempts + [att];
        if att.succeeded {
          output, ended := legs[i].reply.output, true;
        } else if !att.skipped {
          lastErr, ended := err, !err.value.class_.Worthy();
        }
        i := i + 1;
      }
      if ended {
        EndedStays(breaker.cfg, before, order, legs, i, |legs|);
      }
    }

    method Turn(legs: seq<Leg>, ghost before: Views) returns (r: TurnResult, ghost w: Walk)
      requires Stands(before) && |legs| == |entries|
      modifies breaker.Repr()
      ensures w == WalkUpTo(breaker.cfg, before, Ordered(entries), legs, |legs|)
      ensures Stands(w.views) && fresh(breaker.Repr() - old(breaker.Repr()))
      ensures TurnAnswer(w, r)
    {
      var order := OrderedForDispatch();
      var attempts, output, lastErr;
      attempts, output, lastErr, w := WalkThrough(order, legs, before);
      EveryWalkHasShape(breaker.cfg, before, order, legs, |legs|);
      if output.Some? {
        var stamped := StampParentErrors(attempts);
        return TurnResult(output, None, stamped, attempts[|attempts| - 1].provider), w;
      }
      if lastErr.None? {
        lastErr := Some(ALL_SKIPPED);
      }
      return TurnResult(None, lastErr, attempts, ""), w;
    }
  }
}
