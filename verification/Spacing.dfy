/**
  What the breaker promises over whole runs of turns, provider by provider
  (go/internal/runtime/fallback.go).
 */
module Spacing {
  import opened BreakerSpec
  import opened ChainSpec

  /** The turns so far, oldest first; several chains may share the breaker, so each names its order. */
  datatype Run = Idle | Turned(before: Run, order: seq<ProviderEntry>, legs: seq<Leg>)

  predicate Scripted(run: Run) {
    run.Turned? ==> |run.order| == |run.legs| && Scripted(run.before)
  }

  function AfterRun(cfg: Config, run: Run): Views
    requires Scripted(run)
  {
    match run
    case Idle => map[]
    case Turned(before, order, legs) => WalkUpTo(cfg, AfterRun(cfg, before), order, legs, |order|).views
  }

  /** The legs in which the chain dealt with one provider, oldest first. */
  datatype Trail = Start | Visit(before: Trail, leg: Leg)

  function AfterTrail(cfg: Config, trail: Trail): EntryView {
    match trail
    case Start => FRESH
    case Visit(before, leg) => Visited(cfg, AfterTrail(cfg, before), leg)
  }

  /** `trail`, extended by what the first `n` entries of a turn do to provider `p`. */
  function TrailUpTo(cfg: Config, views: Views, order: seq<ProviderEntry>, legs: seq<Leg>, n: nat, p: string,
                     trail: Trail): Trail
    requires n <= |order| == |legs|
  {
    if n == 0 then trail
    else
      var t := TrailUpTo(cfg, views, order, legs, n - 1, p, trail);
      if WalkUpTo(cfg, views, order, legs, n - 1).ended || order[n - 1].id != p then t else Visit(t, legs[n - 1])
  }

  function TrailOf(cfg: Config, run: Run, p: string): Trail
    requires Scripted(run)
  {
    match run
    case Idle => Start
    case Turned(before, order, legs) =>
      TrailUpTo(cfg, AfterRun(cfg, before), order, legs, |order|, p, TrailOf(cfg, before, p))
  }

  lemma {:induction false} WalkIsTrail(
    cfg: Config, views: Views, order: seq<ProviderEntry>, legs: seq<Leg>, n: nat, p: string, trail: Trail)
    requires n <= |order| == |legs| && Of(views, p) == AfterTrail(cfg, trail)
    ensures Of(WalkUpTo(cfg, views, order, legs, n).views, p)
         == AfterTrail(cfg, TrailUpTo(cfg, views, order, legs, n, p, trail))
  {
    if n > 0 {
      WalkIsTrail(cfg, views, order, legs, n - 1, p, trail);
    }
  }

  /** Other providers' turns never touch a provider: the breaker holds what its own trail says. */
  lemma {:induction false} RunIsTrail(cfg: Config, run: Run, p: string)
    requires Scripted(run)
    ensures Of(AfterRun(cfg, run), p) == AfterTrail(cfg, TrailOf(cfg, run, p))
  {
    if run.Turned? {
      RunIsTrail(cfg, run.before, p);
      WalkIsTrail(cfg, AfterRun(cfg, run.before), run.order, run.legs, |run.order|, p, TrailOf(cfg, run.before, p));
    }
  }

  function Latest(trail: Trail): real {
    if trail.Start? then 0.0 else trail.leg.recorded
  }

  /** The breaker's clock is positive and never goes back. */
  predicate Timed(trail: Trail) {
    trail.Visit? ==>
      Timed(trail.before) && 0.0 < trail.leg.asked && Latest(trail.before) <= trail.leg.asked <= trail.leg.recorded
  }

  /** The breaker calls a trail amounts to. */
  function LogOf(cfg: Config, trail: Trail): Log {
    match trail
    case Start => Nothing
    case Visit(before, leg) =>
      var asked := Then(LogOf(cfg, before), Asked(leg.asked));
      if !Dispatched(cfg, AfterTrail(cfg, before), leg) then asked
      else
        Then(Then(asked, Began), match Failure(leg.reply) case None => Won case Some(e) => Lost(e.class_, leg.recorded))
  }

  /** So everything proved of event logs holds of what turns leave behind. */
  lemma {:induction false} TrailIsLog(cfg: Config, trail: Trail)
    requires Timed(trail)
    ensures AfterTrail(cfg, trail) == After(cfg, LogOf(cfg, trail))
    ensures BreakerSpec.Timed(LogOf(cfg, trail)) && LatestTime(LogOf(cfg, trail)) <= Latest(trail)
  {
    if trail.Visit? {
      TrailIsLog(cfg, trail.before);
      var asked := Then(LogOf(cfg, trail.before), Asked(trail.leg.asked));
      assert LatestTime(Then(asked, Began)) == trail.leg.asked;
      assert After(cfg, Then(asked, Began)) == Started(HalfOpened(cfg, AfterTrail(cfg, trail.before), trail.leg.asked));
    }
  }

  /**
    The dispatches since the provider last tripped, the tripping one included; none when it has
    not tripped since its last success.
   */
  function Outage(cfg: Config, trail: Trail): seq<Leg> {
    match trail
    case Start => []
    case Visit(before, leg) =>
      var v := AfterTrail(cfg, before);
      if !Dispatched(cfg, v, leg) then Outage(cfg, before)
      else if Failure(leg.reply).None? then []
      else if Outage(cfg, before) != [] || Visited(cfg, v, leg).state == Open then Outage(cfg, before) + [leg]
      else []
  }

  /** Between turns no trial is in flight: a provider is either closed, or open since its last dispatch. */
  lemma {:induction false} BetweenTurns(cfg: Config, trail: Trail)
    requires cfg.Valid() && Timed(trail)
    ensures var v, out := AfterTrail(cfg, trail), Outage(cfg, trail);
            && !v.inflight && v.state != HalfOpen && (v.state == Open <==> out != [])
            && (v.state == Open ==> v.openedAt == out[|out| - 1].recorded && 0.0 < v.openedAt <= Latest(trail))
  {
    if trail.Visit? {
      BetweenTurns(cfg, trail.before);
    }
  }

  /** A provider is dispatched to exactly when it is not in an outage, or has cooled down since the last dispatch. */
  lemma DispatchedIff(cfg: Config, trail: Trail, leg: Leg)
    requires cfg.Valid() && Timed(Visit(trail, leg))
    ensures var out := Outage(cfg, trail);
            (Dispatched(cfg, AfterTrail(cfg, trail), leg)
            <==> out == [] || leg.asked - out[|out| - 1].recorded >= cfg.cooldown)
  {
    BetweenTurns(cfg, trail);
  }

  predicate Rested(legs: seq<Leg>, cooldown: real, i: int)
    requires 0 < i < |legs|
  {
    legs[i].asked - legs[i - 1].recorded >= cooldown
  }

  ghost predicate Spaced(legs: seq<Leg>, cooldown: real) {
    && (forall i :: 0 <= i < |legs| ==> 0.0 < legs[i].asked <= legs[i].recorded)
    && (forall i :: 0 < i < |legs| ==> Rested(legs, cooldown, i))
  }

  /** During an outage each dispatch starts at least a cooldown after the previous one was recorded. */
  lemma {:induction false} OutageIsSpaced(cfg: Config, trail: Trail)
    requires cfg.Valid() && Timed(trail)
    ensures Spaced(Outage(cfg, trail), cfg.cooldown)
  {
    if trail.Visit? {
      OutageIsSpaced(cfg, trail.before);
      DispatchedIff(cfg, trail.before, trail.leg);
      var was, out := Outage(cfg, trail.before), Outage(cfg, trail);
      forall i | 0 < i < |out|
        ensures Rested(out, cfg.cooldown, i)
      {
        assert i < |was| ==> Rested(was, cfg.cooldown, i);
      }
    }
  }

  lemma OneMore(n: real, cooldown: real)
    ensures (n + 1.0) * cooldown == n * cooldown + cooldown
  {
  }

  lemma {:induction false} SpacedApart(legs: seq<Leg>, cooldown: real, i: nat, j: nat)
    requires Spaced(legs, cooldown) && i <= j < |legs|
    ensures (j - i) as real * cooldown <= legs[j].asked - legs[i].asked
  {
    if i < j {
      SpacedApart(legs, cooldown, i, j - 1);
      OneMore((j - 1 - i) as real, cooldown);
      assert Rested(legs, cooldown, j);
    }
  }

  lemma NegativeTimes(x: real, y: real)
    requires x < 0.0 < y
    ensures x * y < 0.0
  {
  }

  lemma FloorCounts(n: nat, cooldown: real, span: real)
    requires cooldown > 0.0 && n as real * cooldown <= span
    ensures n <= (span / cooldown).Floor
  {
    var q := span / cooldown;
    assert (q - n as real) * cooldown == span - n as real * cooldown;
    if q < n as real {
      NegativeTimes(q - n as real, cooldown);
      assert false;
    }
  }

  /** The legs of every turn are read in order by one clock. */
  predicate TimedUpTo(legs: seq<Leg>, n: nat, since: real)
    requires n <= |legs|
  {
    n > 0 ==>
      && TimedUpTo(legs, n - 1, since)
      && 0.0 < legs[n - 1].asked <= legs[n - 1].recorded
      && EndOf(legs, n - 1, since) <= legs[n - 1].asked
  }

  function EndOf(legs: seq<Leg>, n: nat, since: real): real
    requires n <= |legs|
  {
    if n == 0 then since else legs[n - 1].recorded
  }

  function RunEnd(run: Run): real {
    if run.Idle? then 0.0 else EndOf(run.legs, |run.legs|, RunEnd(run.before))
  }

  predicate TimedRun(run: Run) {
    run.Turned? ==> TimedRun(run.before) && TimedUpTo(run.legs, |run.legs|, RunEnd(run.before))
  }

  lemma {:induction false} TurnTrailIsTimed(
    cfg: Config, views: Views, order: seq<ProviderEntry>, legs: seq<Leg>, n: nat, p: string, trail: Trail, since: real)
    requires n <= |order| == |legs| && TimedUpTo(legs, n, since) && Timed(trail) && Latest(trail) <= since
    ensures var t := TrailUpTo(cfg, views, order, legs, n, p, trail); Timed(t) && Latest(t) <= EndOf(legs, n, since)
  {
    if n > 0 {
      TurnTrailIsTimed(cfg, views, order, legs, n - 1, p, trail, since);
    }
  }

  lemma {:induction false} TrailIsTimed(cfg: Config, run: Run, p: string)
    requires Scripted(run) && TimedRun(run)
    ensures Timed(TrailOf(cfg, run, p)) && Latest(TrailOf(cfg, run, p)) <= RunEnd(run)
  {
    if run.Turned? {
      TrailIsTimed(cfg, run.before, p);
      TurnTrailIsTimed(cfg, AfterRun(cfg, run.before), run.order, run.legs, |run.order|, p,
                       TrailOf(cfg, run.before, p), RunEnd(run.before));
    }
  }

  /** Dispatches `i` to `j` number at most floor(L / cooldown) + 1, where L is the time from the one to the other. */
  predicate FitsSpan(legs: seq<Leg>, cooldown: real, i: int, j: int)
    requires 0 <= i <= j < |legs| && cooldown > 0.0
  {
    j - i + 1 <= ((legs[j].asked - legs[i].asked) / cooldown).Floor + 1
  }

  /**
    In every run of turns, over one shared breaker: after a provider's first trip, and as long as
    it has no success, the dispatches to it are a cooldown apart, so a span of length L holds at
    most floor(L / cooldown) + 1 of them, whatever errors they end in.
   */
  lemma EveryRunIsSpaced(cfg: Config, run: Run, p: string)
    requires cfg.Valid() && Scripted(run) && TimedRun(run)
    ensures var out := Outage(cfg, TrailOf(cfg, run, p));
            && Spaced(out, cfg.cooldown)
            && forall i, j :: 0 <= i <= j < |out| ==> FitsSpan(out, cfg.cooldown, i, j)
  {
    TrailIsTimed(cfg, run, p);
    OutageIsSpaced(cfg, TrailOf(cfg, run, p));
    var out := Outage(cfg, TrailOf(cfg, run, p));
    forall i, j | 0 <= i <= j < |out|
      ensures FitsSpan(out, cfg.cooldown, i, j)
    {
      SpacedApart(out, cfg.cooldown, i, j);
      FloorCounts(j - i, cfg.cooldown, out[j].asked - out[i].asked);
    }
  }

  /**
    After every run of turns no provider has a half-open trial in flight, and a further turn that
    reaches a provider dispatches to it exactly when it is not open or its cooldown has passed.
   */
  lemma EveryRunLeavesNoTrial(cfg: Config, run: Run, p: string, leg: Leg)
    requires cfg.Valid() && Scripted(run) && TimedRun(run)
    requires 0.0 < leg.asked <= leg.recorded && RunEnd(run) <= leg.asked
    ensures var v := Of(AfterRun(cfg, run), p);
            && !v.inflight && v.state != HalfOpen
            && (Dispatched(cfg, v, leg) <==> v.state == Closed || leg.asked - v.openedAt >= cfg.cooldown)
            && (v.state == Closed ==> |v.failures| < cfg.threshold)
  {
    RunIsTrail(cfg, run, p);
    TrailIsTimed(cfg, run, p);
    BetweenTurns(cfg, TrailOf(cfg, run, p));
    TrailIsLog(cfg, TrailOf(cfg, run, p));
    EveryLogIsSound(cfg, LogOf(cfg, TrailOf(cfg, run, p)));
  }
}
