/**
  The provider circuit breaker as a function of its whole event log
  (go/internal/runtime/fallback.go). Clocks are reals, in seconds.
 */
module BreakerSpec {

  datatype ErrorClass = AuthExpired | RateLimit | Transient | Unknown | Unlisted(name: string) {
    predicate Worthy() {
      AuthExpired? || RateLimit? || Transient?
    }
  }

  datatype Config = Config(threshold: int, window: real, cooldown: real) {
    predicate Valid() {
      threshold > 0 && window > 0.0 && cooldown > 0.0
    }
  }

  /** Zero means "not set" and stands for the default. */
  function WithDefaults(cfg: Config): Config {
    Config(if cfg.threshold <= 0 then 3 else cfg.threshold,
           if cfg.window <= 0.0 then 60.0 else cfg.window,
           if cfg.cooldown <= 0.0 then 30.0 else cfg.cooldown)
  }

  datatype State = Closed | Open | HalfOpen

  datatype EntryView = EntryView(failures: seq<real>, state: State, openedAt: real, inflight: bool)

  /** A provider without an entry behaves like this one. */
  const FRESH := EntryView([], Closed, 0.0, false)

  function Kept(times: seq<real>, cutoff: real): seq<real> {
    KeptUpTo(times, cutoff, |times|)
  }

  function KeptUpTo(times: seq<real>, cutoff: real, n: nat): seq<real>
    requires n <= |times|
  {
    if n == 0 then []
    else if times[n - 1] >= cutoff then KeptUpTo(times, cutoff, n - 1) + [times[n - 1]]
    else KeptUpTo(times, cutoff, n - 1)
  }

  /** Zero marks "never opened", so such an entry never half-opens. */
  predicate CooledDown(cfg: Config, v: EntryView, now: real) {
    v.state == Open && v.openedAt != 0.0 && now - v.openedAt >= cfg.cooldown
  }

  function HalfOpened(cfg: Config, v: EntryView, now: real): EntryView {
    if CooledDown(cfg, v, now) then EntryView([], HalfOpen, v.openedAt, false) else v
  }

  predicate Skips(v: EntryView) {
    v.state == Open || (v.state == HalfOpen && v.inflight)
  }

  function Started(v: EntryView): EntryView {
    if v.state == HalfOpen then v.(inflight := true) else v
  }

  function Failed(cfg: Config, v: EntryView, class_: ErrorClass, now: real): EntryView {
    if !class_.Worthy() then
      if v.state == HalfOpen then v.(state := Open, openedAt := now, inflight := false) else v
    else
      var failures := Kept(v.failures, now - cfg.window) + [now];
      if v.state == HalfOpen || |failures| >= cfg.threshold then EntryView(failures, Open, now, false)
      else EntryView(failures, v.state, v.openedAt, false)
  }

  datatype Event = Asked(now: real) | Began | Won | Lost(class_: ErrorClass, now: real)

  /** Everything that happened to one provider, oldest first. */
  datatype Log = Nothing | Then(before: Log, last: Event)

  function Applied(cfg: Config, v: EntryView, e: Event): EntryView {
    match e
    case Asked(now) => HalfOpened(cfg, v, now)
    case Began => Started(v)
    case Won => FRESH
    case Lost(class_, now) => Failed(cfg, v, class_, now)
  }

  function After(cfg: Config, log: Log): EntryView {
    match log
    case Nothing => FRESH
    case Then(before, e) => Applied(cfg, After(cfg, before), e)
  }

  /** The latest clock reading in the log. */
  function LatestTime(log: Log): real {
    match log
    case Nothing => 0.0
    case Then(_, Asked(now)) => now
    case Then(_, Lost(_, now)) => now
    case Then(before, _) => LatestTime(before)
  }

  /** The clock is positive and never goes back. */
  predicate Timed(log: Log) {
    match log
    case Nothing => true
    case Then(before, Asked(now)) => Timed(before) && 0.0 < now && LatestTime(before) <= now
    case Then(before, Lost(_, now)) => Timed(before) && 0.0 < now && LatestTime(before) <= now
    case Then(before, _) => Timed(before)
  }

  /** A success, or the query that ends a cooldown, forgets the past. */
  predicate Resets(cfg: Config, before: Log, e: Event) {
    e.Won? || (e.Asked? && CooledDown(cfg, After(cfg, before), e.now))
  }

  /** The times of all failover-worthy failures since the last reset, none dropped. */
  function WorthySince(cfg: Config, log: Log): seq<real> {
    match log
    case Nothing => []
    case Then(before, e) =>
      if Resets(cfg, before, e) then []
      else if e.Lost? && (e.class_.AuthExpired? || e.class_.RateLimit? || e.class_.Transient?) then
        WorthySince(cfg, before) + [e.now]
      else WorthySince(cfg, before)
  }

  lemma {:induction false} KeptLocal(times: seq<real>, longer: seq<real>, cutoff: real, n: nat)
    requires n <= |times| && times <= longer
    ensures KeptUpTo(longer, cutoff, n) == KeptUpTo(times, cutoff, n)
  {
    if n > 0 {
      KeptLocal(times, longer, cutoff, n - 1);
      assert longer[n - 1] == times[n - 1];
    }
  }

  lemma KeptAppends(times: seq<real>, t: real, cutoff: real)
    ensures Kept(times + [t], cutoff) == Kept(times, cutoff) + if t >= cutoff then [t] else []
  {
    KeptLocal(times, times + [t], cutoff, |times|);
  }

  /** Pruning for an early cutoff and then for a later one is pruning for the later one. */
  lemma {:induction false} KeptTwice(times: seq<real>, early: real, late: real, n: nat)
    requires early <= late && n <= |times|
    ensures Kept(KeptUpTo(times, early, n), late) == KeptUpTo(times, late, n)
  {
    if n > 0 {
      KeptTwice(times, early, late, n - 1);
      if times[n - 1] >= early {
        KeptAppends(KeptUpTo(times, early, n - 1), times[n - 1], late);
      }
    }
  }

  /** Of times in order, what is kept is a suffix: everything from the cutoff on. */
  lemma {:induction false} KeptIsSuffix(times: seq<real>, cutoff: real, n: nat) returns (k: nat)
    requires n <= |times|
    requires forall i, j :: 0 <= i < j < |times| ==> times[i] <= times[j]
    ensures k <= n && KeptUpTo(times, cutoff, n) == times[k..n]
    ensures forall i :: 0 <= i < n ==> (times[i] >= cutoff <==> k <= i)
  {
    if n == 0 {
      k := 0;
    } else {
      k := KeptIsSuffix(times, cutoff, n - 1);
      if times[n - 1] >= cutoff {
        assert times[k..n] == times[k..n - 1] + [times[n - 1]];
      } else {
        assert k == n - 1;
        k := n;
      }
    }
  }

  function LastOr(times: seq<real>, default: real): real {
    if |times| == 0 then default else times[|times| - 1]
  }

  lemma {:induction false} WorthyTimes(cfg: Config, log: Log)
    requires Timed(log)
    ensures LastOr(WorthySince(cfg, log), 0.0) <= LatestTime(log)
    ensures 0.0 <= LatestTime(log)
  {
    if log.Then? {
      WorthyTimes(cfg, log.before);
    }
  }

  /**
    The pruned list against the unpruned history: what the breaker holds is exactly the failures
    since the last reset that lie in the window ending at the latest of them.
   */
  lemma {:induction false} WindowIsHistory(cfg: Config, log: Log)
    requires cfg.Valid() && Timed(log)
    ensures var all := WorthySince(cfg, log);
            After(cfg, log).failures == Kept(all, LastOr(all, 0.0) - cfg.window)
  {
    if log.Then? {
      WindowIsHistory(cfg, log.before);
      var all, e := WorthySince(cfg, log.before), log.last;
      if e.Lost? && !e.class_.Unknown? && !e.class_.Unlisted? {
        WorthyTimes(cfg, log.before);
        KeptTwice(all, LastOr(all, 0.0) - cfg.window, e.now - cfg.window, |all|);
        KeptAppends(all, e.now, e.now - cfg.window);
      }
    }
  }

  lemma {:induction false} WorthyInOrder(cfg: Config, log: Log)
    requires Timed(log)
    ensures var all := WorthySince(cfg, log); forall i, j :: 0 <= i < j < |all| ==> all[i] <= all[j]
  {
    if log.Then? {
      WorthyInOrder(cfg, log.before);
      WorthyTimes(cfg, log.before);
    }
  }

  /** So the breaker holds a suffix of the history: every failure from some point on, none before it. */
  lemma HeldIsSuffix(cfg: Config, log: Log) returns (k: nat)
    requires cfg.Valid() && Timed(log)
    ensures var all := WorthySince(cfg, log);
            k <= |all| && After(cfg, log).failures == all[k..]
            && forall i :: 0 <= i < |all| ==> (k <= i <==> all[i] >= all[|all| - 1] - cfg.window)
  {
    var all := WorthySince(cfg, log);
    WindowIsHistory(cfg, log);
    WorthyInOrder(cfg, log);
    k := KeptIsSuffix(all, LastOr(all, 0.0) - cfg.window, |all|);
    assert all[k..] == all[k..|all|];
  }

  /** What holds in every reachable state of one provider's breaker. */
  predicate Sound(cfg: Config, v: EntryView) {
    && (v.state == Closed ==> |v.failures| < cfg.threshold && v.openedAt == 0.0)
    && (v.state == HalfOpen ==> v.failures == [])
    && (v.state != Closed ==> v.openedAt > 0.0)
    && (v.inflight ==> v.state == HalfOpen)
  }

  lemma {:induction false} EveryLogIsSound(cfg: Config, log: Log)
    requires cfg.Valid() && Timed(log)
    ensures Sound(cfg, After(cfg, log))
    ensures After(cfg, log).openedAt <= LatestTime(log)
  {
    if log.Then? {
      EveryLogIsSound(cfg, log.before);
      WorthyTimes(cfg, log.before);
    }
  }

  /**
    A closed breaker trips on a failure exactly when that failure is one to fail over from and the
    whole history since the last reset, counted over the window it closes, reaches the threshold.
   */
  lemma TripsAtThreshold(cfg: Config, log: Log, class_: ErrorClass, now: real)
    requires cfg.Valid() && Timed(Then(log, Lost(class_, now))) && After(cfg, log).state == Closed
    ensures After(cfg, Then(log, Lost(class_, now))).state != Closed
       <==> && (class_.AuthExpired? || class_.RateLimit? || class_.Transient?)
            && |Kept(WorthySince(cfg, log) + [now], now - cfg.window)| >= cfg.threshold
    ensures After(cfg, Then(log, Lost(class_, now))).state != HalfOpen
  {
    WindowIsHistory(cfg, Then(log, Lost(class_, now)));
  }

  /** A half-open breaker is settled by the one trial: a success closes it, any failure reopens it. */
  lemma TrialDecides(cfg: Config, log: Log, class_: ErrorClass, now: real)
    requires cfg.Valid() && Timed(Then(log, Lost(class_, now))) && After(cfg, log).state == HalfOpen
    ensures var v := After(cfg, Then(log, Lost(class_, now)));
            && v.state == Open && v.openedAt == now
            && v.failures == if class_.AuthExpired? || class_.RateLimit? || class_.Transient? then [now] else []
    ensures After(cfg, Then(log, Won)) == FRESH
  {
    EveryLogIsSound(cfg, log);
  }

  /** A failure nobody should fail over from leaves a breaker that is not on trial as it was. */
  lemma UnknownIsIgnored(cfg: Config, log: Log, class_: ErrorClass, now: real)
    requires class_.Unknown? || class_.Unlisted?
    ensures After(cfg, log).state != HalfOpen ==> After(cfg, Then(log, Lost(class_, now))) == After(cfg, log)
    ensures WorthySince(cfg, Then(log, Lost(class_, now))) == WorthySince(cfg, log)
  {
  }

  datatype Loss = Loss(class_: ErrorClass, now: real)

  function WithLosses(log: Log, losses: seq<Loss>, n: nat): Log
    requires n <= |losses|
  {
    if n == 0 then log else Then(WithLosses(log, losses, n - 1), Lost(losses[n - 1].class_, losses[n - 1].now))
  }

  /** Failures to fail over from, in order and all within one window. */
  ghost predicate IsBurst(cfg: Config, losses: seq<Loss>) {
    && (forall i :: 0 <= i < |losses| ==>
          losses[i].class_.AuthExpired? || losses[i].class_.RateLimit? || losses[i].class_.Transient?)
    && (forall i, j :: 0 <= i <= j < |losses| ==> losses[i].now <= losses[j].now <= losses[i].now + cfg.window)
  }

  /** The latest `n` of these times are not before `bound`. */
  ghost predicate EndsFrom(times: seq<real>, n: nat, bound: real) {
    n <= |times| && forall i :: |times| - n <= i < |times| ==> times[i] >= bound
  }

  lemma {:induction false} KeptEndsFrom(times: seq<real>, cutoff: real, n: nat, bound: real)
    requires EndsFrom(times, n, bound) && cutoff <= bound
    ensures EndsFrom(Kept(times, cutoff), n, bound)
  {
    if n > 0 {
      var rest, last := times[..|times| - 1], times[|times| - 1];
      assert times == rest + [last];
      KeptEndsFrom(rest, cutoff, n - 1, bound);
      KeptAppends(rest, last, cutoff);
    }
  }

  /** The breaker has opened, or holds the burst so far. */
  ghost predicate Heeds(v: EntryView, n: nat, since: real) {
    v.state == Open || (v.state == Closed && EndsFrom(v.failures, n, since))
  }

  lemma LossHeeds(cfg: Config, v: EntryView, losses: seq<Loss>, n: nat)
    requires 0 < n <= |losses| && IsBurst(cfg, losses) && Heeds(v, n - 1, losses[0].now)
    ensures var v' := Failed(cfg, v, losses[n - 1].class_, losses[n - 1].now);
            Heeds(v', n, losses[0].now) && (n >= cfg.threshold ==> v'.state == Open)
  {
    if v.state == Closed {
      KeptEndsFrom(v.failures, losses[n - 1].now - cfg.window, n - 1, losses[0].now);
    }
  }

  /** As many failures to fail over from as the threshold says, within one window, open a closed breaker. */
  lemma {:induction false} BurstOpens(cfg: Config, log: Log, losses: seq<Loss>, n: nat)
    requires After(cfg, log).state == Closed && n <= |losses| && IsBurst(cfg, losses)
    ensures n > 0 ==> Heeds(After(cfg, WithLosses(log, losses, n)), n, losses[0].now)
    ensures 0 < n && n >= cfg.threshold ==> After(cfg, WithLosses(log, losses, n)).state == Open
  {
    if n > 0 {
      BurstOpens(cfg, log, losses, n - 1);
      LossHeeds(cfg, After(cfg, WithLosses(log, losses, n - 1)), losses, n);
    }
  }

  /** From the start of a half-open trial to its end the provider is skipped, whenever it is asked about. */
  lemma TrialIsExclusive(cfg: Config, log: Log, later: real)
    requires After(cfg, log).state == HalfOpen
    ensures var v := After(cfg, Then(Then(log, Began), Asked(later)));
            v.state == HalfOpen && v.inflight && Skips(v)
  {
  }
}
