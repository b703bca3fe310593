/**
  The token refresher's failure, back-off and disable state machine, as functions
  (go/adapters/zalo/token_refresher.go). Clocks are reals, in seconds.
 */
module RefresherSpec {
  import opened Wrappers

  /** `disable` is positive in a loaded configuration; the constructor does not ask for it. */
  datatype Config = Config(lead: real, disable: real)

  datatype Status = Status(
    access: string, refresh: string, validity: real, issuedAt: real,
    failures: nat, firstFailureAt: Option<real>, disabled: bool)

  datatype Alert =
    | Failure(attempt: nat, nextRetry: real, error: string, at: real)
    | SendDisabled(attempt: nat, error: string, at: real, window: real)
    | SendEnabled(at: real)
    | Recovered(at: real)

  const BACKOFF: seq<real> := [60.0, 120.0, 240.0, 480.0]

  function Min(a: real, b: real): real {
    if a > b then b else a
  }

  /** How long to wait after the `n`th failure in a row. */
  function Backoff(n: nat, lead: real): real
    requires n > 0
  {
    Min(if n - 1 >= |BACKOFF| then BACKOFF[|BACKOFF| - 1] else BACKOFF[n - 1], lead)
  }

  function NextWait(cfg: Config, st: Status, now: real): real {
    if st.failures == 0 then
      var remaining := st.validity - cfg.lead - (now - st.issuedAt);
      if remaining < 0.0 then 0.0 else remaining
    else Backoff(st.failures, cfg.lead)
  }

  /** One refresh attempt's result; a success reads the clock twice. */
  datatype Event =
    | Refreshed(access: string, refresh: string, validity: real, issued: real, now: real)
    | Failed(error: string, now: real)

  function Applied(cfg: Config, st: Status, e: Event): Status {
    match e
    case Refreshed(access, refresh, validity, issued, _) => Status(access, refresh, validity, issued, 0, None, false)
    case Failed(_, now) =>
      var since := if st.firstFailureAt.Some? then st.firstFailureAt.value else now;
      st.(failures := st.failures + 1, firstFailureAt := Some(since),
          disabled := st.disabled || now - since >= cfg.disable)
  }

  function Alerts(cfg: Config, st: Status, e: Event): seq<Alert> {
    match e
    case Refreshed(_, _, _, _, now) =>
      (if st.disabled then [SendEnabled(now)] else []) + (if st.failures > 0 then [Recovered(now)] else [])
    case Failed(error, now) =>
      var st' := Applied(cfg, st, e);
      var window := now - st'.firstFailureAt.value;
      (if st'.disabled && !st.disabled then [SendDisabled(st'.failures, error, now, window)] else [])
      + [Failure(st'.failures, Backoff(st'.failures, cfg.lead), error, now)]
  }

  /** Every attempt so far, oldest first. */
  datatype History = Nothing | Then(before: History, last: Event)

  function After(cfg: Config, st: Status, h: History): Status {
    match h
    case Nothing => st
    case Then(before, e) => Applied(cfg, After(cfg, st, before), e)
  }

  function LogOf(cfg: Config, st: Status, h: History): seq<Alert> {
    match h
    case Nothing => []
    case Then(before, e) => LogOf(cfg, st, before) + Alerts(cfg, After(cfg, st, before), e)
  }

  /** A freshly built refresher. */
  predicate Fresh(st: Status) {
    st.failures == 0 && st.firstFailureAt.None? && !st.disabled
  }

  /** The last success of a history. */
  function LastSuccess(h: History): Option<Event> {
    match h
    case Nothing => None
    case Then(before, e) => if e.Refreshed? then Some(e) else LastSuccess(before)
  }

  /** After every history the tokens, the validity and its beginning are those of the last success. */
  lemma {:induction false} TokensAreLast(cfg: Config, st: Status, h: History)
    ensures var st', e := After(cfg, st, h), LastSuccess(h);
            if e.None? then st'.access == st.access && st'.refresh == st.refresh
                            && st'.validity == st.validity && st'.issuedAt == st.issuedAt
            else e.value.Refreshed? && st'.access == e.value.access && st'.refresh == e.value.refresh
                 && st'.validity == e.value.validity && st'.issuedAt == e.value.issued
  {
    if h.Then? {
      TokensAreLast(cfg, st, h.before);
    }
  }

  // What the alert log alone tells: the grammar of its alerts.

  datatype Phase =
    | Up
    | Failing(since: real, count: nat)
    | Tripping(since: real, count: nat, at: real)
    | Down(since: real, count: nat)
    | Enabling(at: real)
    | Broken

  /**
    The alerts that may come next. An outage begins with a failure and ends with a recovery;
    sending is disabled at most once in it, directly before the first failure at least
    `cfg.disable` after it began, and enabled directly before the recovery, if it was disabled.
   */
  function Heard(cfg: Config, p: Phase, a: Alert): Phase {
    match (p, a)
    case (Up, Failure(1, wait, _, at)) =>
      if cfg.disable > 0.0 && wait == Backoff(1, cfg.lead) then Failing(at, 1) else Broken
    case (Up, SendDisabled(1, _, at, window)) =>
      if cfg.disable <= 0.0 && window == 0.0 then Tripping(at, 1, at) else Broken
    case (Failing(since, n), Failure(m, wait, _, at)) =>
      if m == n + 1 && wait == Backoff(m, cfg.lead) && at - since < cfg.disable then Failing(since, m) else Broken
    case (Failing(since, n), SendDisabled(m, _, at, window)) =>
      if m == n + 1 && window == at - since >= cfg.disable then Tripping(since, m, at) else Broken
    case (Failing(_, _), Recovered(_)) => Up
    case (Tripping(since, n, t), Failure(m, wait, _, at)) =>
      if m == n > 0 && at == t && wait == Backoff(m, cfg.lead) then Down(since, m) else Broken
    case (Down(since, n), Failure(m, wait, _, _)) =>
      if m == n + 1 && wait == Backoff(m, cfg.lead) then Down(since, m) else Broken
    case (Down(_, _), SendEnabled(at)) => Enabling(at)
    case (Enabling(t), Recovered(at)) => if t == at then Up else Broken
    case _ => Broken
  }

  function HeardUpTo(cfg: Config, log: seq<Alert>, n: nat): Phase
    requires n <= |log|
  {
    if n == 0 then Up else Heard(cfg, HeardUpTo(cfg, log, n - 1), log[n - 1])
  }

  function HeardAll(cfg: Config, log: seq<Alert>): Phase {
    HeardUpTo(cfg, log, |log|)
  }

  /** The fields, as the phase the log should have reached. */
  function PhaseOf(st: Status): Phase {
    if st.failures == 0 || st.firstFailureAt.None? then Up
    else if st.disabled then Down(st.firstFailureAt.value, st.failures)
    else Failing(st.firstFailureAt.value, st.failures)
  }

  predicate Consistent(st: Status) {
    && (st.failures == 0 <==> st.firstFailureAt.None?)
    && (st.failures == 0 ==> !st.disabled)
  }

  lemma {:induction false} HeardLocal(cfg: Config, log: seq<Alert>, longer: seq<Alert>, n: nat)
    requires n <= |log| && log <= longer
    ensures HeardUpTo(cfg, longer, n) == HeardUpTo(cfg, log, n)
  {
    if n > 0 {
      HeardLocal(cfg, log, longer, n - 1);
      assert longer[n - 1] == log[n - 1];
    }
  }

  lemma HeardOne(cfg: Config, log: seq<Alert>, a: Alert)
    ensures HeardAll(cfg, log + [a]) == Heard(cfg, HeardAll(cfg, log), a)
  {
    HeardLocal(cfg, log, log + [a], |log|);
  }

  /** One attempt's alerts carry the log's phase along with the fields. */
  lemma AlertsFollow(cfg: Config, st: Status, e: Event, log: seq<Alert>)
    requires Consistent(st) && HeardAll(cfg, log) == PhaseOf(st)
    ensures Consistent(Applied(cfg, st, e))
    ensures HeardAll(cfg, log + Alerts(cfg, st, e)) == PhaseOf(Applied(cfg, st, e))
  {
    var alerts := Alerts(cfg, st, e);
    if |alerts| == 0 {
      assert log + alerts == log;
    } else if |alerts| == 1 {
      assert alerts == [alerts[0]];
      HeardOne(cfg, log, alerts[0]);
    } else {
      assert alerts == [alerts[0]] + [alerts[1]];
      assert log + alerts == log + [alerts[0]] + [alerts[1]];
      HeardOne(cfg, log, alerts[0]);
      HeardOne(cfg, log + [alerts[0]], alerts[1]);
    }
  }

  /**
    After every history the log obeys the grammar, and the fields can be read off it: the failure
    count is that of the outage still open, its start is its first failure, and sending is
    disabled exactly when the log says so.
   */
  lemma {:induction false} FieldsAreTheLog(cfg: Config, st: Status, h: History)
    requires Fresh(st)
    ensures Consistent(After(cfg, st, h)) && HeardAll(cfg, LogOf(cfg, st, h)) == PhaseOf(After(cfg, st, h))
  {
    if h.Then? {
      FieldsAreTheLog(cfg, st, h.before);
      AlertsFollow(cfg, After(cfg, st, h.before), h.last, LogOf(cfg, st, h.before));
    }
  }

  // How soon sending is disabled.

  /** Failure after failure, each exactly as long after the one before as the refresher asked to wait. */
  function FailureTime(cfg: Config, first: real, n: nat): real
    requires n > 0
  {
    if n == 1 then first else FailureTime(cfg, first, n - 1) + Backoff(n - 1, cfg.lead)
  }

  /** `n` failures in a row at those times. */
  function Outage(cfg: Config, first: real, errors: nat -> string, n: nat): History {
    if n == 0 then Nothing else Then(Outage(cfg, first, errors, n - 1), Failed(errors(n), FailureTime(cfg, first, n)))
  }

  lemma BackoffBounds(n: nat, lead: real)
    requires n > 0 && lead > 0.0
    ensures 0.0 < Min(60.0, lead) <= Backoff(n, lead) <= Min(480.0, lead)
  {
  }

  lemma {:induction false} FailureTimesGrow(cfg: Config, first: real, n: nat, m: nat)
    requires 0 < n <= m && cfg.lead > 0.0
    ensures FailureTime(cfg, first, n) <= FailureTime(cfg, first, m)
  {
    if n < m {
      BackoffBounds(m - 1, cfg.lead);
      FailureTimesGrow(cfg, first, n, m - 1);
    }
  }

  /** Throughout an outage, sending is disabled exactly when the latest failure is long enough after the first. */
  lemma {:induction false} DisabledIff(cfg: Config, st: Status, first: real, errors: nat -> string, n: nat)
    requires Fresh(st) && cfg.lead > 0.0 && n > 0
    ensures var st' := After(cfg, st, Outage(cfg, first, errors, n));
            && st'.failures == n && st'.firstFailureAt == Some(first)
            && (st'.disabled <==> FailureTime(cfg, first, n) - first >= cfg.disable)
  {
    if n == 1 {
      assert Outage(cfg, first, errors, 0) == Nothing;
    } else {
      DisabledIff(cfg, st, first, errors, n - 1);
      BackoffBounds(n - 1, cfg.lead);
    }
  }

  lemma OneMore(n: real, step: real)
    ensures (n + 1.0) * step == n * step + step
  {
  }

  lemma {:induction false} TimesGrowAtLeast(cfg: Config, first: real, n: nat)
    requires n > 0 && cfg.lead > 0.0
    ensures FailureTime(cfg, first, n) - first >= (n - 1) as real * Min(60.0, cfg.lead)
  {
    if n > 1 {
      TimesGrowAtLeast(cfg, first, n - 1);
      BackoffBounds(n - 1, cfg.lead);
      OneMore((n - 2) as real, Min(60.0, cfg.lead));
    }
  }

  lemma {:induction false} FirstLateFailure(cfg: Config, first: real, m: nat) returns (n: nat)
    requires m > 0 && cfg.lead > 0.0 && cfg.disable > 0.0
    requires FailureTime(cfg, first, m) - first >= cfg.disable
    ensures 1 < n <= m && FailureTime(cfg, first, n) - first >= cfg.disable
    ensures FailureTime(cfg, first, n - 1) - first < cfg.disable
    decreases m
  {
    if FailureTime(cfg, first, m - 1) - first >= cfg.disable {
      n := FirstLateFailure(cfg, first, m - 1);
    } else {
      n := m;
    }
  }

  lemma TimesNotNegative(x: real, y: real)
    requires x >= 0.0 && y >= 0.0
    ensures x * y >= 0.0
  {
  }

  lemma Distributes(x: real, y: real, z: real)
    ensures (x - y) * z == x * z - y * z
  {
  }

  lemma EnoughSteps(x: real, step: real) returns (k: nat)
    requires step > 0.0
    ensures k as real * step >= x
  {
    var q := x / step;
    k := if q.Floor + 1 > 0 then q.Floor + 1 else 0;
    TimesNotNegative(k as real - q, step);
    Distributes(k as real, q, step);
  }

  lemma LateEnough(cfg: Config, first: real) returns (m: nat)
    requires cfg.lead > 0.0
    ensures m > 0 && FailureTime(cfg, first, m) - first >= cfg.disable
  {
    var k := EnoughSteps(cfg.disable, Min(60.0, cfg.lead));
    m := k + 1;
    TimesGrowAtLeast(cfg, first, m);
  }

  /**
    If the loop sleeps exactly as long as it should and every refresh fails, there is a failure at
    which sending is disabled; up to it sending was enabled, and it comes less than
    `disable` + min(480, `lead`) seconds after the first.
   */
  lemma DisabledInTime(cfg: Config, st: Status, first: real, errors: nat -> string) returns (n: nat)
    requires Fresh(st) && cfg.lead > 0.0 && cfg.disable > 0.0
    ensures n > 0 && FailureTime(cfg, first, n) - first < cfg.disable + Min(480.0, cfg.lead)
    ensures forall k: nat :: k > 0 ==> (After(cfg, st, Outage(cfg, first, errors, k)).disabled <==> k >= n)
  {
    var m := LateEnough(cfg, first);
    n := FirstLateFailure(cfg, first, m);
    BackoffBounds(n - 1, cfg.lead);
    forall k: nat | k > 0
      ensures After(cfg, st, Outage(cfg, first, errors, k)).disabled <==> k >= n
    {
      DisabledIff(cfg, st, first, errors, k);
      if k >= n {
        FailureTimesGrow(cfg, first, n, k);
      } else {
        FailureTimesGrow(cfg, first, k, n - 1);
      }
    }
  }
}
