/** The token refresher itself (go/adapters/zalo/token_refresher.go). */
module TokenRefreshing {
  import opened Wrappers
  import opened RefresherSpec

  /** A field of the OAuth response; `parsed` is what strconv.ParseFloat makes of a string. */
  datatype Field = Text(s: string, parsed: Option<real>) | Number(x: real) | OtherField

  /** What the injected refresh function answers. */
  datatype Reply =
    | Failure(message: string)
    | NilResponse
    | Body(access: Option<Field>, refresh: Option<Field>, expiresIn: Option<Field>)

  function CoerceFloat(f: Field): Option<real> {
    match f
    case Text(_, parsed) => parsed
    case Number(x) => Some(x)
    case OtherField => None
  }

  /** A reply is good exactly when it carries a non-empty string as its access token. */
  predicate Good(r: Reply) {
    r.Body? && r.access.Some? && r.access.value.Text? && r.access.value.s != ""
  }

  const NIL_RESPONSE := "refresh returned nil response"
  const MALFORMED := "refresh returned malformed response"
  const EMPTY_TOKEN := "refresh returned empty access_token"

  /** Why a reply is bad. */
  function MessageOf(r: Reply): string {
    match r
    case Failure(message) => message
    case NilResponse => NIL_RESPONSE
    case Body(None, _, _) => MALFORMED
    case Body(_, _, _) => EMPTY_TOKEN
  }

  /** The old refresh token and validity stand in for what the reply does not properly give. */
  function EventOf(st: Status, r: Reply, issued: real, now: real): Event {
    if !Good(r) then Failed(MessageOf(r), now)
    else
      var refresh := if r.refresh.Some? && r.refresh.value.Text? && r.refresh.value.s != "" then r.refresh.value.s
                     else st.refresh;
      var parsed := if r.expiresIn.Some? then CoerceFloat(r.expiresIn.value) else None;
      var validity := if parsed.Some? && parsed.value > 0.0 then parsed.value else st.validity;
      Refreshed(r.access.value.s, refresh, validity, issued, now)
  }

  /** What the reply gives, if it properly gives a refresh token. */
  function NonEmptyOr(f: Option<Field>, default: string): string {
    match f
    case Some(Text(s, _)) => if s != "" then s else default
    case _ => default
  }

  /** What the reply gives, if it properly gives a validity. */
  function PositiveOr(f: Option<Field>, default: real): real {
    match f
    case Some(Number(x)) => if x > 0.0 then x else default
    case Some(Text(_, Some(x))) => if x > 0.0 then x else default
    case _ => default
  }

  /** A minute, then two, four and eight, but never longer than the lead. */
  function Capped(n: nat, lead: real): real {
    var base := match n case 1 => 60.0 case 2 => 120.0 case 3 => 240.0 case _ => 480.0;
    if lead < base then lead else base
  }

  /** The loop's first `n` rounds, each sleeping exactly as long as it asked, from `start` on. */
  datatype Looped = Looped(st: Status, log: seq<Alert>, now: real)

  function LoopUpTo(cfg: Config, st: Status, log: seq<Alert>, start: real, replies: seq<Reply>, n: nat): Looped
    requires n <= |replies|
  {
    if n == 0 then Looped(st, log, start)
    else
      var l := LoopUpTo(cfg, st, log, start, replies, n - 1);
      var now := l.now + NextWait(cfg, l.st, l.now);
      var e := EventOf(l.st, replies[n - 1], now, now);
      Looped(Applied(cfg, l.st, e), l.log + Alerts(cfg, l.st, e), now)
  }

  /** The messages of the first, second, ... reply. */
  ghost predicate Says(errors: nat -> string, replies: seq<Reply>) {
    forall k: nat {:trigger errors(k)} :: 0 < k <= |replies| ==> errors(k) == MessageOf(replies[k - 1])
  }

  /** The last good reply among the first `n`. */
  function LastGood(replies: seq<Reply>, n: nat): Option<nat>
    requires n <= |replies|
  {
    if n == 0 then None else if Good(replies[n - 1]) then Some(n - 1) else LastGood(replies, n - 1)
  }

  lemma {:induction false} LastGoodIs(replies: seq<Reply>, n: nat)
    requires n <= |replies|
    ensures match LastGood(replies, n)
            case Some(k) => k < n && Good(replies[k]) && forall j :: k < j < n ==> !Good(replies[j])
            case None => forall j :: 0 <= j < n ==> !Good(replies[j])
  {
    if n > 0 {
      LastGoodIs(replies, n - 1);
    }
  }

  /** After any number of rounds the access token is the one the last good reply gave. */
  lemma {:induction false} TokenIsLastGood(
    cfg: Config, st: Status, log: seq<Alert>, start: real, replies: seq<Reply>, n: nat)
    requires n <= |replies|
    ensures LoopUpTo(cfg, st, log, start, replies, n).st.access
         == match LastGood(replies, n)
            case Some(k) => (LastGoodIs(replies, n); replies[k].access.value.s)
            case None => st.access
  {
    if n > 0 {
      TokenIsLastGood(cfg, st, log, start, replies, n - 1);
    }
  }

  /** A round with a bad reply. */
  lemma BadRound(cfg: Config, st: Status, log: seq<Alert>, start: real, replies: seq<Reply>, n: nat)
    requires 0 < n <= |replies| && !Good(replies[n - 1])
    ensures var l0, l := LoopUpTo(cfg, st, log, start, replies, n - 1), LoopUpTo(cfg, st, log, start, replies, n);
            && l.now == l0.now + NextWait(cfg, l0.st, l0.now)
            && l.st == Applied(cfg, l0.st, Failed(MessageOf(replies[n - 1]), l.now))
  {
  }

  /** A loop whose replies are all bad is an outage: its failures come at the times the back-off sets. */
  lemma {:induction false} BadRepliesAreOutage(
    cfg: Config, st: Status, log: seq<Alert>, start: real, replies: seq<Reply>, errors: nat -> string, n: nat)
    requires 0 < n <= |replies| && Fresh(st) && cfg.lead > 0.0 && Says(errors, replies)
    requires forall i :: 0 <= i < |replies| ==> !Good(replies[i])
    ensures var first, l := start + NextWait(cfg, st, start), LoopUpTo(cfg, st, log, start, replies, n);
            l.st == After(cfg, st, Outage(cfg, first, errors, n)) && l.now == FailureTime(cfg, first, n)
  {
    hide EventOf, MessageOf, Alerts;
    var first := start + NextWait(cfg, st, start);
    BadRound(cfg, st, log, start, replies, n);
    if n == 1 {
      assert Outage(cfg, first, errors, 0) == Nothing;
      assert LoopUpTo(cfg, st, log, start, replies, 0) == Looped(st, log, start);
    } else {
      BadRepliesAreOutage(cfg, st, log, start, replies, errors, n - 1);
      DisabledIff(cfg, st, first, errors, n - 1);
    }
  }

  /**
    So a loop whose replies are all bad has sending disabled from one definite round on, which
    comes less than `disable` + min(480, `lead`) seconds after the first.
   */
  lemma BadLoopDisablesInTime(cfg: Config, st: Status, log: seq<Alert>, start: real, replies: seq<Reply>)
    returns (n: nat)
    requires Fresh(st) && cfg.lead > 0.0 && cfg.disable > 0.0
    requires forall i :: 0 <= i < |replies| ==> !Good(replies[i])
    ensures n > 0
    ensures forall k :: 0 < k <= |replies| ==> (LoopUpTo(cfg, st, log, start, replies, k).st.disabled <==> k >= n)
    ensures n <= |replies| ==>
              LoopUpTo(cfg, st, log, start, replies, n).now - LoopUpTo(cfg, st, log, start, replies, 1).now
              < cfg.disable + Min(480.0, cfg.lead)
  {
    hide LoopUpTo, After, Outage, MessageOf, NextWait;
    var first := start + NextWait(cfg, st, start);
    var errors: nat -> string := k => if 0 < k <= |replies| then MessageOf(replies[k - 1]) else "";
    n := DisabledInTime(cfg, st, first, errors);
    forall k | 0 < k <= |replies|
      ensures LoopUpTo(cfg, st, log, start, replies, k).st.disabled <==> k >= n
    {
      BadRepliesAreOutage(cfg, st, log, start, replies, errors, k);
    }
    if n <= |replies| {
      BadRepliesAreOutage(cfg, st, log, start, replies, errors, 1);
      BadRepliesAreOutage(cfg, st, log, start, replies, errors, n);
    }
  }

  const LEAD_TOO_LOW := "token_refresh_lead_s must be > 0"
  const VALIDITY_TOO_LOW :=
    "token_validity_s must be > token_refresh_lead_s (otherwise the refresher would fire immediately)"
  const NO_REFRESH := "refresh function must be non-nil"

  class TokenRefresher {
    const cfg: Config
    var accessToken: string
    var refreshToken: string
    var validityS: real
    var issuedAt: real
    var consecutiveFailures: nat
    var firstFailureAt: Option<real>
    var sendDisabled: bool
    /** What the alert callback has been given. */
    var alerts: seq<Alert>

    ghost function View(): Status
      reads this
    {
      Status(accessToken, refreshToken, validityS, issuedAt, consecutiveFailures, firstFailureAt, sendDisabled)
    }

    constructor (access: string, refresh: string, validity: real, lead: real, disable: real, now: real)
      ensures cfg == Config(lead, disable) && View() == Status(access, refresh, validity, now, 0, None, false)
      ensures alerts == []
    {
      cfg := Config(lead, disable);
      accessToken, refreshToken, validityS, issuedAt := access, refresh, validity, now;
      consecutiveFailures, firstFailureAt, sendDisabled, alerts := 0, None, false, [];
    }

    /** Refuses a lead that is not positive, a validity that does not exceed it and a missing refresh function. */
    static method New(access: string, refresh: string, hasRefresh: bool, validity: real, lead: real, disable: real,
                      now: real)
      returns (r: Result<TokenRefresher>)
      ensures r.Ok? <==> 0.0 < lead < validity && hasRefresh
      ensures r.Err? ==> r.message == if lead <= 0.0 then LEAD_TOO_LOW
                                      else if validity <= lead then VALIDITY_TOO_LOW else NO_REFRESH
      ensures r.Ok? ==>
                && fresh(r.value) && r.value.cfg == Config(lead, disable) && r.value.alerts == []
                && r.value.View() == Status(access, refresh, validity, now, 0, None, false)
    {
      if lead <= 0.0 {
        return Err(LEAD_TOO_LOW);
      }
      if validity <= lead {
        return Err(VALIDITY_TOO_LOW);
      }
      if !hasRefresh {
        return Err(NO_REFRESH);
      }
      var t := new TokenRefresher(access, refresh, validity, lead, disable, now);
      return Ok(t);
    }

    method NextWaitS(now: real) returns (wait: real)
      ensures wait == NextWait(cfg, View(), now)
      ensures consecutiveFailures == 0 ==>
                var left := validityS - (now - issuedAt) - cfg.lead; wait == if left < 0.0 then 0.0 else left
      ensures consecutiveFailures > 0 ==> wait == Capped(consecutiveFailures, cfg.lead)
    {
      if consecutiveFailures == 0 {
        var elapsed := now - issuedAt;
        var remaining := validityS - cfg.lead - elapsed;
        if remaining < 0.0 {
          remaining := 0.0;
        }
        return remaining;
      }
      var idx := consecutiveFailures - 1;
      if idx >= |BACKOFF| {
        idx := |BACKOFF| - 1;
      }
      var base := BACKOFF[idx];
      if base > cfg.lead {
        return cfg.lead;
      }
      return base;
    }

    method OnSuccess(access: string, refresh: string, validity: real, issued: real, now: real)
      modifies this
      ensures var e := Refreshed(access, refresh, validity, issued, now);
              && View() == Applied(cfg, old(View()), e)
              && alerts == old(alerts) + Alerts(cfg, old(View()), e)
      ensures accessToken == access && refreshToken == refresh && validityS == validity && issuedAt == issued
      ensures consecutiveFailures == 0 && firstFailureAt == None && !sendDisabled
      ensures alerts == old(alerts) + (if old(sendDisabled) then [SendEnabled(now)] else [])
                                    + (if old(consecutiveFailures) > 0 then [Recovered(now)] else [])
    {
      var wasFailing := consecutiveFailures > 0;
      var wasDisabled := sendDisabled;
      accessToken := access;
      refreshToken := refresh;
      validityS := validity;
      issuedAt := issued;
      consecutiveFailures := 0;
      firstFailureAt := None;
      if wasDisabled {
        sendDisabled := false;
      }
      if wasDisabled {
        alerts := alerts + [SendEnabled(now)];
      }
      if wasFailing {
        alerts := alerts + [Recovered(now)];
      }
    }

    method OnFailure(error: string, now: real)
      modifies this
      ensures View() == Applied(cfg, old(View()), Failed(error, now))
      ensures alerts == old(alerts) + Alerts(cfg, old(View()), Failed(error, now))
      ensures accessToken == old(accessToken) && refreshToken == old(refreshToken)
      ensures validityS == old(validityS) && issuedAt == old(issuedAt)
      ensures consecutiveFailures == old(consecutiveFailures) + 1
      ensures firstFailureAt == if old(firstFailureAt).None? then Some(now) else old(firstFailureAt)
      ensures sendDisabled <==> old(sendDisabled) || now - firstFailureAt.value >= cfg.disable
      ensures var n, first := consecutiveFailures, firstFailureAt.value;
              alerts == old(alerts)
                        + (if sendDisabled && !old(sendDisabled)
                           then [SendDisabled(n, error, now, now - first)] else [])
                        + [Alert.Failure(n, Capped(n, cfg.lead), error, now)]
    {
      consecutiveFailures := consecutiveFailures + 1;
      if firstFailureAt.None? {
        firstFailureAt := Some(now);
      }
      var nextRetry := NextWaitS(now);
      var elapsedFailure := now - firstFailureAt.value;
      var tripped := false;
      if !sendDisabled && elapsedFailure >= cfg.disable {
        sendDisabled := true;
        tripped := true;
      }
      var attempt := consecutiveFailures;
      if tripped {
        alerts := alerts + [SendDisabled(attempt, error, now, elapsedFailure)];
      }
      alerts := alerts + [Alert.Failure(attempt, nextRetry, error, now)];
    }

    /** A success replaces the tokens and ends the outage; a failure leaves the tokens alone and is counted. */
    method RefreshNow(r: Reply, issued: real, now: real) returns (ok: bool)
      modifies this
      ensures ok <==> r.Body? && r.access.Some? && r.access.value.Text? && r.access.value.s != ""
      ensures ok ==>
                && accessToken == r.access.value.s && issuedAt == issued
                && refreshToken == NonEmptyOr(r.refresh, old(refreshToken))
                && validityS == PositiveOr(r.expiresIn, old(validityS))
                && consecutiveFailures == 0 && firstFailureAt == None && !sendDisabled
      ensures !ok ==>
                && accessToken == old(accessToken) && refreshToken == old(refreshToken)
                && validityS == old(validityS) && issuedAt == old(issuedAt)
                && consecutiveFailures == old(consecutiveFailures) + 1
                && firstFailureAt == (if old(firstFailureAt).None? then Some(now) else old(firstFailureAt))
                && (sendDisabled <==> old(sendDisabled) || now - firstFailureAt.value >= cfg.disable)
      ensures ok ==> alerts == old(alerts) + (if old(sendDisabled) then [SendEnabled(now)] else [])
                                           + (if old(consecutiveFailures) > 0 then [Recovered(now)] else [])
      ensures !ok ==>
                var n, first := consecutiveFailures, firstFailureAt.value;
                alerts == old(alerts)
                          + (if sendDisabled && !old(sendDisabled)
                             then [SendDisabled(n, MessageOf(r), now, now - first)] else [])
                          + [Alert.Failure(n, Capped(n, cfg.lead), MessageOf(r), now)]
      ensures var e := EventOf(old(View()), r, issued, now);
              View() == Applied(cfg, old(View()), e) && alerts == old(alerts) + Alerts(cfg, old(View()), e)
    {
      hide Applied, Alerts;
      if r.Failure? {
        OnFailure(r.message, now);
        return false;
      }
      if r.NilResponse? {
        OnFailure(NIL_RESPONSE, now);
        return false;
      }
      if r.access.None? {
        OnFailure(MALFORMED, now);
        return false;
      }
      if !r.access.value.Text? || r.access.value.s == "" {
        OnFailure(EMPTY_TOKEN, now);
        return false;
      }
      var newRefresh := refreshToken;
      if r.refresh.Some? && r.refresh.value.Text? && r.refresh.value.s != "" {
        newRefresh := r.refresh.value.s;
      }
      var expiresIn := validityS;
      if r.expiresIn.Some? {
        var parsed := CoerceFloat(r.expiresIn.value);
        if parsed.Some? && parsed.value > 0.0 {
          expiresIn := parsed.value;
        }
      }
      OnSuccess(r.access.value.s, newRefresh, expiresIn, issued, now);
      return true;
    }

    /** The background loop for as many rounds as there are replies; `now` is the exact clock. */
    method Loop(start: real, replies: seq<Reply>) returns (now: real)
      modifies this
      ensures Looped(View(), alerts, now) == LoopUpTo(cfg, old(View()), old(alerts), start, replies, |replies|)
    {
      now := start;
      for i := 0 to |replies|
        invariant Looped(View(), alerts, now) == LoopUpTo(cfg, old(View()), old(alerts), start, replies, i)
      {
        var wait := NextWaitS(now);
        now := now + wait;
        var ok := RefreshNow(replies[i], now, now);
      }
    }
  }
}
