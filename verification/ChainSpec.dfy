/**
  One walk of the provider fallback chain, and whole runs of such walks, as functions
  (go/internal/runtime/fallback.go).
  What the dispatcher answers, and what the clocks read, is a script: one leg an entry.
 */
module ChainSpec {
  import opened Wrappers
  import opened BreakerSpec

  datatype ProviderEntry = ProviderEntry(id: string, model: string, fallbackOnly: bool)

  datatype CliError = CliError(class_: ErrorClass, message: string)

  datatype CliTurnOutput = CliTurnOutput(text: string, newSessionId: Option<string>)

  /** A dispatcher's answer: either pointer may be nil. */
  datatype Reply = Reply(output: Option<CliTurnOutput>, error: Option<CliError>)

  /** `asked` and `recorded` are read from the breaker's clock, `started` and `ended` from the chain's. */
  datatype Leg = Leg(asked: real, started: real, reply: Reply, ended: real, recorded: real)

  datatype Attempt = Attempt(
    provider: string, model: string, startedAt: real, latencyMS: int, succeeded: bool,
    errorClass: Option<ErrorClass>, errorMessage: string, skipped: bool, parentError: bool)

  datatype TurnResult = TurnResult(output: Option<CliTurnOutput>, error: Option<CliError>, attempts: seq<Attempt>,
                                   selected: string)

  const NO_REPLY := CliError(Transient, "backend returned nil output and nil error")
  const ALL_SKIPPED :=
    CliError(Transient, "every provider in the fallback chain was skipped by an open circuit breaker")
  const SKIP_MESSAGE := "circuit breaker open; skipping preemptively"

  /** What the breaker holds about each provider; one it has never heard of is fresh. */
  type Views = map<string, EntryView>

  function Of(views: Views, p: string): EntryView {
    if p in views then views[p] else FRESH
  }

  function Failure(r: Reply): Option<CliError> {
    if r.output.Some? && r.error.None? then None
    else if r.error.None? then Some(NO_REPLY)
    else r.error
  }

  predicate Dispatched(cfg: Config, v: EntryView, leg: Leg) {
    !Skips(HalfOpened(cfg, v, leg.asked))
  }

  /** The breaker entry after the chain has dealt with one provider. */
  function Visited(cfg: Config, v: EntryView, leg: Leg): EntryView {
    var asked := HalfOpened(cfg, v, leg.asked);
    if Skips(asked) then asked
    else
      match Failure(leg.reply)
      case None => FRESH
      case Some(e) => Failed(cfg, Started(asked), e.class_, leg.recorded)
  }

  /** Conversion of a Go float to an integer drops the fraction, towards zero. */
  function Truncated(x: real): int {
    if x >= 0.0 then x.Floor else -((-x).Floor)
  }

  function Latency(leg: Leg): int {
    Truncated((leg.ended - leg.started) * 1000.0)
  }

  function AttemptOf(entry: ProviderEntry, leg: Leg, dispatched: bool): Attempt {
    if !dispatched then Attempt(entry.id, entry.model, leg.started, 0, false, None, SKIP_MESSAGE, true, false)
    else
      match Failure(leg.reply)
      case None => Attempt(entry.id, entry.model, leg.started, Latency(leg), true, None, "", false, false)
      case Some(e) =>
        Attempt(entry.id, entry.model, leg.started, Latency(leg), false, Some(e.class_), e.message, false, false)
  }

  datatype Walk = Walk(views: Views, attempts: seq<Attempt>, output: Option<CliTurnOutput>,
                       lastErr: Option<CliError>, ended: bool)

  function Stepped(cfg: Config, w: Walk, entry: ProviderEntry, leg: Leg): Walk {
    var v := Of(w.views, entry.id);
    var dispatched := Dispatched(cfg, v, leg);
    var w' := w.(views := w.views[entry.id := Visited(cfg, v, leg)],
                 attempts := w.attempts + [AttemptOf(entry, leg, dispatched)]);
    if w.ended then w
    else if !dispatched then w'
    else
      match Failure(leg.reply)
      case None => w'.(output := leg.reply.output, ended := true)
      case Some(e) => w'.(lastErr := Some(e), ended := !e.class_.Worthy())
  }

  /** The walk over the first `n` entries. */
  function WalkUpTo(cfg: Config, views: Views, order: seq<ProviderEntry>, legs: seq<Leg>, n: nat): Walk
    requires n <= |order| == |legs|
  {
    if n == 0 then Walk(views, [], None, None, false)
    else Stepped(cfg, WalkUpTo(cfg, views, order, legs, n - 1), order[n - 1], legs[n - 1])
  }

  lemma {:induction false} EndedStays(cfg: Config, views: Views, order: seq<ProviderEntry>, legs: seq<Leg>, n: nat,
                                      m: nat)
    requires n <= m <= |order| == |legs| && WalkUpTo(cfg, views, order, legs, n).ended
    ensures WalkUpTo(cfg, views, order, legs, m) == WalkUpTo(cfg, views, order, legs, n)
  {
    if n < m {
      EndedStays(cfg, views, order, legs, n, m - 1);
    }
  }

  /** Failures before the success are marked, and nothing else changes. */
  ghost predicate Stamped(a: seq<Attempt>, b: seq<Attempt>) {
    && |a| == |b|
    && (forall i {:trigger b[i]} :: 0 <= i < |b| ==>
          b[i] == a[i].(parentError := b[i].parentError))
    && (forall i {:trigger b[i]} :: 0 <= i < |b| ==>
          (b[i].parentError <==> a[i].parentError || PrecedesSuccess(a, i)))
  }

  /** Some attempt succeeded, and none up to `i` did. */
  ghost predicate PrecedesSuccess(a: seq<Attempt>, i: int) {
    && (exists j :: 0 <= j < |a| && a[j].succeeded)
    && (forall j :: 0 <= j <= i && j < |a| ==> !a[j].succeeded)
  }

  /** What a turn may return after the walk `w`. */
  ghost predicate TurnAnswer(w: Walk, r: TurnResult) {
    if w.output.Some? then
      && r.output == w.output && r.error == None
      && |w.attempts| > 0 && r.selected == w.attempts[|w.attempts| - 1].provider
      && Stamped(w.attempts, r.attempts)
    else
      && r.output == None && r.selected == "" && r.attempts == w.attempts
      && r.error == Some(if w.lastErr.Some? then w.lastErr.value else ALL_SKIPPED)
  }

  /** An attempt the walk goes on after. */
  predicate Passed(a: Attempt) {
    && !a.succeeded
    && (a.skipped
        || a.errorClass == Some(AuthExpired) || a.errorClass == Some(RateLimit) || a.errorClass == Some(Transient))
  }

  predicate Stops(a: Attempt) {
    a.succeeded || (!a.skipped && a.errorClass.Some? && (a.errorClass.value.Unknown? || a.errorClass.value.Unlisted?))
  }

  /** What every walk looks like after `n` entries. */
  ghost predicate Shape(w: Walk, order: seq<ProviderEntry>, n: nat)
    requires n <= |order|
  {
    var k := |w.attempts|;
    && k <= n && (w.ended ==> k > 0) && (!w.ended ==> k == n)
    && (forall i :: 0 <= i < k ==> Names(w.attempts[i], order[i]))
    && (forall i :: 0 <= i < k && (i < k - 1 || !w.ended) ==> Passed(w.attempts[i]))
    && (w.ended ==> Stops(w.attempts[k - 1]))
    && (w.output.Some? <==> w.ended && w.attempts[k - 1].succeeded)
  }

  predicate Names(a: Attempt, entry: ProviderEntry) {
    a.provider == entry.id && a.model == entry.model && !a.parentError && (a.skipped ==> !a.succeeded)
  }

  /** The error is the last one a dispatched provider gave; there is none when every entry was skipped. */
  ghost predicate ErrorIsLast(w: Walk) {
    match w.lastErr
    case None => forall i :: 0 <= i < |w.attempts| ==> w.attempts[i].skipped || w.attempts[i].succeeded
    case Some(e) =>
      exists i :: 0 <= i < |w.attempts| && Tells(w.attempts[i], e)
                  && forall j :: i < j < |w.attempts| ==> w.attempts[j].skipped || w.attempts[j].succeeded
  }

  predicate Tells(a: Attempt, e: CliError) {
    a.errorClass == Some(e.class_) && a.errorMessage == e.message && !a.skipped && !a.succeeded
  }

  lemma {:induction false} EveryWalkHasShape(cfg: Config, views: Views, order: seq<ProviderEntry>, legs: seq<Leg>,
                                             n: nat)
    requires n <= |order| == |legs|
    ensures Shape(WalkUpTo(cfg, views, order, legs, n), order, n)
  {
    if n > 0 {
      EveryWalkHasShape(cfg, views, order, legs, n - 1);
    }
  }

  lemma {:induction false} EveryErrorIsLast(cfg: Config, views: Views, order: seq<ProviderEntry>, legs: seq<Leg>,
                                            n: nat)
    requires n <= |order| == |legs|
    ensures ErrorIsLast(WalkUpTo(cfg, views, order, legs, n))
  {
    if n > 0 {
      EveryErrorIsLast(cfg, views, order, legs, n - 1);
      var w0 := WalkUpTo(cfg, views, order, legs, n - 1);
      var w := WalkUpTo(cfg, views, order, legs, n);
      if w.lastErr.Some? && w != w0 {
        var k := |w0.attempts|;
        if w.attempts[k].skipped || w.attempts[k].succeeded {
          var i :| 0 <= i < k && Tells(w0.attempts[i], w.lastErr.value)
                   && forall j :: i < j < k ==> w0.attempts[j].skipped || w0.attempts[j].succeeded;
          assert Tells(w.attempts[i], w.lastErr.value);
        } else {
          assert Tells(w.attempts[k], w.lastErr.value);
        }
      }
    }
  }

  /** Whether the walk dispatches to the i-th entry, once it has dealt with those before it. */
  predicate Reached(cfg: Config, views: Views, order: seq<ProviderEntry>, legs: seq<Leg>, i: nat)
    requires i < |order| == |legs|
  {
    Dispatched(cfg, Of(WalkUpTo(cfg, views, order, legs, i).views, order[i].id), legs[i])
  }

  /**
    An attempt is skipped exactly when the breaker says so, and tells what the provider replied: an
    output without an error is a success, neither of the two is transient. Its latency is in whole
    milliseconds.
   */
  predicate Reports(a: Attempt, leg: Leg, reached: bool) {
    && a.startedAt == leg.started && (a.skipped <==> !reached)
    && (a.succeeded <==> reached && leg.reply.output.Some? && leg.reply.error.None?)
    && (reached && leg.reply.error.Some? ==> Tells(a, leg.reply.error.value))
    && (reached && leg.reply.error.None? && leg.reply.output.None? ==> !a.succeeded && a.errorClass == Some(Transient))
    && (!reached ==> a.latencyMS == 0)
    && (reached && leg.started <= leg.ended ==>
          a.latencyMS as real <= (leg.ended - leg.started) * 1000.0 < a.latencyMS as real + 1.0)
  }

  /** The walk's output is the reply of the provider its last attempt reached. */
  ghost predicate OutputIsReply(w: Walk, legs: seq<Leg>) {
    var k := |w.attempts| - 1;
    w.output.Some? ==> 0 <= k < |legs| && w.output == legs[k].reply.output && Failure(legs[k].reply).None?
  }

  /** What dealing with one entry adds to a walk that has not ended. */
  lemma StepAdds(cfg: Config, w: Walk, entry: ProviderEntry, leg: Leg)
    requires !w.ended
    ensures var reached, w' := Dispatched(cfg, Of(w.views, entry.id), leg), Stepped(cfg, w, entry, leg);
            && |w'.attempts| == |w.attempts| + 1 && w'.attempts[..|w.attempts|] == w.attempts
            && Reports(w'.attempts[|w.attempts|], leg, reached)
            && w'.output == (if reached && Failure(leg.reply).None? then leg.reply.output else w.output)
            && (reached && Failure(leg.reply).None? ==> w'.ended)
  {
  }

  /** What a walk over the first `n` entries reports. */
  ghost predicate WalkReports(cfg: Config, views: Views, order: seq<ProviderEntry>, legs: seq<Leg>, w: Walk)
    requires |w.attempts| <= |order| == |legs|
  {
    && OutputIsReply(w, legs) && (w.output.Some? ==> w.ended)
    && forall i :: 0 <= i < |w.attempts| ==> Reports(w.attempts[i], legs[i], Reached(cfg, views, order, legs, i))
  }

  lemma ReportsThen(cfg: Config, views: Views, order: seq<ProviderEntry>, legs: seq<Leg>, n: nat, w: Walk, w': Walk)
    requires 0 < n <= |order| == |legs| && |w.attempts| == n - 1 && WalkReports(cfg, views, order, legs, w) && !w.ended
    requires |w'.attempts| == n && w'.attempts[..n - 1] == w.attempts
    requires var reached := Reached(cfg, views, order, legs, n - 1);
             && Reports(w'.attempts[n - 1], legs[n - 1], reached)
             && w'.output == (if reached && Failure(legs[n - 1].reply).None? then legs[n - 1].reply.output
                              else w.output)
             && (reached && Failure(legs[n - 1].reply).None? ==> w'.ended)
    ensures WalkReports(cfg, views, order, legs, w')
  {
    hide Reached, Reports, Failure;
    assert forall i :: 0 <= i < n - 1 ==> w'.attempts[i] == w.attempts[i];
  }

  lemma {:induction false} EveryWalkReports(cfg: Config, views: Views, order: seq<ProviderEntry>, legs: seq<Leg>,
                                            n: nat)
    requires n <= |order| == |legs|
    ensures var w := WalkUpTo(cfg, views, order, legs, n);
            |w.attempts| <= n && (!w.ended ==> |w.attempts| == n) && WalkReports(cfg, views, order, legs, w)
  {
    hide Stepped, Reports, Failure, WalkReports, Dispatched;
    if n == 0 {
      NothingReports(cfg, views, order, legs);
    } else {
      EveryWalkReports(cfg, views, order, legs, n - 1);
      var w, w' := WalkUpTo(cfg, views, order, legs, n - 1), WalkUpTo(cfg, views, order, legs, n);
      if w.ended {
        EndedStays(cfg, views, order, legs, n - 1, n);
      } else {
        StepAdds(cfg, w, order[n - 1], legs[n - 1]);
        ReportsThen(cfg, views, order, legs, n, w, w');
      }
    }
  }

  lemma NothingReports(cfg: Config, views: Views, order: seq<ProviderEntry>, legs: seq<Leg>)
    requires |order| == |legs|
    ensures WalkReports(cfg, views, order, legs, Walk(views, [], None, None, false))
  {
  }

  /** A turn's attempts report what the breaker and the providers said, whoever was reached. */
  lemma TurnReports(cfg: Config, views: Views, order: seq<ProviderEntry>, legs: seq<Leg>, r: TurnResult)
    requires |order| == |legs| && TurnAnswer(WalkUpTo(cfg, views, order, legs, |order|), r)
    ensures |r.attempts| <= |order|
    ensures forall i :: 0 <= i < |r.attempts| ==>
              Reports(r.attempts[i], legs[i], Reached(cfg, views, order, legs, i))
  {
    var w := WalkUpTo(cfg, views, order, legs, |order|);
    EveryWalkReports(cfg, views, order, legs, |order|);
    assert |w.attempts| == |r.attempts|;
    forall i | 0 <= i < |r.attempts|
      ensures Reports(r.attempts[i], legs[i], Reached(cfg, views, order, legs, i))
    {
      assert Reports(w.attempts[i], legs[i], Reached(cfg, views, order, legs, i));
    }
  }

  /** The attempts follow a prefix of the dispatch order, and only the last may stop the walk. */
  lemma TurnFollowsOrder(cfg: Config, views: Views, order: seq<ProviderEntry>, legs: seq<Leg>, r: TurnResult)
    requires |order| == |legs| && TurnAnswer(WalkUpTo(cfg, views, order, legs, |order|), r)
    ensures |r.attempts| <= |order| && (r.output.Some? <==> r.error.None?)
    ensures forall i :: 0 <= i < |r.attempts| ==>
              r.attempts[i].provider == order[i].id && r.attempts[i].model == order[i].model
    ensures forall i :: 0 <= i < |r.attempts| - 1 ==> Passed(r.attempts[i])
    ensures |r.attempts| < |order| ==> |r.attempts| > 0 && Stops(r.attempts[|r.attempts| - 1])
  {
    EveryWalkHasShape(cfg, views, order, legs, |order|);
  }

  /**
    The chain goes on after a provider that is skipped, out of quota, logged out or briefly down, and
    after no other error.
   */
  lemma FailsOver(cfg: Config, views: Views, order: seq<ProviderEntry>, legs: seq<Leg>, r: TurnResult, i: nat)
    requires |order| == |legs| && TurnAnswer(WalkUpTo(cfg, views, order, legs, |order|), r) && i < |r.attempts|
    ensures i < |order|
    ensures r.attempts[i].skipped && i + 1 < |order| ==> i + 1 < |r.attempts|
    ensures Reached(cfg, views, order, legs, i) && legs[i].reply.error.Some? ==>
              match legs[i].reply.error.value.class_
              case AuthExpired => i + 1 < |order| ==> i + 1 < |r.attempts|
              case RateLimit => i + 1 < |order| ==> i + 1 < |r.attempts|
              case Transient => i + 1 < |order| ==> i + 1 < |r.attempts|
              case Unknown => i + 1 == |r.attempts|
              case Unlisted(_) => i + 1 == |r.attempts|
  {
    hide WalkUpTo, Reached;
    EveryWalkHasShape(cfg, views, order, legs, |order|);
    TurnReports(cfg, views, order, legs, r);
    var w := WalkUpTo(cfg, views, order, legs, |order|);
    assert |w.attempts| == |r.attempts|;
    assert r.attempts[i] == w.attempts[i].(parentError := r.attempts[i].parentError);
    assert i < |w.attempts| - 1 ==> Passed(w.attempts[i]);
  }

  /**
    On success the last attempt alone succeeded, its provider is the selected one and the output is
    what that provider replied; every earlier attempt is stamped.
   */
  lemma SuccessIsLast(cfg: Config, views: Views, order: seq<ProviderEntry>, legs: seq<Leg>, r: TurnResult)
    requires |order| == |legs| && TurnAnswer(WalkUpTo(cfg, views, order, legs, |order|), r) && r.output.Some?
    ensures var k := |r.attempts| - 1;
            && 0 <= k < |order| && r.selected == order[k].id
            && r.output == legs[k].reply.output && Failure(legs[k].reply).None?
            && r.attempts[k].succeeded && !r.attempts[k].parentError
            && forall i :: 0 <= i < k ==> !r.attempts[i].succeeded && r.attempts[i].parentError
  {
    hide WalkUpTo, Failure, Reports, Reached;
    var w := WalkUpTo(cfg, views, order, legs, |order|);
    EveryWalkHasShape(cfg, views, order, legs, |order|);
    EveryWalkReports(cfg, views, order, legs, |order|);
    assert w.attempts[|w.attempts| - 1].succeeded;
  }

  /**
    Without success nothing is stamped, and the error is that of the last attempt which reached a
    provider: an unworthy error ends the walk as its last attempt, anything else means the whole
    order was walked, each entry skipped or failing worthily.
   */
  lemma FailureIsExplained(cfg: Config, views: Views, order: seq<ProviderEntry>, legs: seq<Leg>, r: TurnResult)
    requires |order| == |legs| && TurnAnswer(WalkUpTo(cfg, views, order, legs, |order|), r) && r.output.None?
    ensures forall i :: 0 <= i < |r.attempts| ==> !r.attempts[i].succeeded && !r.attempts[i].parentError
    ensures (exists i :: 0 <= i < |r.attempts| && Stops(r.attempts[i]))
       <==> |r.attempts| > 0 && Stops(r.attempts[|r.attempts| - 1])
    ensures (forall i :: 0 <= i < |r.attempts| ==> !Stops(r.attempts[i])) ==>
              |r.attempts| == |order| && forall i :: 0 <= i < |order| ==> Passed(r.attempts[i])
    ensures if forall i :: 0 <= i < |r.attempts| ==> r.attempts[i].skipped then r.error == Some(ALL_SKIPPED)
            else exists i :: 0 <= i < |r.attempts| && Tells(r.attempts[i], r.error.value)
                             && forall j :: i < j < |r.attempts| ==> r.attempts[j].skipped
  {
    EveryWalkHasShape(cfg, views, order, legs, |order|);
    EveryErrorIsLast(cfg, views, order, legs, |order|);
  }
}
