/**
  The health probe's counters, and what they say about the history of probes
  (go/internal/orchestrator/health_probe.go).
 */
module ProbeAccounting {

  /** One probe; `recreated` tells whether a forced recreation followed and succeeded. */
  datatype ProbeEvent = ProbeEvent(id: string, alive: bool, recreated: bool)

  datatype ProbeStats = ProbeStats(probes: nat, failures: nat, recreates: nat, streaks: map<string, nat>) {
    function Streak(id: string): nat {
      if id in streaks then streaks[id] else 0
    }
  }

  const NO_PROBES := ProbeStats(0, 0, 0, map[])

  function Recorded(s: ProbeStats, e: ProbeEvent): ProbeStats {
    var t := s.(probes := s.probes + 1);
    if e.alive then t.(streaks := t.streaks - {e.id})
    else
      var t := t.(failures := t.failures + 1);
      if e.recreated then t.(recreates := t.recreates + 1, streaks := t.streaks - {e.id})
      else t.(streaks := t.streaks[e.id := s.Streak(e.id) + 1])
  }

  /** Every probe so far, oldest first. */
  datatype History = NoProbes | Then(before: History, last: ProbeEvent) {
    function Length(): nat {
      if NoProbes? then 0 else before.Length() + 1
    }

    function Failed(): nat {
      if NoProbes? then 0 else before.Failed() + if last.alive then 0 else 1
    }

    /** The sandboxes recreated, in order. */
    function Recreated(): seq<string> {
      if NoProbes? then [] else before.Recreated() + if last.recreated then [last.id] else []
    }

    /** Failed probes of `id` since its last success or successful recreation. */
    function FailedSince(id: string): nat {
      if NoProbes? then 0
      else if last.id != id then before.FailedSince(id)
      else if last.alive || last.recreated then 0
      else before.FailedSince(id) + 1
    }
  }

  /** The counters after `h`, started from `s`. */
  function After(s: ProbeStats, h: History): ProbeStats {
    match h
    case NoProbes => s
    case Then(before, e) => Recorded(After(s, before), e)
  }

  /** A recreation is only tried on a failed probe, once the streak has reached the grace. */
  predicate Permitted(s: ProbeStats, e: ProbeEvent, grace: int) {
    e.recreated ==> !e.alive && s.Streak(e.id) + 1 >= grace
  }

  /** What the loop can produce from `s` on. */
  predicate Possible(s: ProbeStats, h: History, grace: int) {
    match h
    case NoProbes => true
    case Then(before, e) => Possible(s, before, grace) && Permitted(After(s, before), e, grace)
  }

  function Joined(first: History, second: History): History {
    match second
    case NoProbes => first
    case Then(before, e) => Then(Joined(first, before), e)
  }

  /** Scans compose: the history of the second follows that of the first. */
  lemma {:induction false} Composes(s: ProbeStats, first: History, second: History, grace: int)
    requires Possible(s, first, grace) && Possible(After(s, first), second, grace)
    ensures Possible(s, Joined(first, second), grace)
            && After(s, Joined(first, second)) == After(After(s, first), second)
  {
    if second.Then? {
      Composes(s, first, second.before, grace);
    }
  }

  ghost function Sum(m: map<string, nat>): nat {
    if m == map[] then 0
    else
      var id :| id in m;
      m[id] + Sum(m - {id})
  }

  lemma {:induction false} SumWithout(m: map<string, nat>, id: string)
    requires id in m
    ensures Sum(m) == m[id] + Sum(m - {id})
  {
    var first :| first in m && Sum(m) == m[first] + Sum(m - {first});
    if first != id {
      SumWithout(m - {first}, id);
      SumWithout(m - {id}, first);
      assert m - {first} - {id} == m - {id} - {first};
    }
  }

  lemma SumUpdated(m: map<string, nat>, id: string, n: nat)
    ensures Sum(m[id := n]) == n + Sum(m - {id})
  {
    SumWithout(m[id := n], id);
    assert m[id := n] - {id} == m - {id};
  }

  lemma SumSplit(s: ProbeStats, id: string)
    ensures Sum(s.streaks) == s.Streak(id) + Sum(s.streaks - {id})
  {
    if id in s.streaks {
      SumWithout(s.streaks, id);
    } else {
      assert s.streaks - {id} == s.streaks;
    }
  }

  /** Each counter is the length of the sandbox's current run of failed probes. */
  lemma {:induction false} StreaksAreTrailing(h: History, grace: int, id: string)
    requires Possible(NO_PROBES, h, grace)
    ensures After(NO_PROBES, h).Streak(id) == h.FailedSince(id)
  {
    if h.Then? {
      StreaksAreTrailing(h.before, grace, id);
    }
  }

  ghost predicate Balanced(s: ProbeStats, grace: int) {
    s.recreates * grace + Sum(s.streaks) <= s.failures <= s.probes
  }

  lemma OneMore(n: int, grace: int)
    ensures (n + 1) * grace == n * grace + grace
  {
  }

  lemma RecordedBalances(s: ProbeStats, e: ProbeEvent, grace: int)
    requires Balanced(s, grace) && Permitted(s, e, grace)
    ensures Balanced(Recorded(s, e), grace)
  {
    SumSplit(s, e.id);
    if !e.alive {
      if e.recreated {
        OneMore(s.recreates, grace);
      } else {
        SumUpdated(s.streaks, e.id, s.Streak(e.id) + 1);
      }
    }
  }

  /** Every recreation used up a full grace of failures, and no failure is counted twice. */
  lemma {:induction false} CountersBalance(h: History, grace: int)
    requires Possible(NO_PROBES, h, grace)
    ensures Balanced(After(NO_PROBES, h), grace)
    ensures After(NO_PROBES, h).probes == h.Length() && After(NO_PROBES, h).failures == h.Failed()
    ensures After(NO_PROBES, h).recreates == |h.Recreated()|
  {
    if h.Then? {
      CountersBalance(h.before, grace);
      RecordedBalances(After(NO_PROBES, h.before), h.last, grace);
    }
  }
}
