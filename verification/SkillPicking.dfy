/** Picking one skill from a group of the same slug (go/internal/skills/resolver.go, loader.go). */
module SkillPicking {
  import opened Wrappers

  datatype Tier = Workspace | Project | Personal | Managed | Bundled | Unlisted(name: string)

  /** A tier that is not in the table ranks like the first one. */
  function Rank(t: Tier): nat {
    match t
    case Workspace => 0
    case Project => 1
    case Personal => 2
    case Managed => 3
    case Bundled => 4
    case Unlisted(_) => 0
  }

  /** The tiers, highest first; one that is not listed counts as the first. */
  const PRECEDENCE: seq<Tier> := [Workspace, Project, Personal, Managed, Bundled]

  predicate Outranks(s: Tier, t: Tier) {
    var s, t := if s.Unlisted? then Workspace else s, if t.Unlisted? then Workspace else t;
    exists i, j :: 0 <= i < j < 5 && s == PRECEDENCE[i] && t == PRECEDENCE[j]
  }

  lemma OutranksIsRank(s: Tier, t: Tier)
    ensures Outranks(s, t) <==> Rank(s) < Rank(t)
  {
    var s', t' := if s.Unlisted? then Workspace else s, if t.Unlisted? then Workspace else t;
    assert PRECEDENCE[Rank(s')] == s' && PRECEDENCE[Rank(t')] == t';
  }

  datatype Skill = Skill(name: string, version: string, requiredEnv: seq<string>, tier: Tier, dir: string) {
    function Place(): Place {
      At(name, tier, dir)
    }
  }

  /** What a result says about where a skill came from. */
  datatype Place = At(slug: string, tier: Tier, dir: string)

  datatype Reason = DuplicateInTier | VersionMismatch | MissingEnv | Shadowed

  datatype Resolved = Resolved(skill: Skill, version: string)

  datatype Rejected = Rejected(place: Place, version: string, reason: Reason)

  type Env = map<string, string>

  predicate IsSet(env: Env, k: string) {
    k in env && env[k] != ""
  }

  predicate HasEnv(s: Skill, env: Env) {
    forall i :: 0 <= i < |s.requiredEnv| ==> IsSet(env, s.requiredEnv[i])
  }

  predicate Pinned(s: Skill, version: string) {
    version == "" || s.version == version
  }

  predicate Eligible(s: Skill, version: string, env: Env) {
    Pinned(s, version) && HasEnv(s, env)
  }

  function Refusal(s: Skill, version: string): Rejected {
    Rejected(s.Place(), version, if Pinned(s, version) then MissingEnv else VersionMismatch)
  }

  function RefusalsUpTo(group: seq<Skill>, version: string, n: nat): seq<Rejected>
    requires n <= |group|
  {
    if n == 0 then [] else RefusalsUpTo(group, version, n - 1) + [Refusal(group[n - 1], version)]
  }

  /** Those of the first `n` that rank strictly lower than the chosen one. */
  function ShadowsUpTo(group: seq<Skill>, chosen: Skill, version: string, n: nat): seq<Rejected>
    requires n <= |group|
  {
    if n == 0 then []
    else if group[n - 1] == chosen || Rank(group[n - 1].tier) <= Rank(chosen.tier) then
      ShadowsUpTo(group, chosen, version, n - 1)
    else ShadowsUpTo(group, chosen, version, n - 1) + [Rejected(group[n - 1].Place(), version, Shadowed)]
  }

  /** What pickWithPrecedence answers when the first eligible candidate is at `k`, if there is one. */
  ghost predicate PickIs(
    group: seq<Skill>, version: string, env: Env, k: nat, chosen: Option<Resolved>, rejected: seq<Rejected>)
  {
    && k <= |group|
    && (forall j :: 0 <= j < k ==> !Eligible(group[j], version, env))
    && (if k < |group| then
          && Eligible(group[k], version, env) && chosen == Some(Resolved(group[k], version))
          && rejected == RefusalsUpTo(group, version, k) + ShadowsUpTo(group, group[k], version, |group|)
        else chosen == None && rejected == RefusalsUpTo(group, version, k))
  }

  /** Every environment variable the skill requires is set, and not to the empty string. */
  ghost predicate Equipped(x: Skill, env: Env) {
    forall k :: k in x.requiredEnv ==> k in env && env[k] != ""
  }

  /** Why a candidate of the group may be rejected. */
  ghost predicate Fair(group: seq<Skill>, version: string, env: Env, chosen: Option<Resolved>, q: Rejected) {
    q.version == version && exists x :: x in group && x.Place() == q.place && FairFor(x, version, env, chosen, q.reason)
  }

  ghost predicate FairFor(x: Skill, version: string, env: Env, chosen: Option<Resolved>, reason: Reason) {
    match reason
    case VersionMismatch => version != "" && x.version != version
    case MissingEnv => (version == "" || x.version == version) && !Equipped(x, env)
    case Shadowed => chosen.Some? && Outranks(chosen.value.skill.tier, x.tier)
    case DuplicateInTier => false
  }

  lemma EligibleIs(x: Skill, version: string, env: Env)
    ensures Eligible(x, version, env) <==> (version == "" || x.version == version) && Equipped(x, env)
  {
    if HasEnv(x, env) {
      forall k | k in x.requiredEnv
        ensures k in env && env[k] != ""
      {
        var i :| 0 <= i < |x.requiredEnv| && x.requiredEnv[i] == k;
      }
    } else {
      var i :| 0 <= i < |x.requiredEnv| && !IsSet(env, x.requiredEnv[i]);
      assert x.requiredEnv[i] in x.requiredEnv;
    }
  }

  lemma {:induction false} RefusalsAreFair(
    group: seq<Skill>, version: string, env: Env, chosen: Option<Resolved>, n: nat)
    requires n <= |group| && forall j :: 0 <= j < n ==> !Eligible(group[j], version, env)
    ensures forall q :: q in RefusalsUpTo(group, version, n) ==> Fair(group, version, env, chosen, q)
  {
    if n > 0 {
      RefusalsAreFair(group, version, env, chosen, n - 1);
      var x, q := group[n - 1], Refusal(group[n - 1], version);
      EligibleIs(x, version, env);
      assert x in group && FairFor(x, version, env, chosen, q.reason);
      assert Fair(group, version, env, chosen, q);
    }
  }

  lemma {:induction false} ShadowsAreFair(group: seq<Skill>, version: string, env: Env, c: Skill, n: nat)
    requires n <= |group|
    ensures forall q :: q in ShadowsUpTo(group, c, version, n) ==>
              Fair(group, version, env, Some(Resolved(c, version)), q)
  {
    if n > 0 {
      ShadowsAreFair(group, version, env, c, n - 1);
      var x := group[n - 1];
      OutranksIsRank(c.tier, x.tier);
      if Rank(x.tier) > Rank(c.tier) {
        assert x in group && FairFor(x, version, env, Some(Resolved(c, version)), Shadowed);
        assert Fair(group, version, env, Some(Resolved(c, version)), Rejected(x.Place(), version, Shadowed));
      }
    }
  }

  /** Every rejection has its reason: another version, a variable that is not set, or a chosen one that outranks it. */
  lemma PickIsFair(
    group: seq<Skill>, version: string, env: Env, k: nat, chosen: Option<Resolved>, rejected: seq<Rejected>)
    requires PickIs(group, version, env, k, chosen, rejected)
    ensures forall q :: q in rejected ==> Fair(group, version, env, chosen, q)
    ensures chosen.Some? ==>
              (version == "" || chosen.value.skill.version == version) && Equipped(chosen.value.skill, env)
  {
    RefusalsAreFair(group, version, env, chosen, k);
    if k < |group| {
      ShadowsAreFair(group, version, env, group[k], |group|);
      EligibleIs(group[k], version, env);
    }
  }

  method PickWithPrecedence(group: seq<Skill>, version: string, env: Env)
    returns (chosen: Option<Resolved>, rejected: seq<Rejected>, ghost k: nat)
    ensures chosen.Some? <==> exists j :: 0 <= j < |group| && Eligible(group[j], version, env)
    ensures chosen.Some? ==>
              && chosen.value.version == version && chosen.value.skill in group
              && Eligible(chosen.value.skill, version, env)
    ensures PickIs(group, version, env, k, chosen, rejected)
    ensures chosen.Some? ==>
              (version == "" || chosen.value.skill.version == version) && Equipped(chosen.value.skill, env)
    ensures forall q :: q in rejected ==> Fair(group, version, env, chosen, q)
  {
    rejected := [];
    for i := 0 to |group|
      invariant rejected == RefusalsUpTo(group, version, i)
      invariant forall j :: 0 <= j < i ==> !Eligible(group[j], version, env)
    {
      var cand := group[i];
      if version != "" && cand.version != version {
        rejected := rejected + [Rejected(cand.Place(), version, VersionMismatch)];
        continue;
      }
      var missing := [];
      for m := 0 to |cand.requiredEnv|
        invariant missing == [] <==> forall j :: 0 <= j < m ==> IsSet(env, cand.requiredEnv[j])
      {
        if cand.requiredEnv[m] !in env || env[cand.requiredEnv[m]] == "" {
          missing := missing + [cand.requiredEnv[m]];
        }
      }
      if |missing| > 0 {
        rejected := rejected + [Rejected(cand.Place(), version, MissingEnv)];
        continue;
      }
      ghost var refused := rejected;
      for n := 0 to |group|
        invariant rejected == refused + ShadowsUpTo(group, cand, version, n)
      {
        if group[n] == cand {
          continue;
        }
        if Rank(group[n].tier) <= Rank(cand.tier) {
          continue;
        }
        rejected := rejected + [Rejected(group[n].Place(), version, Shadowed)];
      }
      PickIsFair(group, version, env, i, Some(Resolved(cand, version)), rejected);
      return Some(Resolved(cand, version)), rejected, i;
    }
    PickIsFair(group, version, env, |group|, None, rejected);
    return None, rejected, |group|;
  }

  // Accounting.

  function Places(skills: seq<Skill>): (r: seq<Place>)
    ensures |r| == |skills|
  {
    seq(|skills|, i requires 0 <= i < |skills| => skills[i].Place())
  }

  function RejectedPlaces(rejected: seq<Rejected>): (r: seq<Place>)
    ensures |r| == |rejected|
  {
    seq(|rejected|, i requires 0 <= i < |rejected| => rejected[i].place)
  }

  function ChosenPlaces(chosen: Option<Resolved>): seq<Place> {
    if chosen.Some? then [chosen.value.skill.Place()] else []
  }

  ghost predicate RankSorted(group: seq<Skill>) {
    forall i, j :: 0 <= i < j < |group| ==> Rank(group[i].tier) <= Rank(group[j].tier)
  }

  lemma {:induction false} RefusalsAre(group: seq<Skill>, version: string, n: nat)
    requires n <= |group|
    ensures RejectedPlaces(RefusalsUpTo(group, version, n)) == Places(group)[..n]
  {
    if n > 0 {
      RefusalsAre(group, version, n - 1);
      assert Places(group)[..n] == Places(group)[..n - 1] + [group[n - 1].Place()];
    }
  }

  /** No candidate after the chosen one ranks like it. */
  ghost predicate RanksAlone(group: seq<Skill>, k: nat) {
    forall j :: k < j < |group| ==> Rank(group[j].tier) > Rank(group[k].tier)
  }

  lemma {:induction false} NoShadowsBefore(group: seq<Skill>, k: nat, version: string, n: nat)
    requires n <= k + 1 <= |group| && RankSorted(group)
    ensures ShadowsUpTo(group, group[k], version, n) == []
  {
    if n > 0 {
      NoShadowsBefore(group, k, version, n - 1);
    }
  }

  lemma {:induction false} ShadowsAre(group: seq<Skill>, k: nat, version: string, n: nat)
    requires k < n <= |group| && RankSorted(group) && RanksAlone(group, k)
    ensures RejectedPlaces(ShadowsUpTo(group, group[k], version, n)) == Places(group)[k + 1..n]
  {
    if n == k + 1 {
      NoShadowsBefore(group, k, version, n);
    } else {
      ShadowsAre(group, k, version, n - 1);
      var was := ShadowsUpTo(group, group[k], version, n - 1);
      var shadow := Rejected(group[n - 1].Place(), version, Shadowed);
      assert ShadowsUpTo(group, group[k], version, n) == was + [shadow];
      assert RejectedPlaces(was + [shadow]) == RejectedPlaces(was) + [shadow.place];
      assert Places(group)[k + 1..n] == Places(group)[k + 1..n - 1] + [group[n - 1].Place()];
    }
  }

  lemma {:induction false} ShadowsAreFew(group: seq<Skill>, k: nat, version: string, n: nat)
    requires k < |group| && n <= |group| && RankSorted(group)
    ensures |ShadowsUpTo(group, group[k], version, n)| <= if n <= k then 0 else n - k - 1
    ensures (exists j :: k < j < n && Rank(group[j].tier) <= Rank(group[k].tier))
        ==> |ShadowsUpTo(group, group[k], version, n)| < n - k - 1
  {
    if n > 0 {
      ShadowsAreFew(group, k, version, n - 1);
    }
  }

  /** The chosen place and the rejected ones, together. */
  function Accounted(chosen: Option<Resolved>, rejected: seq<Rejected>): multiset<Place> {
    multiset(ChosenPlaces(chosen)) + multiset(RejectedPlaces(rejected))
  }

  lemma PickAccounts(group: seq<Skill>, version: string, env: Env, k: nat, chosen: Option<Resolved>,
                     rejected: seq<Rejected>)
    requires RankSorted(group) && PickIs(group, version, env, k, chosen, rejected)
    requires k == |group| || RanksAlone(group, k)
    ensures Accounted(chosen, rejected) == multiset(Places(group))
  {
    var places, refused := Places(group), RefusalsUpTo(group, version, k);
    RefusalsAre(group, version, k);
    if k == |group| {
      assert places[..k] == places;
    } else {
      var shadows := ShadowsUpTo(group, group[k], version, |group|);
      ShadowsAre(group, k, version, |group|);
      assert RejectedPlaces(refused + shadows) == RejectedPlaces(refused) + RejectedPlaces(shadows);
      ThreeParts(places, k);
    }
  }

  lemma ThreeParts(places: seq<Place>, k: nat)
    requires k < |places|
    ensures multiset([places[k]]) + multiset(places[..k] + places[k + 1..|places|]) == multiset(places)
  {
    assert places == places[..k] + [places[k]] + places[k + 1..|places|];
  }

  lemma PickMisses(group: seq<Skill>, version: string, env: Env, k: nat, chosen: Option<Resolved>,
                   rejected: seq<Rejected>)
    requires RankSorted(group) && PickIs(group, version, env, k, chosen, rejected)
    requires k < |group| && !RanksAlone(group, k)
    ensures |Accounted(chosen, rejected)| < |multiset(Places(group))|
  {
    RefusalsAre(group, version, k);
    ShadowsAreFew(group, k, version, |group|);
    assert |RefusalsUpTo(group, version, k)| == |RejectedPlaces(RefusalsUpTo(group, version, k))|;
  }

  /**
    Every candidate of a sorted group is accounted for, once, exactly when no candidate after the
    chosen one ranks like it; with known tiers, no two of a group ever do.
   */
  lemma PickAccountsIff(
    group: seq<Skill>, version: string, env: Env, k: nat, chosen: Option<Resolved>, rejected: seq<Rejected>)
    requires RankSorted(group) && PickIs(group, version, env, k, chosen, rejected)
    ensures Accounted(chosen, rejected) == multiset(Places(group)) <==> k == |group| || RanksAlone(group, k)
  {
    if k == |group| || RanksAlone(group, k) {
      PickAccounts(group, version, env, k, chosen, rejected);
    } else {
      PickMisses(group, version, env, k, chosen, rejected);
    }
  }

  /** Two unlisted tiers tie: the second candidate is neither selected nor rejected. */
  lemma UnlistedTierIsLost()
    ensures var a := Skill("s", "1", [], Workspace, "a");
            var b := Skill("s", "1", [], Unlisted("x"), "b");
            PickIs([a, b], "", map[], 0, Some(Resolved(a, "")), [])
  {
    var a := Skill("s", "1", [], Workspace, "a");
    var b := Skill("s", "1", [], Unlisted("x"), "b");
    assert ShadowsUpTo([a, b], a, "", 1) == [];
    assert ShadowsUpTo([a, b], a, "", 2) == [];
    assert RefusalsUpTo([a, b], "", 0) == [];
  }
}
