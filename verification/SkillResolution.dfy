/**
  Resolving every available skill: what is selected, what is rejected, and that nothing is lost
  (Resolve of go/internal/skills/resolver.go with no request list).
 */
module SkillResolution {
  import opened Wrappers
  import opened Strings
  import opened SkillPicking
  import opened SkillResolver

  ghost predicate Candidate(a: seq<Skill>, env: Env, x: Skill) {
    x in Firsts(a) && Eligible(x, "", env)
  }

  /** An eligible candidate that no eligible candidate of its slug outranks. */
  ghost predicate Best(a: seq<Skill>, env: Env, x: Skill) {
    && Candidate(a, env, x)
    && forall y :: Candidate(a, env, y) && y.name == x.name ==> Rank(x.tier) <= Rank(y.tier)
  }

  /** An available skill, the first of its slug and tier, with everything it requires in the environment. */
  ghost predicate Usable(a: seq<Skill>, env: Env, x: Skill) {
    && Equipped(x, env)
    && exists i :: 0 <= i < |a| && a[i] == x && forall j :: 0 <= j < i ==> a[j].name != x.name || a[j].tier != x.tier
  }

  lemma CandidateIsUsable(a: seq<Skill>, env: Env, x: Skill)
    ensures Candidate(a, env, x) <==> Usable(a, env, x)
  {
    EligibleIs(x, "", env);
    FirstsAre(a, |a|);
    forall i | 0 <= i < |a| && a[i] == x
      ensures IsFirst(a, i) <==> forall j :: 0 <= j < i ==> a[j].name != x.name || a[j].tier != x.tier
    {
      assert IsFirst(a, i) ==> forall j :: 0 <= j < i ==> !SameSlot(a[j], a[i]);
    }
  }

  /** A usable skill is selected for each slug that has one, and no usable one of its slug outranks it. */
  ghost predicate Precedes(a: seq<Skill>, env: Env, selected: seq<Resolved>) {
    && (forall r :: r in selected ==>
          Usable(a, env, r.skill)
          && forall x :: Usable(a, env, x) && x.name == r.skill.name ==> !Outranks(x.tier, r.skill.tier))
    && (forall x :: Usable(a, env, x) ==> exists r :: r in selected && r.skill.name == x.name)
  }

  /** Why an available skill may be rejected. */
  ghost predicate Justified(a: seq<Skill>, env: Env, selected: seq<Resolved>, q: Rejected) {
    match q.reason
    case DuplicateInTier => IsRepeat(a, q)
    case MissingEnv => exists x :: x in a && q == Rejected(x.Place(), "", MissingEnv) && !Equipped(x, env)
    case Shadowed =>
      exists x, r :: x in a && r in selected && q == Rejected(x.Place(), "", Shadowed)
                     && r.skill.name == x.name && Outranks(r.skill.tier, x.tier)
    case VersionMismatch => false
  }

  lemma FairIsJustified(a: seq<Skill>, env: Env, slug: string, chosen: Option<Resolved>, q: Rejected)
    requires Fair(SortedGroup(a, slug), "", env, chosen, q)
    requires chosen.Some? ==> chosen.value.skill.name == slug
    ensures Justified(a, env, if chosen.Some? then [chosen.value] else [], q)
  {
    var x :| x in SortedGroup(a, slug) && x.Place() == q.place && FairFor(x, "", env, chosen, q.reason);
    SortedGroupHas(a, slug);
    FirstsAre(a, |a|);
    if q.reason.Shadowed? {
      assert chosen.value in [chosen.value];
    }
  }

  lemma SelectionPrecedes(a: seq<Skill>, env: Env, selected: seq<Resolved>)
    requires IsSelection(a, env, selected)
    ensures Precedes(a, env, selected)
  {
    forall x
      ensures Candidate(a, env, x) <==> Usable(a, env, x)
    {
      CandidateIsUsable(a, env, x);
    }
    forall r, x | r in selected && Usable(a, env, x) && x.name == r.skill.name
      ensures !Outranks(x.tier, r.skill.tier)
    {
      assert Best(a, env, r.skill) && Candidate(a, env, x);
      OutranksIsRank(x.tier, r.skill.tier);
    }
  }

  ghost predicate Picks(selected: seq<Resolved>, slug: string) {
    exists i :: 0 <= i < |selected| && selected[i].skill.name == slug
  }

  /** One best candidate for each slug among `done` that has a candidate, and nothing else. */
  ghost predicate Selects(a: seq<Skill>, env: Env, selected: seq<Resolved>, done: set<string>) {
    && (forall i :: 0 <= i < |selected| ==>
          selected[i].version == "" && Best(a, env, selected[i].skill) && selected[i].skill.name in done)
    && (forall i, j :: 0 <= i < j < |selected| ==> selected[i].skill.name != selected[j].skill.name)
    && (forall x :: Candidate(a, env, x) && x.name in done ==> Picks(selected, x.name))
  }

  function Skills(selected: seq<Resolved>): (r: seq<Skill>)
    ensures |r| == |selected|
  {
    seq(|selected|, i requires 0 <= i < |selected| => selected[i].skill)
  }

  /** What has been selected and rejected, and what is still to do, is everything there is. */
  ghost predicate Accounts(a: seq<Skill>, selected: seq<Resolved>, rejected: seq<Rejected>, todo: set<string>) {
    multiset(Places(Skills(selected))) + multiset(RejectedPlaces(rejected)) + multiset(Places(Named(Firsts(a), todo)))
    == multiset(Places(a))
  }

  function GroupOf(a: seq<Skill>, slug: string): seq<Skill> {
    Named(Firsts(a), {slug})
  }

  function SortedGroup(a: seq<Skill>, slug: string): seq<Skill> {
    var group := GroupOf(a, slug);
    SortedUpTo(group, |group|)
  }

  lemma SortedGroupHas(a: seq<Skill>, slug: string)
    ensures RankSorted(SortedGroup(a, slug))
    ensures forall x :: x in SortedGroup(a, slug) <==> x in Firsts(a) && x.name == slug
  {
    var group := GroupOf(a, slug);
    SortedIsSorted(group, |group|);
    SortedHas(group, |group|);
    assert group[..|group|] == group;
    NamedAre(Firsts(a), {slug}, |Firsts(a)|);
  }

  lemma SortedGroupDistinct(a: seq<Skill>, slug: string)
    ensures DistinctTiers(SortedGroup(a, slug))
    ensures multiset(Places(SortedGroup(a, slug))) == multiset(Places(GroupOf(a, slug)))
  {
    var firsts, group := Firsts(a), GroupOf(a, slug);
    FirstsAreDistinct(a, |a|);
    NamedIsDistinct(firsts, {slug}, |firsts|);
    NamedAre(firsts, {slug}, |firsts|);
    assert DistinctTiers(group) by {
      forall i, j | 0 <= i < j < |group|
        ensures group[i].tier != group[j].tier
      {
        assert group[i] in group && group[j] in group;
        assert !SameSlot(group[i], group[j]);
      }
    }
    SortedStaysDistinct(group, |group|);
    SortedPlaces(group, |group|);
    assert Places(group)[..|group|] == Places(group);
  }

  /** Picking from a slug's sorted group picks a best candidate, or finds that there is none. */
  lemma PickIsBest(a: seq<Skill>, env: Env, slug: string, k: nat, chosen: Option<Resolved>, rejected: seq<Rejected>)
    requires PickIs(SortedGroup(a, slug), "", env, k, chosen, rejected)
    ensures if chosen.Some?
            then chosen.value.version == "" && chosen.value.skill.name == slug && Best(a, env, chosen.value.skill)
            else forall x :: Candidate(a, env, x) ==> x.name != slug
  {
    var group := SortedGroup(a, slug);
    SortedGroupHas(a, slug);
    if k < |group| {
      assert group[k] in group;
      forall y | Candidate(a, env, y) && y.name == slug
        ensures Rank(group[k].tier) <= Rank(y.tier)
      {
        var j :| 0 <= j < |group| && group[j] == y;
      }
    } else {
      forall x | Candidate(a, env, x)
        ensures x.name != slug
      {
        assert x.name == slug ==> x in group;
      }
    }
  }

  ghost predicate FirstEligible(group: seq<Skill>, env: Env, k: nat) {
    k < |group| && Eligible(group[k], "", env) && forall j :: 0 <= j < k ==> !Eligible(group[j], "", env)
  }

  /** The first eligible candidate of the slug's sorted group, if there is one, ranks above all that follow. */
  ghost predicate TieFree(a: seq<Skill>, env: Env, slug: string) {
    forall k :: FirstEligible(SortedGroup(a, slug), env, k) ==> RanksAlone(SortedGroup(a, slug), k)
  }

  /** A slug's group is accounted for in full when it is free of such ties, and in part when it is not. */
  lemma PickAccountsForGroup(a: seq<Skill>, env: Env, slug: string, k: nat, chosen: Option<Resolved>,
                             rejected: seq<Rejected>)
    requires PickIs(SortedGroup(a, slug), "", env, k, chosen, rejected)
    ensures TieFree(a, env, slug) ==> Accounted(chosen, rejected) == multiset(Places(GroupOf(a, slug)))
    ensures !TieFree(a, env, slug) ==> |ChosenPlaces(chosen)| + |rejected| < |GroupOf(a, slug)|
    ensures |ChosenPlaces(chosen)| + |rejected| <= |GroupOf(a, slug)|
  {
    var group := SortedGroup(a, slug);
    SortedGroupHas(a, slug);
    SortedGroupDistinct(a, slug);
    assert |Places(group)| == |multiset(Places(group))| == |multiset(Places(GroupOf(a, slug)))| == |GroupOf(a, slug)|;
    assert |Accounted(chosen, rejected)| == |ChosenPlaces(chosen)| + |rejected|;
    assert forall j :: FirstEligible(group, env, j) ==> j == k;
    if k == |group| || RanksAlone(group, k) {
      PickAccounts(group, "", env, k, chosen, rejected);
    } else {
      PickMisses(group, "", env, k, chosen, rejected);
      assert FirstEligible(group, env, k);
    }
  }

  /** Known tiers never tie. */
  lemma KnownIsTieFree(a: seq<Skill>, env: Env, slug: string)
    requires AllKnown(a)
    ensures TieFree(a, env, slug)
  {
    var group := SortedGroup(a, slug);
    SortedGroupHas(a, slug);
    SortedGroupDistinct(a, slug);
    FirstsAre(a, |a|);
    assert AllKnown(group) by {
      forall i | 0 <= i < |group|
        ensures Known(group[i].tier)
      {
        assert group[i] in group;
      }
    }
    forall k | FirstEligible(group, env, k)
      ensures RanksAlone(group, k)
    {
      KnownRanksAlone(group, k);
    }
  }

  lemma SkillsThen(selected: seq<Resolved>, chosen: Option<Resolved>)
    ensures var more := if chosen.Some? then [chosen.value] else [];
            multiset(Places(Skills(selected + more)))
            == multiset(Places(Skills(selected))) + multiset(ChosenPlaces(chosen))
  {
    if chosen.Some? {
      assert Skills(selected + [chosen.value]) == Skills(selected) + [chosen.value.skill];
      PlacesThen(Skills(selected), chosen.value.skill);
    } else {
      assert selected + [] == selected;
    }
  }

  lemma Bags(a: multiset<Place>, b: multiset<Place>, c: multiset<Place>, d: multiset<Place>, e: multiset<Place>,
             f: multiset<Place>)
    requires c + d == e
    ensures a + b + (e + f) == (a + c) + (b + d) + f
  {
  }

  lemma StepAccounts(
    a: seq<Skill>, selected: seq<Resolved>, rejected: seq<Rejected>, todo: set<string>, slug: string,
    chosen: Option<Resolved>, more: seq<Rejected>)
    requires Accounts(a, selected, rejected, todo) && slug in todo
    requires Accounted(chosen, more) == multiset(Places(GroupOf(a, slug)))
    ensures Accounts(a, selected + (if chosen.Some? then [chosen.value] else []), rejected + more, todo - {slug})
  {
    var firsts := Firsts(a);
    NamedSplits(firsts, todo, slug, |firsts|);
    SkillsThen(selected, chosen);
    RejectedThen(rejected, more);
    Bags(multiset(Places(Skills(selected))), multiset(RejectedPlaces(rejected)), multiset(ChosenPlaces(chosen)),
         multiset(RejectedPlaces(more)), multiset(Places(GroupOf(a, slug))),
         multiset(Places(Named(firsts, todo - {slug}))));
  }

  /** Too few selected, rejected and still to do to be everything there is. */
  ghost predicate FallsShort(a: seq<Skill>, selected: seq<Resolved>, rejected: seq<Rejected>, todo: set<string>) {
    |selected| + |rejected| + |Named(Firsts(a), todo)| < |a|
  }

  lemma StepFallsShort(
    a: seq<Skill>, selected: seq<Resolved>, rejected: seq<Rejected>, todo: set<string>, slug: string,
    chosen: Option<Resolved>, more: seq<Rejected>)
    requires slug in todo && |ChosenPlaces(chosen)| + |more| <= |GroupOf(a, slug)|
    requires || FallsShort(a, selected, rejected, todo)
             || (Accounts(a, selected, rejected, todo) && |ChosenPlaces(chosen)| + |more| < |GroupOf(a, slug)|)
    ensures FallsShort(a, selected + (if chosen.Some? then [chosen.value] else []), rejected + more, todo - {slug})
  {
    var firsts := Firsts(a);
    NamedSplits(firsts, todo, slug, |firsts|);
    var now, group, later := Named(firsts, todo), GroupOf(a, slug), Named(firsts, todo - {slug});
    assert |multiset(Places(now))| == |now| && |multiset(Places(group))| == |group|
           && |multiset(Places(later))| == |later|;
    if Accounts(a, selected, rejected, todo) {
      assert |multiset(Places(Skills(selected)))| == |selected| && |multiset(RejectedPlaces(rejected))| == |rejected|;
      assert |multiset(Places(a))| == |a|;
    }
  }

  lemma StepSelects(a: seq<Skill>, env: Env, selected: seq<Resolved>, done: set<string>, slug: string,
                    chosen: Option<Resolved>)
    requires Selects(a, env, selected, done) && slug !in done
    requires if chosen.Some?
             then chosen.value.version == "" && chosen.value.skill.name == slug && Best(a, env, chosen.value.skill)
             else forall x :: Candidate(a, env, x) ==> x.name != slug
    ensures Selects(a, env, selected + (if chosen.Some? then [chosen.value] else []), done + {slug})
  {
    var s := selected + (if chosen.Some? then [chosen.value] else []);
    forall x | Candidate(a, env, x) && x.name in done + {slug}
      ensures Picks(s, x.name)
    {
      if x.name in done {
        assert Picks(selected, x.name);
        var i :| 0 <= i < |selected| && selected[i].skill.name == x.name;
        assert s[i] == selected[i];
      } else {
        assert s[|selected|].skill.name == x.name;
      }
    }
  }

  /** The candidates by slug, without those whose slug and tier were seen before. */
  ghost predicate Grouped(a: seq<Skill>, n: nat, bySlug: map<string, seq<Skill>>, repeats: seq<Rejected>)
    requires n <= |a|
  {
    var firsts := FirstsUpTo(a, n);
    && repeats == RepeatsUpTo(a, n)
    && (forall slug :: slug in bySlug ==> bySlug[slug] == Named(firsts, {slug}))
    && (forall slug :: slug in bySlug <==> exists i :: 0 <= i < |firsts| && firsts[i].name == slug)
  }

  lemma {:induction false} NamedNone(s: seq<Skill>, slug: string, n: nat)
    requires n <= |s| && forall i :: 0 <= i < |s| ==> s[i].name != slug
    ensures NamedUpTo(s, {slug}, n) == []
  {
    if n > 0 {
      NamedNone(s, slug, n - 1);
    }
  }

  lemma GroupedThen(a: seq<Skill>, n: nat, bySlug: map<string, seq<Skill>>, repeats: seq<Rejected>)
    requires n < |a| && Grouped(a, n, bySlug, repeats) && IsFirst(a, n)
    ensures var x := a[n];
            var was := if x.name in bySlug then bySlug[x.name] else [];
            Grouped(a, n + 1, bySlug[x.name := was + [x]], repeats)
  {
    var firsts, x := FirstsUpTo(a, n), a[n];
    var was := if x.name in bySlug then bySlug[x.name] else [];
    var bySlug' := bySlug[x.name := was + [x]];
    assert FirstsUpTo(a, n + 1) == firsts + [x];
    forall slug | slug in bySlug'
      ensures bySlug'[slug] == Named(firsts + [x], {slug})
    {
      NamedThen(firsts, x, slug);
      if slug !in bySlug {
        NamedNone(firsts, slug, |firsts|);
      }
    }
    forall slug
      ensures slug in bySlug' <==> exists i :: 0 <= i < |firsts + [x]| && (firsts + [x])[i].name == slug
    {
      if slug in bySlug {
        var i :| 0 <= i < |firsts| && firsts[i].name == slug;
        assert (firsts + [x])[i].name == slug;
      } else if slug == x.name {
        assert (firsts + [x])[|firsts|].name == slug;
      }
    }
  }

  method GroupBySlug(available: seq<Skill>) returns (bySlug: map<string, seq<Skill>>, repeats: seq<Rejected>)
    ensures Grouped(available, |available|, bySlug, repeats)
  {
    bySlug, repeats := map[], [];
    var seen: set<(string, Tier)> := {};
    for i := 0 to |available|
      invariant Grouped(available, i, bySlug, repeats)
      invariant forall key :: key in seen <==>
                  exists j :: 0 <= j < i && available[j].name == key.0 && available[j].tier == key.1
    {
      var cand := available[i];
      var key := (cand.name, cand.tier);
      if key in seen {
        var j :| 0 <= j < i && available[j].name == key.0 && available[j].tier == key.1;
        assert SameSlot(available[j], available[i]);
        repeats := repeats + [Rejected(cand.Place(), "", DuplicateInTier)];
        continue;
      }
      assert IsFirst(available, i);
      GroupedThen(available, i, bySlug, repeats);
      seen := seen + {key};
      bySlug := bySlug[cand.name := (if cand.name in bySlug then bySlug[cand.name] else []) + [cand]];
    }
  }

  /** sort.Slice on the tier rank: each skill goes behind those that do not rank lower. */
  method SortByRank(group: seq<Skill>) returns (r: seq<Skill>)
    ensures r == SortedUpTo(group, |group|)
  {
    r := [];
    for i := 0 to |group|
      invariant r == SortedUpTo(group, i)
    {
      r := Inserted(r, group[i]);
    }
  }

  /** What picking from one slug's group contributes. */
  ghost predicate Contributes(a: seq<Skill>, env: Env, slug: string, chosen: Option<Resolved>,
                              rejected: seq<Rejected>) {
    && (if chosen.Some? then
          chosen.value.version == "" && chosen.value.skill.name == slug && Best(a, env, chosen.value.skill)
        else forall x :: Candidate(a, env, x) ==> x.name != slug)
    && (TieFree(a, env, slug) ==> Accounted(chosen, rejected) == multiset(Places(GroupOf(a, slug))))
    && (!TieFree(a, env, slug) ==> |ChosenPlaces(chosen)| + |rejected| < |GroupOf(a, slug)|)
    && |ChosenPlaces(chosen)| + |rejected| <= |GroupOf(a, slug)|
    && (forall q :: q in rejected ==> Justified(a, env, if chosen.Some? then [chosen.value] else [], q))
  }

  method PickSlug(ghost a: seq<Skill>, slug: string, group: seq<Skill>, env: Env)
    returns (chosen: Option<Resolved>, rejected: seq<Rejected>)
    requires group == GroupOf(a, slug)
    ensures Contributes(a, env, slug, chosen, rejected)
  {
    var sorted := SortByRank(group);
    ghost var k;
    chosen, rejected, k := PickWithPrecedence(sorted, "", env);
    PickIsBest(a, env, slug, k, chosen, rejected);
    PickAccountsForGroup(a, env, slug, k, chosen, rejected);
    forall q | q in rejected
      ensures Justified(a, env, if chosen.Some? then [chosen.value] else [], q)
    {
      FairIsJustified(a, env, slug, chosen, q);
    }
  }

  ghost predicate AllTieFree(a: seq<Skill>, env: Env, slugs: set<string>) {
    forall slug :: slug in slugs ==> TieFree(a, env, slug)
  }

  ghost predicate Progress(
    a: seq<Skill>, env: Env, selected: seq<Resolved>, rejected: seq<Rejected>, keys: set<string>, todo: set<string>)
  {
    && Selects(a, env, selected, keys - todo)
    && (forall q :: q in rejected ==> Justified(a, env, selected, q))
    && if AllTieFree(a, env, keys - todo) then Accounts(a, selected, rejected, todo)
       else FallsShort(a, selected, rejected, todo)
  }

  lemma StepProgress(
    a: seq<Skill>, env: Env, selected: seq<Resolved>, rejected: seq<Rejected>, keys: set<string>, todo: set<string>,
    slug: string, chosen: Option<Resolved>, more: seq<Rejected>)
    requires Progress(a, env, selected, rejected, keys, todo) && slug in todo && todo <= keys
    requires Contributes(a, env, slug, chosen, more)
    ensures Progress(a, env, selected + (if chosen.Some? then [chosen.value] else []), rejected + more, keys,
                     todo - {slug})
  {
    StepSelects(a, env, selected, keys - todo, slug, chosen);
    var now := selected + if chosen.Some? then [chosen.value] else [];
    forall q | q in rejected + more
      ensures Justified(a, env, now, q)
    {
      if q in rejected {
        JustifiedByMore(a, env, selected, now, q);
      } else {
        JustifiedByMore(a, env, if chosen.Some? then [chosen.value] else [], now, q);
      }
    }
    assert keys - (todo - {slug}) == keys - todo + {slug};
    if AllTieFree(a, env, keys - todo) && TieFree(a, env, slug) {
      StepAccounts(a, selected, rejected, todo, slug, chosen, more);
    } else {
      StepFallsShort(a, selected, rejected, todo, slug, chosen, more);
    }
  }

  /** Go ranges over the groups in any order. */
  method PickAll(ghost a: seq<Skill>, bySlug: map<string, seq<Skill>>, repeats: seq<Rejected>, env: Env)
    returns (selected: seq<Resolved>, rejected: seq<Rejected>)
    requires Grouped(a, |a|, bySlug, repeats)
    ensures Progress(a, env, selected, rejected, bySlug.Keys, {})
  {
    selected, rejected := [], repeats;
    var todo := bySlug.Keys;
    StartAccounts(a, bySlug, repeats);
    RepeatsAre(a, |a|);
    while todo != {}
      invariant todo <= bySlug.Keys
      invariant Progress(a, env, selected, rejected, bySlug.Keys, todo)
      decreases |todo|
    {
      var slug :| slug in todo;
      var chosen, more := PickSlug(a, slug, bySlug[slug], env);
      StepProgress(a, env, selected, rejected, bySlug.Keys, todo, slug, chosen, more);
      rejected := rejected + more;
      selected := selected + if chosen.Some? then [chosen.value] else [];
      todo := todo - {slug};
    }
  }

  lemma StartAccounts(a: seq<Skill>, bySlug: map<string, seq<Skill>>, repeats: seq<Rejected>)
    requires Grouped(a, |a|, bySlug, repeats)
    ensures Accounts(a, [], repeats, bySlug.Keys)
  {
    var firsts := Firsts(a);
    forall x | x in firsts
      ensures x.name in bySlug.Keys
    {
    }
    NamedAll(firsts, bySlug.Keys, |firsts|);
    assert firsts[..|firsts|] == firsts;
    SplitAccounts(a, |a|);
    assert Places(a)[..|a|] == Places(a);
    assert Places(Skills([])) == [];
  }

  // Sorting what was selected.

  ghost predicate SlugSorted(s: seq<Resolved>) {
    forall i, j :: 0 <= i < j < |s| ==> s[i].skill.name != s[j].skill.name && Leq(s[i].skill.name, s[j].skill.name)
  }

  ghost predicate NamesDistinct(s: seq<Resolved>) {
    forall i, j :: 0 <= i < j < |s| ==> s[i].skill.name != s[j].skill.name
  }

  function SlugIndex(s: seq<Resolved>, x: Resolved, n: nat): (k: nat)
    requires n <= |s|
    ensures k <= n
  {
    if n > 0 && !Leq(s[n - 1].skill.name, x.skill.name) then SlugIndex(s, x, n - 1) else n
  }

  function SlugInserted(s: seq<Resolved>, x: Resolved): seq<Resolved> {
    var k := SlugIndex(s, x, |s|);
    s[..k] + [x] + s[k..]
  }

  lemma {:induction false} SlugIndexIs(s: seq<Resolved>, x: Resolved, n: nat)
    requires n <= |s| && SlugSorted(s) && forall i :: n <= i < |s| ==> Leq(x.skill.name, s[i].skill.name)
    ensures var k := SlugIndex(s, x, n);
            && (forall i :: k <= i < |s| ==> Leq(x.skill.name, s[i].skill.name))
            && (forall i :: 0 <= i < k ==> Leq(s[i].skill.name, x.skill.name))
  {
    if n > 0 {
      LeqIsTotal(s[n - 1].skill.name, x.skill.name);
      if Leq(s[n - 1].skill.name, x.skill.name) {
        forall i | 0 <= i < n
          ensures Leq(s[i].skill.name, x.skill.name)
        {
          if i < n - 1 {
            LeqIsTransitive(s[i].skill.name, s[n - 1].skill.name, x.skill.name);
          }
        }
      } else {
        SlugIndexIs(s, x, n - 1);
      }
    }
  }

  lemma SlugInsertedIsSorted(s: seq<Resolved>, x: Resolved)
    requires SlugSorted(s) && forall i :: 0 <= i < |s| ==> s[i].skill.name != x.skill.name
    ensures SlugSorted(SlugInserted(s, x))
  {
    var k, r := SlugIndex(s, x, |s|), SlugInserted(s, x);
    SlugIndexIs(s, x, |s|);
    forall i, j | 0 <= i < j < |r|
      ensures r[i].skill.name != r[j].skill.name && Leq(r[i].skill.name, r[j].skill.name)
    {
      assert r[i] == if i < k then s[i] else if i == k then x else s[i - 1];
      assert r[j] == if j < k then s[j] else if j == k then x else s[j - 1];
    }
  }

  lemma SlugInsertedHas(s: seq<Resolved>, x: Resolved)
    ensures multiset(SlugInserted(s, x)) == multiset(s) + multiset{x}
  {
    var k := SlugIndex(s, x, |s|);
    assert s == s[..k] + s[k..];
  }

  lemma SlugInsertedPlaces(s: seq<Resolved>, x: Resolved)
    ensures multiset(Places(Skills(SlugInserted(s, x)))) == multiset(Places(Skills(s))) + multiset{x.skill.Place()}
  {
    var k, p := SlugIndex(s, x, |s|), Places(Skills(s));
    assert Places(Skills(SlugInserted(s, x))) == p[..k] + [x.skill.Place()] + p[k..];
    assert p == p[..k] + p[k..];
  }

  function SlugSortedUpTo(selected: seq<Resolved>, n: nat): seq<Resolved>
    requires n <= |selected|
  {
    if n == 0 then [] else SlugInserted(SlugSortedUpTo(selected, n - 1), selected[n - 1])
  }

  lemma {:induction false} SlugSortedHas(selected: seq<Resolved>, n: nat)
    requires n <= |selected|
    ensures multiset(SlugSortedUpTo(selected, n)) == multiset(selected[..n])
  {
    hide SlugInserted;
    if n > 0 {
      SlugSortedHas(selected, n - 1);
      SlugInsertedHas(SlugSortedUpTo(selected, n - 1), selected[n - 1]);
      assert selected[..n] == selected[..n - 1] + [selected[n - 1]];
    }
  }

  lemma {:induction false} SlugSortedPlaces(selected: seq<Resolved>, n: nat)
    requires n <= |selected|
    ensures multiset(Places(Skills(SlugSortedUpTo(selected, n)))) == multiset(Places(Skills(selected))[..n])
  {
    hide SlugInserted;
    if n > 0 {
      SlugSortedPlaces(selected, n - 1);
      SlugInsertedPlaces(SlugSortedUpTo(selected, n - 1), selected[n - 1]);
      TakeMore(Skills(selected), n);
    }
  }

  lemma {:induction false} SlugSortedIsSorted(selected: seq<Resolved>, n: nat)
    requires n <= |selected| && NamesDistinct(selected)
    ensures SlugSorted(SlugSortedUpTo(selected, n))
  {
    hide SlugInserted;
    if n > 0 {
      var r, x := SlugSortedUpTo(selected, n - 1), selected[n - 1];
      SlugSortedIsSorted(selected, n - 1);
      SlugSortedHas(selected, n - 1);
      forall j | 0 <= j < |r|
        ensures r[j].skill.name != x.skill.name
      {
        assert r[j] in multiset(r);
        assert r[j] in selected[..n - 1];
      }
      SlugInsertedIsSorted(r, x);
    }
  }

  /** sort.Slice on the slug. */
  method SortBySlug(selected: seq<Resolved>) returns (r: seq<Resolved>)
    ensures r == SlugSortedUpTo(selected, |selected|)
  {
    r := [];
    for i := 0 to |selected|
      invariant r == SlugSortedUpTo(selected, i)
    {
      r := SlugInserted(r, selected[i]);
    }
  }

  lemma SortedBySlugIs(selected: seq<Resolved>)
    requires NamesDistinct(selected)
    ensures var r := SlugSortedUpTo(selected, |selected|);
            && SlugSorted(r) && multiset(r) == multiset(selected)
            && multiset(Places(Skills(r))) == multiset(Places(Skills(selected)))
  {
    hide SlugSortedUpTo, SlugSorted;
    SlugSortedIsSorted(selected, |selected|);
    SlugSortedHas(selected, |selected|);
    SlugSortedPlaces(selected, |selected|);
    assert selected[..|selected|] == selected;
    assert Places(Skills(selected))[..|selected|] == Places(Skills(selected));
  }

  /** One best candidate for each slug that has one, in order of slug, and nothing else. */
  ghost predicate IsSelection(a: seq<Skill>, env: Env, selected: seq<Resolved>) {
    && SlugSorted(selected)
    && (forall r :: r in selected ==> r.version == "" && Best(a, env, r.skill))
    && (forall x :: Candidate(a, env, x) ==> exists r :: r in selected && r.skill.name == x.name)
  }

  ghost predicate AllAccounted(a: seq<Skill>, selected: seq<Resolved>, rejected: seq<Rejected>) {
    multiset(Places(Skills(selected))) + multiset(RejectedPlaces(rejected)) == multiset(Places(a))
  }

  lemma SelectionIs(a: seq<Skill>, env: Env, selected: seq<Resolved>, sorted: seq<Resolved>, keys: set<string>)
    requires Selects(a, env, selected, keys) && forall x :: x in Firsts(a) ==> x.name in keys
    requires SlugSorted(sorted) && multiset(sorted) == multiset(selected)
    ensures IsSelection(a, env, sorted)
  {
    forall r | r in sorted
      ensures r.version == "" && Best(a, env, r.skill)
    {
      assert r in multiset(sorted);
      assert r in selected;
    }
    forall x | Candidate(a, env, x)
      ensures exists r :: r in sorted && r.skill.name == x.name
    {
      assert Picks(selected, x.name);
      var i :| 0 <= i < |selected| && selected[i].skill.name == x.name;
      assert selected[i] in multiset(selected);
      assert selected[i] in sorted;
    }
  }

  /** No slug has a candidate that ties with the one that is picked. */
  ghost predicate NoTies(a: seq<Skill>, env: Env) {
    forall slug :: TieFree(a, env, slug)
  }

  /**
    Resolving everything: the best eligible candidate of each slug, in order of slug; and each
    available skill ends up selected or rejected, once, if and only if there are no ties, which
    known tiers rule out.
   */
  method Resolve(available: seq<Skill>, env: Env) returns (selected: seq<Resolved>, rejected: seq<Rejected>)
    ensures IsSelection(available, env, selected)
    ensures Precedes(available, env, selected)
    ensures forall q :: q in rejected ==> Justified(available, env, selected, q)
    ensures AllAccounted(available, selected, rejected) <==> NoTies(available, env)
    ensures AllKnown(available) ==> AllAccounted(available, selected, rejected)
  {
    hide SlugSortedUpTo, IsSelection, NoTies, AllAccounted, AllKnown;
    var bySlug, repeats := GroupBySlug(available);
    var picked;
    picked, rejected := PickAll(available, bySlug, repeats, env);
    selected := SortBySlug(picked);
    AllDone(available, env, picked, rejected, bySlug, repeats);
    SelectionPrecedes(available, env, selected);
  }

  lemma AllDone(
    a: seq<Skill>, env: Env, picked: seq<Resolved>, rejected: seq<Rejected>,
    bySlug: map<string, seq<Skill>>, repeats: seq<Rejected>)
    requires Grouped(a, |a|, bySlug, repeats) && Progress(a, env, picked, rejected, bySlug.Keys, {})
    ensures var selected := SlugSortedUpTo(picked, |picked|);
            IsSelection(a, env, selected) && (AllAccounted(a, selected, rejected) <==> NoTies(a, env))
    ensures AllKnown(a) ==> NoTies(a, env)
    ensures forall q :: q in rejected ==> Justified(a, env, SlugSortedUpTo(picked, |picked|), q)
  {
    hide SlugSortedUpTo, IsSelection;
    var selected := SlugSortedUpTo(picked, |picked|);
    assert bySlug.Keys - {} == bySlug.Keys;
    SortedBySlugIs(picked);
    SelectionIs(a, env, picked, selected, bySlug.Keys);
    TieFreeByKeys(a, env, bySlug, repeats);
    AccountedOrShort(a, picked, selected, rejected);
    forall q | q in rejected
      ensures Justified(a, env, selected, q)
    {
      SameMembers(picked, selected);
      JustifiedByMore(a, env, picked, selected, q);
    }
    if AllKnown(a) {
      forall slug
        ensures TieFree(a, env, slug)
      {
        KnownIsTieFree(a, env, slug);
      }
    }
  }

  lemma SameMembers(picked: seq<Resolved>, selected: seq<Resolved>)
    requires multiset(selected) == multiset(picked)
    ensures forall r :: r in picked ==> r in selected
  {
    forall r | r in picked
      ensures r in selected
    {
      assert r in multiset(picked);
      assert r in multiset(selected);
    }
  }

  lemma JustifiedByMore(a: seq<Skill>, env: Env, fewer: seq<Resolved>, more: seq<Resolved>, q: Rejected)
    requires Justified(a, env, fewer, q) && forall r :: r in fewer ==> r in more
    ensures Justified(a, env, more, q)
  {
  }

  /** A slug without candidates has no ties. */
  lemma TieFreeByKeys(a: seq<Skill>, env: Env, bySlug: map<string, seq<Skill>>, repeats: seq<Rejected>)
    requires Grouped(a, |a|, bySlug, repeats)
    ensures AllTieFree(a, env, bySlug.Keys) <==> NoTies(a, env)
  {
    forall slug | slug !in bySlug
      ensures TieFree(a, env, slug)
    {
      SortedGroupHas(a, slug);
      assert forall k :: 0 <= k < |SortedGroup(a, slug)| ==> SortedGroup(a, slug)[k] in SortedGroup(a, slug);
    }
  }

  lemma AccountedOrShort(a: seq<Skill>, picked: seq<Resolved>, selected: seq<Resolved>, rejected: seq<Rejected>)
    requires multiset(Places(Skills(selected))) == multiset(Places(Skills(picked)))
    ensures Accounts(a, picked, rejected, {}) <==> AllAccounted(a, selected, rejected)
    ensures FallsShort(a, picked, rejected, {}) ==> !AllAccounted(a, selected, rejected)
  {
    NamedNoneAtAll(Firsts(a), |Firsts(a)|);
    assert |multiset(Places(Skills(picked)))| == |picked| && |multiset(RejectedPlaces(rejected))| == |rejected|;
    assert |multiset(Places(a))| == |a|;
  }

  lemma {:induction false} NamedNoneAtAll(s: seq<Skill>, n: nat)
    requires n <= |s|
    ensures multiset(Places(NamedUpTo(s, {}, n))) == multiset{}
  {
    if n > 0 {
      NamedNoneAtAll(s, n - 1);
    }
  }

  // The order of the available skills does not matter.

  ghost predicate NoRepeats(a: seq<Skill>) {
    forall i, j :: 0 <= i < j < |a| ==> !SameSlot(a[i], a[j])
  }

  lemma NoRepeatsFirsts(a: seq<Skill>)
    requires NoRepeats(a)
    ensures forall x :: x in Firsts(a) <==> x in a
  {
    FirstsAre(a, |a|);
    forall i | 0 <= i < |a|
      ensures IsFirst(a, i)
    {
    }
  }

  /** Without repeats and with known tiers, a slug has only one best candidate. */
  lemma BestIsUnique(a: seq<Skill>, env: Env, x: Skill, y: Skill)
    requires NoRepeats(a) && AllKnown(a) && Best(a, env, x) && Best(a, env, y) && x.name == y.name
    ensures x == y
  {
    NoRepeatsFirsts(a);
    var i :| 0 <= i < |a| && a[i] == x;
    var j :| 0 <= j < |a| && a[j] == y;
    assert Known(a[i].tier) && Known(a[j].tier);
    assert x.tier == y.tier;
    assert SameSlot(a[i], a[j]) && SameSlot(a[j], a[i]);
  }

  lemma SameCandidates(a: seq<Skill>, b: seq<Skill>, env: Env)
    requires NoRepeats(a) && NoRepeats(b) && multiset(a) == multiset(b)
    ensures forall x :: Candidate(a, env, x) <==> Candidate(b, env, x)
    ensures forall x :: Best(a, env, x) <==> Best(b, env, x)
  {
    NoRepeatsFirsts(a);
    NoRepeatsFirsts(b);
    forall x
      ensures x in a <==> x in b
    {
      assert x in a <==> x in multiset(a);
      assert x in b <==> x in multiset(b);
    }
  }

  lemma SelectionHas(a: seq<Skill>, b: seq<Skill>, env: Env, s: seq<Resolved>, t: seq<Resolved>)
    requires NoRepeats(a) && NoRepeats(b) && AllKnown(a) && multiset(a) == multiset(b)
    requires IsSelection(a, env, s) && IsSelection(b, env, t)
    ensures forall r :: r in s ==> r in t
  {
    SameCandidates(a, b, env);
    forall r | r in s
      ensures r in t
    {
      assert Candidate(b, env, r.skill);
      var q :| q in t && q.skill.name == r.skill.name;
      assert Best(a, env, q.skill);
      BestIsUnique(a, env, r.skill, q.skill);
    }
  }

  lemma EmptyOrNot(s: seq<Resolved>)
    ensures s == [] || exists r :: r in s
  {
    if s != [] {
      assert s[0] in s;
    }
  }

  lemma {:induction false} SortedIsUnique(s: seq<Resolved>, t: seq<Resolved>)
    requires SlugSorted(s) && SlugSorted(t) && forall r :: r in s <==> r in t
    ensures s == t
  {
    EmptyOrNot(s);
    EmptyOrNot(t);
    if s != [] {
      assert s[0] in s && s[0] in t;
      assert t[0] in t && t[0] in s;
      FirstIsLeast(s, t[0]);
      FirstIsLeast(t, s[0]);
      LeqIsAntisymmetric(s[0].skill.name, t[0].skill.name);
      var i :| 0 <= i < |s| && s[i] == t[0];
      assert s[0] == t[0];
      forall r
        ensures r in s[1..] <==> r in t[1..]
      {
        RestHas(s, r);
        RestHas(t, r);
      }
      SortedIsUnique(s[1..], t[1..]);
      assert s == [s[0]] + s[1..] && t == [t[0]] + t[1..];
    }
  }

  lemma FirstIsLeast(s: seq<Resolved>, r: Resolved)
    requires SlugSorted(s) && r in s
    ensures Leq(s[0].skill.name, r.skill.name)
  {
    LeqIsTotal(r.skill.name, r.skill.name);
  }

  lemma RestHas(s: seq<Resolved>, r: Resolved)
    requires |s| > 0 && SlugSorted(s)
    ensures r in s[1..] <==> r in s && r != s[0]
  {
    assert s == [s[0]] + s[1..];
    forall j | 0 < j < |s|
      ensures s[j] != s[0]
    {
      assert s[0].skill.name != s[j].skill.name;
    }
  }

  /** When no tier repeats a slug, the selection is the same for every order of the input. */
  lemma SelectionIgnoresOrder(a: seq<Skill>, b: seq<Skill>, env: Env, s: seq<Resolved>, t: seq<Resolved>)
    requires NoRepeats(a) && NoRepeats(b) && AllKnown(a) && AllKnown(b) && multiset(a) == multiset(b)
    requires IsSelection(a, env, s) && IsSelection(b, env, t)
    ensures s == t
  {
    SelectionHas(a, b, env, s, t);
    SelectionHas(b, a, env, t, s);
    SortedIsUnique(s, t);
  }
}
