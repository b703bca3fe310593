/** Resolving every available skill (Resolve of go/internal/skills/resolver.go with no request list). */
module SkillResolver {
  import opened SkillPicking

  predicate SameSlot(a: Skill, b: Skill) {
    a.name == b.name && a.tier == b.tier
  }

  /** No earlier skill has the same slug and tier. */
  predicate IsFirst(a: seq<Skill>, i: nat)
    requires i < |a|
  {
    forall j :: 0 <= j < i ==> !SameSlot(a[j], a[i])
  }

  function FirstsUpTo(a: seq<Skill>, n: nat): seq<Skill>
    requires n <= |a|
  {
    if n == 0 then []
    else if IsFirst(a, n - 1) then FirstsUpTo(a, n - 1) + [a[n - 1]]
    else FirstsUpTo(a, n - 1)
  }

  function RepeatsUpTo(a: seq<Skill>, n: nat): seq<Rejected>
    requires n <= |a|
  {
    if n == 0 then []
    else if IsFirst(a, n - 1) then RepeatsUpTo(a, n - 1)
    else RepeatsUpTo(a, n - 1) + [Rejected(a[n - 1].Place(), "", DuplicateInTier)]
  }

  /** The rejection names a skill that comes after another one of its slug and tier. */
  ghost predicate IsRepeat(a: seq<Skill>, q: Rejected) {
    exists i, j :: 0 <= i < j < |a| && a[i].name == a[j].name && a[i].tier == a[j].tier
                   && q == Rejected(a[j].Place(), "", DuplicateInTier)
  }

  lemma {:induction false} RepeatsAre(a: seq<Skill>, n: nat)
    requires n <= |a|
    ensures forall q :: q in RepeatsUpTo(a, n) ==> IsRepeat(a, q)
  {
    if n > 0 {
      RepeatsAre(a, n - 1);
      if !IsFirst(a, n - 1) {
        var j :| 0 <= j < n - 1 && SameSlot(a[j], a[n - 1]);
        assert IsRepeat(a, Rejected(a[n - 1].Place(), "", DuplicateInTier));
      }
    }
  }

  function Firsts(a: seq<Skill>): seq<Skill> {
    FirstsUpTo(a, |a|)
  }

  lemma {:induction false} FirstsAre(a: seq<Skill>, n: nat)
    requires n <= |a|
    ensures forall x :: x in FirstsUpTo(a, n) <==> exists i :: 0 <= i < n && a[i] == x && IsFirst(a, i)
  {
    if n > 0 {
      FirstsAre(a, n - 1);
    }
  }

  lemma {:induction false} FirstsAreDistinct(a: seq<Skill>, n: nat)
    requires n <= |a|
    ensures DistinctSlots(FirstsUpTo(a, n))
  {
    if n > 0 {
      FirstsAreDistinct(a, n - 1);
      FirstsAre(a, n - 1);
      var s := FirstsUpTo(a, n - 1);
      if IsFirst(a, n - 1) {
        forall i | 0 <= i < |s|
          ensures !SameSlot(s[i], a[n - 1])
        {
          assert s[i] in s;
        }
      }
    }
  }

  ghost predicate DistinctSlots(s: seq<Skill>) {
    forall i, j :: 0 <= i < j < |s| ==> !SameSlot(s[i], s[j])
  }

  lemma PlacesThen(s: seq<Skill>, x: Skill)
    ensures multiset(Places(s + [x])) == multiset(Places(s)) + multiset{x.Place()}
  {
    assert Places(s + [x]) == Places(s) + [x.Place()];
  }

  lemma RejectedOneMore(r: seq<Rejected>, x: Rejected)
    ensures multiset(RejectedPlaces(r + [x])) == multiset(RejectedPlaces(r)) + multiset{x.place}
  {
    assert RejectedPlaces(r + [x]) == RejectedPlaces(r) + [x.place];
  }

  lemma AddToEither(a: multiset<Place>, b: multiset<Place>, p: Place)
    ensures (a + multiset{p}) + b == (a + b) + multiset{p} == a + (b + multiset{p})
  {
  }

  lemma RejectedThen(a: seq<Rejected>, b: seq<Rejected>)
    ensures RejectedPlaces(a + b) == RejectedPlaces(a) + RejectedPlaces(b)
  {
  }

  lemma TakeMore(a: seq<Skill>, n: nat)
    requires 0 < n <= |a|
    ensures multiset(Places(a)[..n]) == multiset(Places(a)[..n - 1]) + multiset{a[n - 1].Place()}
  {
    assert Places(a)[..n] == Places(a)[..n - 1] + [a[n - 1].Place()];
  }

  /** Duplicates and firsts account for everything. */
  lemma {:induction false} SplitAccounts(a: seq<Skill>, n: nat)
    requires n <= |a|
    ensures multiset(Places(FirstsUpTo(a, n))) + multiset(RejectedPlaces(RepeatsUpTo(a, n))) == multiset(Places(a)[..n])
  {
    if n > 0 {
      SplitAccounts(a, n - 1);
      TakeMore(a, n);
      var firsts, repeats := FirstsUpTo(a, n - 1), RepeatsUpTo(a, n - 1);
      AddToEither(multiset(Places(firsts)), multiset(RejectedPlaces(repeats)), a[n - 1].Place());
      PlacesThen(firsts, a[n - 1]);
      RejectedOneMore(repeats, Rejected(a[n - 1].Place(), "", DuplicateInTier));
    }
  }

  /** Those of the first `n` whose slug is one of `slugs`, in order. */
  function NamedUpTo(s: seq<Skill>, slugs: set<string>, n: nat): seq<Skill>
    requires n <= |s|
  {
    if n == 0 then []
    else if s[n - 1].name in slugs then NamedUpTo(s, slugs, n - 1) + [s[n - 1]]
    else NamedUpTo(s, slugs, n - 1)
  }

  function Named(s: seq<Skill>, slugs: set<string>): seq<Skill> {
    NamedUpTo(s, slugs, |s|)
  }

  lemma {:induction false} NamedAre(s: seq<Skill>, slugs: set<string>, n: nat)
    requires n <= |s|
    ensures forall x :: x in NamedUpTo(s, slugs, n) <==> exists i :: 0 <= i < n && s[i] == x && x.name in slugs
  {
    if n > 0 {
      NamedAre(s, slugs, n - 1);
    }
  }

  lemma {:induction false} NamedIsDistinct(s: seq<Skill>, slugs: set<string>, n: nat)
    requires n <= |s| && DistinctSlots(s)
    ensures DistinctSlots(NamedUpTo(s, slugs, n))
  {
    if n > 0 {
      NamedIsDistinct(s, slugs, n - 1);
      NamedAre(s, slugs, n - 1);
    }
  }

  lemma {:induction false} NamedSplits(s: seq<Skill>, slugs: set<string>, slug: string, n: nat)
    requires n <= |s| && slug in slugs
    ensures multiset(Places(NamedUpTo(s, slugs, n)))
         == multiset(Places(NamedUpTo(s, {slug}, n))) + multiset(Places(NamedUpTo(s, slugs - {slug}, n)))
  {
    if n > 0 {
      NamedSplits(s, slugs, slug, n - 1);
      var all, one := NamedUpTo(s, slugs, n - 1), NamedUpTo(s, {slug}, n - 1);
      var rest := NamedUpTo(s, slugs - {slug}, n - 1);
      AddToEither(multiset(Places(one)), multiset(Places(rest)), s[n - 1].Place());
      PlacesThen(all, s[n - 1]);
      PlacesThen(one, s[n - 1]);
      PlacesThen(rest, s[n - 1]);
    }
  }

  lemma {:induction false} NamedAll(s: seq<Skill>, slugs: set<string>, n: nat)
    requires n <= |s| && forall x :: x in s ==> x.name in slugs
    ensures NamedUpTo(s, slugs, n) == s[..n]
  {
    if n > 0 {
      NamedAll(s, slugs, n - 1);
      assert s[n - 1] in s;
    }
  }

  lemma {:induction false} NamedLocal(a: seq<Skill>, longer: seq<Skill>, slugs: set<string>, n: nat)
    requires n <= |a| && a <= longer
    ensures NamedUpTo(longer, slugs, n) == NamedUpTo(a, slugs, n)
  {
    if n > 0 {
      NamedLocal(a, longer, slugs, n - 1);
      assert longer[n - 1] == a[n - 1];
    }
  }

  lemma NamedThen(s: seq<Skill>, x: Skill, slug: string)
    ensures Named(s + [x], {slug}) == Named(s, {slug}) + if x.name == slug then [x] else []
  {
    NamedLocal(s, s + [x], {slug}, |s|);
  }

  // Sorting a group by rank.

  function RankIndex(r: seq<Skill>, x: Skill, n: nat): (k: nat)
    requires n <= |r|
    ensures k <= n
  {
    if n > 0 && Rank(r[n - 1].tier) > Rank(x.tier) then RankIndex(r, x, n - 1) else n
  }

  function Inserted(r: seq<Skill>, x: Skill): seq<Skill> {
    var k := RankIndex(r, x, |r|);
    r[..k] + [x] + r[k..]
  }

  function SortedUpTo(group: seq<Skill>, n: nat): seq<Skill>
    requires n <= |group|
  {
    if n == 0 then [] else Inserted(SortedUpTo(group, n - 1), group[n - 1])
  }

  ghost predicate DistinctTiers(s: seq<Skill>) {
    forall i, j :: 0 <= i < j < |s| ==> s[i].tier != s[j].tier
  }

  lemma {:induction false} RankIndexIs(r: seq<Skill>, x: Skill, n: nat)
    requires n <= |r| && RankSorted(r) && forall i :: n <= i < |r| ==> Rank(r[i].tier) > Rank(x.tier)
    ensures var k := RankIndex(r, x, n);
            && (forall i :: k <= i < |r| ==> Rank(r[i].tier) > Rank(x.tier))
            && (forall i :: 0 <= i < k ==> Rank(r[i].tier) <= Rank(x.tier))
  {
    if n > 0 && Rank(r[n - 1].tier) > Rank(x.tier) {
      RankIndexIs(r, x, n - 1);
    }
  }

  lemma InsertedIsSorted(r: seq<Skill>, x: Skill)
    requires RankSorted(r)
    ensures RankSorted(Inserted(r, x))
  {
    var k, s := RankIndex(r, x, |r|), Inserted(r, x);
    RankIndexIs(r, x, |r|);
    forall i, j | 0 <= i < j < |s|
      ensures Rank(s[i].tier) <= Rank(s[j].tier)
    {
      assert s[i] == if i < k then r[i] else if i == k then x else r[i - 1];
      assert s[j] == if j < k then r[j] else if j == k then x else r[j - 1];
    }
  }

  lemma InsertedHas(r: seq<Skill>, x: Skill)
    ensures forall y :: y in Inserted(r, x) <==> y in r || y == x
  {
    var k := RankIndex(r, x, |r|);
    assert r == r[..k] + r[k..];
  }

  lemma InsertedPlaces(r: seq<Skill>, x: Skill)
    ensures multiset(Places(Inserted(r, x))) == multiset(Places(r)) + multiset{x.Place()}
  {
    var k, p := RankIndex(r, x, |r|), Places(r);
    assert Places(Inserted(r, x)) == p[..k] + [x.Place()] + p[k..];
    assert p == p[..k] + p[k..];
  }

  lemma InsertedStaysDistinct(r: seq<Skill>, x: Skill)
    requires DistinctTiers(r) && forall y :: y in r ==> y.tier != x.tier
    ensures DistinctTiers(Inserted(r, x))
  {
    var k, s := RankIndex(r, x, |r|), Inserted(r, x);
    assert forall i :: 0 <= i < |s| ==> s[i] == if i < k then r[i] else if i == k then x else r[i - 1];
  }

  lemma {:induction false} SortedIsSorted(group: seq<Skill>, n: nat)
    requires n <= |group|
    ensures RankSorted(SortedUpTo(group, n))
  {
    if n > 0 {
      SortedIsSorted(group, n - 1);
      InsertedIsSorted(SortedUpTo(group, n - 1), group[n - 1]);
    }
  }

  lemma {:induction false} SortedHas(group: seq<Skill>, n: nat)
    requires n <= |group|
    ensures forall y :: y in SortedUpTo(group, n) <==> y in group[..n]
  {
    if n > 0 {
      SortedHas(group, n - 1);
      InsertedHas(SortedUpTo(group, n - 1), group[n - 1]);
      assert group[..n] == group[..n - 1] + [group[n - 1]];
    }
  }

  lemma {:induction false} SortedPlaces(group: seq<Skill>, n: nat)
    requires n <= |group|
    ensures multiset(Places(SortedUpTo(group, n))) == multiset(Places(group)[..n])
  {
    if n > 0 {
      SortedPlaces(group, n - 1);
      InsertedPlaces(SortedUpTo(group, n - 1), group[n - 1]);
      TakeMore(group, n);
    }
  }

  lemma {:induction false} SortedStaysDistinct(group: seq<Skill>, n: nat)
    requires n <= |group| && DistinctTiers(group)
    ensures DistinctTiers(SortedUpTo(group, n))
  {
    if n > 0 {
      SortedStaysDistinct(group, n - 1);
      SortedHas(group, n - 1);
      InsertedStaysDistinct(SortedUpTo(group, n - 1), group[n - 1]);
    }
  }

  predicate Known(t: Tier) {
    !t.Unlisted?
  }

  ghost predicate AllKnown(s: seq<Skill>) {
    forall i :: 0 <= i < |s| ==> Known(s[i].tier)
  }

  /** With known tiers, a group with one skill a tier has no ties. */
  lemma KnownRanksAlone(group: seq<Skill>, k: nat)
    requires k < |group| && RankSorted(group) && DistinctTiers(group) && AllKnown(group)
    ensures RanksAlone(group, k)
  {
    forall j | k < j < |group|
      ensures Rank(group[j].tier) > Rank(group[k].tier)
    {
      assert group[j].tier != group[k].tier;
    }
  }
}
