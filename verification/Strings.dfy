/**
  Go's strings: strings.Split and strings.Join for a separator that is not empty,
  strings.ReplaceAll for a pattern of one character, and the order of sort.Strings.
 */
module Strings {

  predicate OccursAt(s: string, sep: string, i: nat) {
    i + |sep| <= |s| && s[i..i + |sep|] == sep
  }

  ghost predicate Contains(s: string, sep: string) {
    exists i: nat :: OccursAt(s, sep, i)
  }

  function Split(s: string, sep: string): seq<string>
    requires sep != ""
  {
    SplitFrom(s, sep, 0, 0)
  }

  /** The parts of `s` from `start` on, when no separator begins between `start` and `i`. */
  function SplitFrom(s: string, sep: string, start: nat, i: nat): (parts: seq<string>)
    requires sep != "" && start <= i <= |s|
    ensures parts != []
    decreases |s| - i
  {
    if i + |sep| > |s| then [s[start..]]
    else if OccursAt(s, sep, i) then [s[start..i]] + SplitFrom(s, sep, i + |sep|, i + |sep|)
    else SplitFrom(s, sep, start, i + 1)
  }

  function Joined(parts: seq<string>, sep: string): string {
    JoinedUpTo(parts, sep, |parts|)
  }

  function JoinedUpTo(parts: seq<string>, sep: string, n: nat): string
    requires n <= |parts|
  {
    if n == 0 then ""
    else if n == 1 then parts[0]
    else JoinedUpTo(parts, sep, n - 1) + sep + parts[n - 1]
  }

  lemma {:induction false} JoinedOfCons(part: string, parts: seq<string>, sep: string, n: nat)
    requires 0 < n <= |parts|
    ensures JoinedUpTo([part] + parts, sep, n + 1) == part + sep + JoinedUpTo(parts, sep, n)
  {
    if n > 1 {
      JoinedOfCons(part, parts, sep, n - 1);
      assert part + sep + JoinedUpTo(parts, sep, n - 1) + sep + parts[n - 1]
          == part + sep + (JoinedUpTo(parts, sep, n - 1) + sep + parts[n - 1]);
    }
  }

  lemma ThreeParts(s: string, a: nat, b: nat, c: nat)
    requires a <= b <= c <= |s|
    ensures s[a..] == s[a..b] + s[b..c] + s[c..]
  {
  }

  lemma JoinOfCut(s: string, sep: string, start: nat, i: nat, rest: seq<string>)
    requires start <= i && OccursAt(s, sep, i)
    requires rest != [] && Joined(rest, sep) == s[i + |sep|..]
    ensures Joined([s[start..i]] + rest, sep) == s[start..]
  {
    JoinedOfCons(s[start..i], rest, sep, |rest|);
    ThreeParts(s, start, i, i + |sep|);
  }

  lemma {:induction false} JoinUndoesSplitFrom(s: string, sep: string, start: nat, i: nat)
    requires sep != "" && start <= i <= |s|
    ensures Joined(SplitFrom(s, sep, start, i), sep) == s[start..]
    decreases |s| - i
  {
    if i + |sep| > |s| {
    } else if OccursAt(s, sep, i) {
      JoinUndoesSplitFrom(s, sep, i + |sep|, i + |sep|);
      JoinOfCut(s, sep, start, i, SplitFrom(s, sep, i + |sep|, i + |sep|));
    } else {
      JoinUndoesSplitFrom(s, sep, start, i + 1);
    }
  }

  lemma JoinUndoesSplit(s: string, sep: string)
    requires sep != ""
    ensures Joined(Split(s, sep), sep) == s
  {
    JoinUndoesSplitFrom(s, sep, 0, 0);
    assert s[0..] == s;
  }

  lemma SliceOfSlice(s: string, a: nat, b: nat, c: nat, d: nat)
    requires a <= b <= |s| && c <= d <= b - a
    ensures s[a..b][c..d] == s[a + c..a + d]
  {
    forall k | 0 <= k < d - c
      ensures s[a..b][c..d][k] == s[a + c..a + d][k]
    {
      assert s[a..b][c..d][k] == s[a..b][c + k];
    }
  }

  /** `part` is a stretch of `s` from `start` on. */
  ghost predicate PartOf(s: string, part: string, start: nat) {
    exists a, b :: start <= a <= b <= |s| && part == s[a..b]
  }

  lemma PartHasNone(s: string, sep: string, start: nat, end: nat)
    requires start <= end <= |s|
    requires forall j: nat :: start <= j && j + |sep| <= end ==> !OccursAt(s, sep, j)
    ensures !Contains(s[start..end], sep)
  {
    if i: nat :| OccursAt(s[start..end], sep, i) {
      SliceOfSlice(s, start, end, i, i + |sep|);
      assert OccursAt(s, sep, start + i);
      assert false;
    }
  }

  lemma {:induction false} SplitFromIsClean(s: string, sep: string, start: nat, i: nat)
    requires sep != "" && start <= i <= |s|
    requires forall j: nat :: start <= j < i ==> !OccursAt(s, sep, j)
    ensures forall p :: p in SplitFrom(s, sep, start, i) ==> !Contains(p, sep) && PartOf(s, p, start)
    decreases |s| - i
  {
    if i + |sep| > |s| {
      PartHasNone(s, sep, start, |s|);
      assert s[start..] == s[start..|s|];
    } else if OccursAt(s, sep, i) {
      PartHasNone(s, sep, start, i);
      SplitFromIsClean(s, sep, i + |sep|, i + |sep|);
      assert PartOf(s, s[start..i], start);
    } else {
      SplitFromIsClean(s, sep, start, i + 1);
    }
  }

  /** Each part is a stretch of the string in which the separator does not occur. */
  lemma SplitIsClean(s: string, sep: string)
    requires sep != ""
    ensures forall p :: p in Split(s, sep) ==> !Contains(p, sep) && PartOf(s, p, 0)
  {
    SplitFromIsClean(s, sep, 0, 0);
  }

  lemma PartsContainNoMore(s: string, part: string, other: string)
    requires PartOf(s, part, 0) && Contains(part, other)
    ensures Contains(s, other)
  {
    var a, b :| 0 <= a <= b <= |s| && part == s[a..b];
    var i: nat :| OccursAt(part, other, i);
    SliceOfSlice(s, a, b, i, i + |other|);
    assert OccursAt(s, other, a + i);
  }

  /** Without a separator there is one part. */
  lemma SplitWhole(s: string, sep: string)
    requires sep != "" && !Contains(s, sep)
    ensures Split(s, sep) == [s]
  {
    SplitFromNone(s, sep, 0);
  }

  /** `rest` is what `s` holds from `a` on. */
  ghost predicate IsRest(s: string, rest: string, a: nat) {
    |s| == a + |rest| && forall c, d :: 0 <= c <= d <= |rest| ==> rest[c..d] == s[a + c..a + d]
  }

  lemma RestIs(s: string, a: nat)
    requires a <= |s|
    ensures IsRest(s, s[a..], a)
  {
    assert s[a..] == s[a..|s|];
    forall c, d | 0 <= c <= d <= |s| - a
      ensures s[a..][c..d] == s[a + c..a + d]
    {
      SliceOfSlice(s, a, |s|, c, d);
    }
  }

  lemma TailIs(s: string, rest: string, a: nat, c: nat)
    requires IsRest(s, rest, a) && c <= |rest|
    ensures rest[c..] == s[a + c..]
  {
    assert rest[c..] == rest[c..|rest|] && s[a + c..] == s[a + c..a + |rest|];
  }

  /** What is split from `start` on is what the rest would be split into. */
  lemma {:induction false} SplitFromRest(s: string, rest: string, sep: string, a: nat, start: nat, i: nat)
    requires sep != "" && IsRest(s, rest, a) && start <= i <= |rest|
    ensures SplitFrom(rest, sep, start, i) == SplitFrom(s, sep, a + start, a + i)
    decreases |rest| - i
  {
    if i + |sep| > |rest| {
      TailIs(s, rest, a, start);
    } else {
      assert rest[i..i + |sep|] == s[a + i..a + (i + |sep|)];
      if OccursAt(rest, sep, i) {
        SplitFromRest(s, rest, sep, a, i + |sep|, i + |sep|);
        assert rest[start..i] == s[a + start..a + i];
      } else {
        SplitFromRest(s, rest, sep, a, start, i + 1);
      }
    }
  }

  lemma {:induction false} SplitFromFirst(s: string, sep: string, i: nat, k: nat)
    requires sep != "" && i <= k && OccursAt(s, sep, k) && forall j: nat :: i <= j < k ==> !OccursAt(s, sep, j)
    ensures SplitFrom(s, sep, 0, i) == [s[..k]] + SplitFrom(s, sep, k + |sep|, k + |sep|)
    decreases k - i
  {
    if i < k {
      SplitFromFirst(s, sep, i + 1, k);
    } else {
      assert s[0..k] == s[..k];
    }
  }

  /** Splitting is from the left: up to the first separator, and then what follows it. */
  lemma SplitAtFirst(s: string, sep: string, k: nat)
    requires sep != "" && OccursAt(s, sep, k) && forall j: nat :: j < k ==> !OccursAt(s, sep, j)
    ensures Split(s, sep) == [s[..k]] + Split(s[k + |sep|..], sep)
  {
    SplitFromFirst(s, sep, 0, k);
    RestIs(s, k + |sep|);
    SplitFromRest(s, s[k + |sep|..], sep, k + |sep|, 0, 0);
  }

  lemma {:induction false} SplitFromNone(s: string, sep: string, i: nat)
    requires sep != "" && i <= |s| && !Contains(s, sep)
    ensures SplitFrom(s, sep, 0, i) == [s]
    decreases |s| - i
  {
    if i + |sep| <= |s| {
      SplitFromNone(s, sep, i + 1);
    } else {
      assert s[0..] == s;
    }
  }

  function ReplaceAll(s: string, c: char, w: string): string {
    if s == "" then "" else (if s[0] == c then w else [s[0]]) + ReplaceAll(s[1..], c, w)
  }

  lemma ReplaceChar(c: char, s: string, p: char, w: string)
    ensures ReplaceAll([c] + s, p, w) == (if c == p then w else [c]) + ReplaceAll(s, p, w)
  {
    assert ([c] + s)[1..] == s;
  }

  // Go's order on strings.

  predicate Leq(a: string, b: string) {
    a == "" || (b != "" && (a[0] < b[0] || (a[0] == b[0] && Leq(a[1..], b[1..]))))
  }

  /** The first difference decides, and a string comes before what it begins. */
  ghost predicate Precedes(a: string, b: string) {
    a <= b || exists i: nat :: i < |a| && i < |b| && a[..i] == b[..i] && a[i] < b[i]
  }

  lemma PrecedesUnfolds(a: string, b: string)
    requires a != "" && b != ""
    ensures Precedes(a, b) ==> a[0] < b[0] || (a[0] == b[0] && Precedes(a[1..], b[1..]))
  {
    var a', b' := a[1..], b[1..];
    if Precedes(a, b) && !(a <= b) {
      var i: nat :| i < |a| && i < |b| && a[..i] == b[..i] && a[i] < b[i];
      if i > 0 {
        assert a[..i][0] == b[..i][0];
        assert a'[..i - 1] == a[..i][1..] == b[..i][1..] == b'[..i - 1];
      }
    }
  }

  lemma PrecedesFolds(a: string, b: string)
    requires a != "" && b != ""
    ensures a[0] < b[0] || (a[0] == b[0] && Precedes(a[1..], b[1..])) ==> Precedes(a, b)
  {
    var a', b' := a[1..], b[1..];
    assert a == [a[0]] + a' && b == [b[0]] + b';
    if a[0] < b[0] {
      assert a[..0] == b[..0];
    } else if a[0] == b[0] && Precedes(a', b') && !(a' <= b') {
      var i: nat :| i < |a'| && i < |b'| && a'[..i] == b'[..i] && a'[i] < b'[i];
      assert a[..i + 1] == [a[0]] + a'[..i] && b[..i + 1] == [b[0]] + b'[..i];
      assert a[i + 1] < b[i + 1];
    }
  }

  lemma {:induction false} LeqIsLexical(a: string, b: string)
    ensures Leq(a, b) <==> Precedes(a, b)
  {
    if a != "" && b != "" {
      LeqIsLexical(a[1..], b[1..]);
      PrecedesUnfolds(a, b);
      PrecedesFolds(a, b);
    }
  }

  lemma {:induction false} LeqIsTotal(a: string, b: string)
    ensures Leq(a, b) || Leq(b, a)
  {
    if a != "" && b != "" {
      LeqIsTotal(a[1..], b[1..]);
    }
  }

  lemma {:induction false} LeqIsAntisymmetric(a: string, b: string)
    requires Leq(a, b) && Leq(b, a)
    ensures a == b
  {
    if a != "" && b != "" {
      LeqIsAntisymmetric(a[1..], b[1..]);
      assert a == [a[0]] + a[1..] && b == [b[0]] + b[1..];
    }
  }

  lemma {:induction false} LeqIsTransitive(a: string, b: string, c: string)
    requires Leq(a, b) && Leq(b, c)
    ensures Leq(a, c)
  {
    if a != "" && a[0] == b[0] == c[0] {
      LeqIsTransitive(a[1..], b[1..], c[1..]);
    }
  }
}
