/**
  The packing pass is greedy, and greedy is optimal (splitWithSeparator of
  go/adapters/telegram/parser.go and go/adapters/zalo/parser.go).
 */
module GreedyPacking {
  import opened Strings
  import opened Chunking

  /** Length of parts `a` to `b` (exclusive) joined with separators. */
  function Width(parts: seq<string>, sep: string, a: nat, b: nat): nat
    requires a < b <= |parts|
  {
    if b == a + 1 then |parts[a]| else Width(parts, sep, a, b - 1) + |sep| + |parts[b - 1]|
  }

  lemma {:induction false} WidthShrinks(parts: seq<string>, sep: string, a: nat, a': nat, b: nat)
    requires a <= a' < b <= |parts|
    ensures Width(parts, sep, a', b) <= Width(parts, sep, a, b)
  {
    if a' < b - 1 {
      WidthShrinks(parts, sep, a, a', b - 1);
    }
  }

  lemma {:induction false} WidthGrows(parts: seq<string>, sep: string, a: nat, b: nat, b': nat)
    requires a < b <= b' <= |parts|
    ensures Width(parts, sep, a, b) <= Width(parts, sep, a, b')
  {
    if b < b' {
      WidthGrows(parts, sep, a, b, b' - 1);
    }
  }

  /**
    Where the latest chunk began among the first `n` parts: the one being filled, or, when the
    buffer is empty, the one finished last.
   */
  function StartUpTo(parts: seq<string>, limit: int, sep: string, n: nat): (s: nat)
    requires n <= |parts|
    ensures s <= n
  {
    if n == 0 then 0
    else
      if Begins(PackUpTo(parts, limit, sep, n - 1), parts[n - 1], limit, sep) then n - 1
      else StartUpTo(parts, limit, sep, n - 1)
  }

  function Count(p: Packing): nat {
    |p.All()|
  }

  /** The latest chunk's extent; once it is finished for an empty part, it was full. */
  ghost predicate Tracks(parts: seq<string>, limit: int, sep: string, p: Packing, s: nat, n: nat)
    requires n <= |parts|
  {
    && (p.buf != "" ==> s < n && |p.buf| == Width(parts, sep, s, n))
    && (p.buf == "" && p.out != [] ==> s < n && Width(parts, sep, s, n) > limit)
  }

  lemma {:induction false} AlwaysTracks(parts: seq<string>, limit: int, sep: string, n: nat)
    requires n <= |parts| && sep != "" && limit >= 0
    ensures Tracks(parts, limit, sep, PackUpTo(parts, limit, sep, n), StartUpTo(parts, limit, sep, n), n)
  {
    if n > 0 {
      AlwaysTracks(parts, limit, sep, n - 1);
    }
  }

  /** A way to group the first `n` parts: where each group starts. Every group joined fits. */
  ghost predicate Grouping(parts: seq<string>, limit: int, sep: string, starts: seq<nat>, n: nat) {
    && n <= |parts|
    && (n > 0 ==> |starts| > 0 && starts[0] == 0)
    && (forall i :: 0 <= i < |starts| ==> GroupFits(parts, limit, sep, starts, n, i))
  }

  ghost predicate GroupFits(parts: seq<string>, limit: int, sep: string, starts: seq<nat>, n: nat, i: nat)
    requires i < |starts| && n <= |parts|
  {
    var end := if i + 1 < |starts| then starts[i + 1] else n;
    starts[i] < end <= n && Width(parts, sep, starts[i], end) <= limit
  }

  /** Without its last part a grouping still groups: the last group shrinks, or goes. */
  lemma Truncate(parts: seq<string>, limit: int, sep: string, starts: seq<nat>, n: nat) returns (shorter: seq<nat>)
    requires n > 0 && Grouping(parts, limit, sep, starts, n)
    ensures Grouping(parts, limit, sep, shorter, n - 1)
    ensures var last := starts[|starts| - 1];
            shorter == if last == n - 1 then starts[..|starts| - 1] else starts
  {
    var k := |starts| - 1;
    assert GroupFits(parts, limit, sep, starts, n, k);
    shorter := if starts[k] == n - 1 then starts[..k] else starts;
    var m := n - 1;
    forall i {:trigger GroupFits(parts, limit, sep, shorter, m, i)} | 0 <= i < |shorter|
      ensures GroupFits(parts, limit, sep, shorter, m, i)
    {
      assert GroupFits(parts, limit, sep, starts, n, i);
      if i == k {
        WidthGrows(parts, sep, starts[k], n - 1, n);
      } else {
        assert GroupFits(parts, limit, sep, starts, n, i + 1);
      }
    }
  }

  /** Greedy stays ahead: fewer chunks than groups, or as many and the last one begins no earlier. */
  ghost predicate Ahead(p: Packing, s: nat, starts: seq<nat>) {
    Count(p) < |starts| || (Count(p) == |starts| && (Count(p) > 0 ==> starts[Count(p) - 1] <= s))
  }

  /** A part that is not empty and does not join the buffer begins a chunk. */
  predicate Begins(p: Packing, part: string, limit: int, sep: string) {
    part != "" && (p.buf == "" || !Fits(p, part, limit, sep))
  }

  lemma CountSteps(p: Packing, part: string, limit: int, sep: string)
    requires sep != ""
    ensures Count(Packed(p, part, limit, sep)) == Count(p) + if Begins(p, part, limit, sep) then 1 else 0
  {
  }

  lemma StepAhead(
    parts: seq<string>, limit: int, sep: string, p: Packing, s: nat, starts: seq<nat>, shorter: seq<nat>, n: nat)
    requires sep != "" && n < |parts| && Grouping(parts, limit, sep, starts, n + 1)
    requires shorter == if starts[|starts| - 1] == n then starts[..|starts| - 1] else starts
    requires s <= n && Ahead(p, s, shorter) && Tracks(parts, limit, sep, p, s, n)
    ensures Ahead(Packed(p, parts[n], limit, sep), if Begins(p, parts[n], limit, sep) then n else s, starts)
  {
    var last := starts[|starts| - 1];
    CountSteps(p, parts[n], limit, sep);
    assert GroupFits(parts, limit, sep, starts, n + 1, |starts| - 1);
    if last < n && Count(p) == |starts| {
      WidthShrinks(parts, sep, last, s, n + 1);
      WidthGrows(parts, sep, s, n, n + 1);
    }
  }

  lemma {:induction false} StaysAhead(parts: seq<string>, limit: int, sep: string, starts: seq<nat>, n: nat)
    requires sep != "" && limit >= 0 && Grouping(parts, limit, sep, starts, n)
    ensures Ahead(PackUpTo(parts, limit, sep, n), StartUpTo(parts, limit, sep, n), starts)
  {
    if n > 0 {
      var shorter := Truncate(parts, limit, sep, starts, n);
      StaysAhead(parts, limit, sep, shorter, n - 1);
      AlwaysTracks(parts, limit, sep, n - 1);
      StepAhead(parts, limit, sep, PackUpTo(parts, limit, sep, n - 1), StartUpTo(parts, limit, sep, n - 1),
                starts, shorter, n - 1);
    }
  }

  /**
    No way of grouping consecutive parts, each group fitting when joined, makes do with fewer
    groups than the pass makes chunks.
   */
  lemma GreedyIsOptimal(text: string, limit: int, sep: string, starts: seq<nat>)
    requires sep != "" && limit >= 0 && Grouping(Split(text, sep), limit, sep, starts, |Split(text, sep)|)
    ensures |SplitWith(text, limit, sep)| <= |starts|
  {
    StaysAhead(Split(text, sep), limit, sep, starts, |Split(text, sep)|);
  }

  function JoinedRange(parts: seq<string>, sep: string, a: nat, b: nat): (s: string)
    requires a < b <= |parts|
    ensures |s| == Width(parts, sep, a, b)
  {
    if b == a + 1 then parts[a] else JoinedRange(parts, sep, a, b - 1) + sep + parts[b - 1]
  }

  /** Where the pass itself begins its chunks. */
  function StartsUpTo(parts: seq<string>, limit: int, sep: string, n: nat): seq<nat>
    requires n <= |parts|
  {
    if n == 0 then []
    else
      StartsUpTo(parts, limit, sep, n - 1)
      + if Begins(PackUpTo(parts, limit, sep, n - 1), parts[n - 1], limit, sep) then [n - 1] else []
  }

  /** Chunk `i` is group `i`, joined. */
  ghost predicate ChunkIs(parts: seq<string>, sep: string, starts: seq<nat>, chunks: seq<string>, n: nat, i: nat)
    requires i < |starts| == |chunks| && n <= |parts|
  {
    var end := if i + 1 < |starts| then starts[i + 1] else n;
    starts[i] < end <= n && chunks[i] == JoinedRange(parts, sep, starts[i], end)
  }

  ghost predicate ChunksAreGroups(parts: seq<string>, limit: int, sep: string, p: Packing, starts: seq<nat>, n: nat)
    requires n <= |parts|
  {
    && |starts| == |p.All()| && (if n > 0 then p.buf != "" && |starts| > 0 && starts[0] == 0 else p == Packing([], ""))
    && (forall i :: 0 <= i < |starts| ==> ChunkIs(parts, sep, starts, p.All(), n, i))
    && (forall c :: c in p.All() ==> |c| <= limit)
  }

  lemma StepGroups(parts: seq<string>, limit: int, sep: string, p: Packing, starts: seq<nat>, n: nat)
    requires sep != "" && n < |parts| && 0 < |parts[n]| <= limit && ChunksAreGroups(parts, limit, sep, p, starts, n)
    ensures ChunksAreGroups(parts, limit, sep, Packed(p, parts[n], limit, sep),
                            starts + if Begins(p, parts[n], limit, sep) then [n] else [], n + 1)
  {
    var p', m := Packed(p, parts[n], limit, sep), n + 1;
    var starts' := starts + if Begins(p, parts[n], limit, sep) then [n] else [];
    var all, all' := p.All(), p'.All();
    assert |starts'| == |all'|;
    forall i {:trigger ChunkIs(parts, sep, starts', all', m, i)} | 0 <= i < |starts'|
      ensures ChunkIs(parts, sep, starts', all', m, i)
    {
      if i < |starts| {
        assert ChunkIs(parts, sep, starts, all, n, i);
      }
    }
  }

  lemma {:induction false} GreedyGroups(parts: seq<string>, limit: int, sep: string, n: nat)
    requires sep != "" && n <= |parts|
    requires forall i :: 0 <= i < |parts| ==> 0 < |parts[i]| <= limit
    ensures ChunksAreGroups(parts, limit, sep, PackUpTo(parts, limit, sep, n), StartsUpTo(parts, limit, sep, n), n)
  {
    if n > 0 {
      GreedyGroups(parts, limit, sep, n - 1);
      StepGroups(parts, limit, sep, PackUpTo(parts, limit, sep, n - 1), StartsUpTo(parts, limit, sep, n - 1), n - 1);
    }
  }

  /**
    When no part is empty or too long, the chunks are themselves such a grouping; so no grouping
    has fewer groups, and the pass attains the least number.
   */
  lemma GreedyIsAGrouping(text: string, limit: int, sep: string) returns (starts: seq<nat>)
    requires sep != "" && forall i :: 0 <= i < |Split(text, sep)| ==> 0 < |Split(text, sep)[i]| <= limit
    ensures var parts, chunks := Split(text, sep), SplitWith(text, limit, sep);
            && Grouping(parts, limit, sep, starts, |parts|) && |starts| == |chunks|
            && forall i :: 0 <= i < |chunks| ==> ChunkIs(parts, sep, starts, chunks, |parts|, i)
  {
    var parts := Split(text, sep);
    GreedyGroups(parts, limit, sep, |parts|);
    starts := StartsUpTo(parts, limit, sep, |parts|);
    var chunks := SplitWith(text, limit, sep);
    forall i | 0 <= i < |starts|
      ensures GroupFits(parts, limit, sep, starts, |parts|, i)
    {
      assert ChunkIs(parts, sep, starts, chunks, |parts|, i);
      assert chunks[i] in chunks;
    }
  }

  predicate TooWide(chunks: seq<string>, limit: int, sep: string, i: nat)
    requires i + 1 < |chunks|
  {
    |chunks[i]| + |sep| + |chunks[i + 1]| > limit
  }

  /** Two neighbours never fit together; nor does a finished chunk with the empty part after it. */
  ghost predicate Overflows(p: Packing, limit: int, sep: string) {
    && (forall i :: 0 <= i < |p.All()| - 1 ==> TooWide(p.All(), limit, sep, i))
    && (p.buf == "" && p.out != [] ==> |p.out[|p.out| - 1]| + |sep| > limit)
  }

  lemma PackedOverflows(p: Packing, part: string, limit: int, sep: string)
    requires limit >= 0 && Overflows(p, limit, sep)
    ensures Overflows(Packed(p, part, limit, sep), limit, sep)
  {
    var all, all' := p.All(), Packed(p, part, limit, sep).All();
    forall i {:trigger TooWide(all', limit, sep, i)} | 0 <= i < |all'| - 1
      ensures TooWide(all', limit, sep, i)
    {
      assert i < |all| - 1 ==> TooWide(all, limit, sep, i);
    }
  }

  lemma {:induction false} AlwaysOverflows(parts: seq<string>, limit: int, sep: string, n: nat)
    requires n <= |parts| && limit >= 0
    ensures Overflows(PackUpTo(parts, limit, sep, n), limit, sep)
  {
    if n > 0 {
      AlwaysOverflows(parts, limit, sep, n - 1);
      PackedOverflows(PackUpTo(parts, limit, sep, n - 1), parts[n - 1], limit, sep);
    }
  }

  lemma ConsecutiveChunksOverflow(text: string, limit: int, sep: string)
    requires sep != "" && limit >= 0
    ensures var chunks := SplitWith(text, limit, sep);
            forall i :: 0 <= i < |chunks| - 1 ==> TooWide(chunks, limit, sep, i)
  {
    AlwaysOverflows(Split(text, sep), limit, sep, |Split(text, sep)|);
  }
}
