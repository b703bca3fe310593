/**
  Where chunking prefers to cut: between paragraphs; only inside a paragraph that is too long
  between lines; only inside such a line after sentences; and anywhere only where nothing else is
  left (go/adapters/telegram/parser.go, go/adapters/zalo/parser.go).
 */
module Preference {
  import opened Wrappers
  import opened Strings
  import opened Chunking
  import opened GreedyPacking
  import opened Lossless

  /**
    A text cut at one separator: each piece fits, or is a single part of the text, and no two
    neighbours would have fitted together.
   */
  ghost predicate IsPass(t: seq<Token>, text: string, limit: int, sep: string) {
    && sep != "" && Lossless.Text(t) == text && Apart(t)
    && (forall x :: x in t && x.Sep? ==> x.s == sep)
    && (forall x :: x in t && x.Piece? ==> x.s != "" && (|x.s| <= limit || x.s in Split(text, sep)))
    && (forall i :: 0 <= i < |Pieces(t)| - 1 ==> TooWide(Pieces(t), limit, sep, i))
  }

  /** The text is cut at the first separator, and only a piece that is too long is cut at the others. */
  ghost predicate CutByPreference(seps: seq<string>, text: string, limit: int, chunks: seq<string>)
    requires limit > 0
    decreases |seps|, 1
  {
    if |seps| == 0 then ChunksOfPiece(text, limit, chunks)
    else
      exists t: seq<Token>, blocks: seq<seq<string>> ::
        && IsPass(t, text, limit, seps[0]) && |blocks| == |t| && chunks == Flat(blocks, |t|)
        && forall i :: 0 <= i < |t| ==> IsBlock(seps, t[i], limit, blocks[i])
  }

  /** A separator is dropped, a piece that fits is a chunk. */
  ghost predicate IsBlock(seps: seq<string>, x: Token, limit: int, block: seq<string>)
    requires limit > 0 && |seps| > 0
    decreases |seps|, 0
  {
    if x.Sep? then block == []
    else if |x.s| <= limit then block == [x.s]
    else CutByPreference(seps[1..], x.s, limit, block)
  }

  // ----- one pass ------------------------------------------------------------------------

  lemma {:induction false} CutHasOneSep(parts: seq<string>, limit: int, sep: string, n: nat)
    requires 0 < n <= |parts|
    ensures forall x :: x in CutUpTo(parts, limit, sep, n) ==> if x.Sep? then x.s == sep else x.s != ""
  {
    if n > 1 {
      CutHasOneSep(parts, limit, sep, n - 1);
    }
  }

  lemma CutIsAPass(text: string, limit: int, sep: string)
    requires sep != "" && limit > 0
    ensures IsPass(Cut(text, limit, sep), text, limit, sep)
    ensures Pieces(Cut(text, limit, sep)) == SplitWith(text, limit, sep)
  {
    var parts := Split(text, sep);
    CutIsPass(text, limit, sep);
    CutStaysApart(text, limit, sep);
    CutHasOneSep(parts, limit, sep, |parts|);
    CutIsAtomic(parts, limit, sep, |parts|);
    ConsecutiveChunksOverflow(text, limit, sep);
  }

  // ----- pass after pass -------------------------------------------------------------------

  /** Refining by one separator after the other, and slicing at last. */
  function RefinedBy(chunks: seq<string>, limit: int, seps: seq<string>): seq<string>
    requires limit > 0
    decreases |seps|
  {
    if |seps| == 0 then Refined(chunks, limit, "") else RefinedBy(Refined(chunks, limit, seps[0]), limit, seps[1..])
  }

  lemma RefinedUnfolds(chunks: seq<string>, limit: int, sep: string, n: nat)
    requires limit > 0 && 0 < n <= |chunks|
    ensures RefinedUpTo(chunks, limit, sep, n)
         == RefinedUpTo(chunks, limit, sep, n - 1) + RefinedOne(chunks[n - 1], limit, sep)
  {
  }

  lemma JoinStep(x: seq<string>, x': seq<string>, a: seq<string>, b: seq<string>, b': seq<string>, more: seq<string>)
    requires x == a + b && x' == x + more && b' == b + more
    ensures x' == a + b'
  {
    Reassociate(a, b, more);
  }

  lemma {:induction false} RefinedUpToOfJoin(a: seq<string>, b: seq<string>, limit: int, sep: string, n: nat)
    requires limit > 0 && n <= |b|
    ensures RefinedUpTo(a + b, limit, sep, |a| + n) == RefinedUpTo(a, limit, sep, |a|) + RefinedUpTo(b, limit, sep, n)
  {
    hide RefinedOne;
    if n == 0 {
      RefinedLocal(a, a + b, limit, sep, |a|);
      assert RefinedUpTo(b, limit, sep, 0) == [];
    } else {
      var all, m := a + b, |a| + n;
      RefinedUpToOfJoin(a, b, limit, sep, n - 1);
      RefinedUnfolds(all, limit, sep, m);
      RefinedUnfolds(b, limit, sep, n);
      assert all[m - 1] == b[n - 1];
      hide RefinedUpTo;
      JoinStep(RefinedUpTo(all, limit, sep, m - 1), RefinedUpTo(all, limit, sep, m), RefinedUpTo(a, limit, sep, |a|),
               RefinedUpTo(b, limit, sep, n - 1), RefinedUpTo(b, limit, sep, n), RefinedOne(b[n - 1], limit, sep));
    }
  }

  lemma {:induction false} RefinedLocal(a: seq<string>, longer: seq<string>, limit: int, sep: string, n: nat)
    requires limit > 0 && n <= |a| && a <= longer
    ensures RefinedUpTo(longer, limit, sep, n) == RefinedUpTo(a, limit, sep, n)
  {
    if n > 0 {
      RefinedLocal(a, longer, limit, sep, n - 1);
      assert longer[n - 1] == a[n - 1];
    }
  }

  lemma {:induction false} RefinedByOfJoin(a: seq<string>, b: seq<string>, limit: int, seps: seq<string>)
    requires limit > 0
    ensures RefinedBy(a + b, limit, seps) == RefinedBy(a, limit, seps) + RefinedBy(b, limit, seps)
    decreases |seps|
  {
    hide RefinedUpTo;
    if |seps| == 0 {
      RefinedOfJoin(a, b, limit, "");
    } else {
      RefinedOfJoin(a, b, limit, seps[0]);
      RefinedByOfJoin(Refined(a, limit, seps[0]), Refined(b, limit, seps[0]), limit, seps[1..]);
    }
  }

  lemma RefinedOfJoin(a: seq<string>, b: seq<string>, limit: int, sep: string)
    requires limit > 0
    ensures Refined(a + b, limit, sep) == Refined(a, limit, sep) + Refined(b, limit, sep)
  {
    RefinedUpToOfJoin(a, b, limit, sep, |b|);
  }

  lemma {:induction false} RefinedByEach(
    f: string -> seq<string>, chunks: seq<string>, limit: int, seps: seq<string>, n: nat)
    requires limit > 0 && n <= |chunks| && forall c :: f(c) == RefinedBy([c], limit, seps)
    ensures RefinedBy(chunks[..n], limit, seps) == Mapped(f, chunks, n)
  {
    hide RefinedBy;
    if n == 0 {
      RefinedByNothing(limit, seps);
      assert chunks[..0] == [];
    } else {
      RefinedByEach(f, chunks, limit, seps, n - 1);
      assert chunks[..n] == chunks[..n - 1] + [chunks[n - 1]];
      RefinedByOfJoin(chunks[..n - 1], [chunks[n - 1]], limit, seps);
    }
  }

  lemma {:induction false} RefinedByNothing(limit: int, seps: seq<string>)
    requires limit > 0
    ensures RefinedBy([], limit, seps) == []
    decreases |seps|
  {
    if |seps| > 0 {
      RefinedByNothing(limit, seps[1..]);
    }
  }

  lemma RefinedSingle(c: string, limit: int, sep: string)
    requires limit > 0
    ensures Refined([c], limit, sep) == RefinedOne(c, limit, sep)
  {
    assert RefinedUpTo([c], limit, sep, 0) == [];
  }

  lemma {:induction false} FittingStays(c: string, limit: int, seps: seq<string>)
    requires 0 < limit && |c| <= limit
    ensures RefinedBy([c], limit, seps) == [c]
    decreases |seps|
  {
    if |seps| == 0 {
      RefinedSingle(c, limit, "");
    } else {
      RefinedSingle(c, limit, seps[0]);
      FittingStays(c, limit, seps[1..]);
    }
  }

  /** What each token becomes in the passes that follow. */
  function BlocksOf(t: seq<Token>, limit: int, seps: seq<string>): (r: seq<seq<string>>)
    requires limit > 0
    ensures |r| == |t|
    ensures forall i :: 0 <= i < |t| ==> r[i] == if t[i].Sep? then [] else RefinedBy([t[i].s], limit, seps)
  {
    seq(|t|, i requires 0 <= i < |t| => if t[i].Sep? then [] else RefinedBy([t[i].s], limit, seps))
  }

  lemma BlocksAreFlat(t: seq<Token>, limit: int, seps: seq<string>)
    requires limit > 0
    ensures Flat(BlocksOf(t, limit, seps), |t|) == RefinedBy(Pieces(t), limit, seps)
  {
    var f := (c: string) => RefinedBy([c], limit, seps);
    RefinedByEach(f, Pieces(t), limit, seps, |Pieces(t)|);
    assert Pieces(t)[..|Pieces(t)|] == Pieces(t);
    FlatMapped(t, BlocksOf(t, limit, seps), f, |t|);
  }

  lemma MakesCut(seps: seq<string>, text: string, limit: int, t: seq<Token>, blocks: seq<seq<string>>)
    requires limit > 0 && |seps| > 0 && IsPass(t, text, limit, seps[0]) && |blocks| == |t|
    requires forall i :: 0 <= i < |t| ==> IsBlock(seps, t[i], limit, blocks[i])
    ensures CutByPreference(seps, text, limit, Flat(blocks, |t|))
  {
  }

  lemma {:induction false} RefiningPrefers(text: string, limit: int, seps: seq<string>)
    requires 0 < limit < |text| && forall i :: 0 <= i < |seps| ==> seps[i] != ""
    ensures CutByPreference(seps, text, limit, RefinedBy([text], limit, seps))
    decreases |seps|
  {
    if |seps| == 0 {
      RefinedSingle(text, limit, "");
      PieceBecomesChunks(text, limit);
    } else {
      hide IsPass, Cut, SplitWith, Refined, ChunksOfPiece, Flat, CutByPreference;
      var sep, rest := seps[0], seps[1..];
      var t := Cut(text, limit, sep);
      var blocks := BlocksOf(t, limit, rest);
      CutIsAPass(text, limit, sep);
      RefinedSingle(text, limit, sep);
      BlocksAreFlat(t, limit, rest);
      forall i | 0 <= i < |t|
        ensures IsBlock(seps, t[i], limit, blocks[i])
      {
        if t[i].Piece? && |t[i].s| <= limit {
          FittingStays(t[i].s, limit, rest);
        } else if t[i].Piece? {
          RefiningPrefers(t[i].s, limit, rest);
        }
      }
      MakesCut(seps, text, limit, t, blocks);
    }
  }

  /**
    A text that fits is one chunk. Any other is cut between paragraphs; only a paragraph that is too
    long is cut, and it is between lines; only a line that is too long is cut after sentences; and
    only a sentence that is too long is sliced.
   */
  lemma ChunksByPreference(text: string, limit: int)
    requires limit > 0
    ensures text == "" ==> Chunks(text, limit) == Ok([])
    ensures 0 < |text| <= limit ==> Chunks(text, limit) == Ok([text])
    ensures |text| > limit ==>
              Chunks(text, limit).Ok? && CutByPreference(["\n\n", "\n", ". "], text, limit, Chunks(text, limit).value)
  {
    if |text| > limit {
      hide SplitWith, RefinedUpTo, CutByPreference;
      var seps := ["\n\n", "\n", ". "];
      RefiningPrefers(text, limit, seps);
      RefinedSingle(text, limit, "\n\n");
      assert seps[1..] == ["\n", ". "] && seps[1..][1..] == [". "] && seps[1..][1..][1..] == [];
      assert RefinedBy([text], limit, seps) == RefinedBy(SplitWith(text, limit, "\n\n"), limit, seps[1..]);
    }
  }

  /**
    When every paragraph has something in it and fits, the chunks are whole paragraphs, in as few
    groups as possible.
   */
  lemma ParagraphsStayWhole(text: string, limit: int) returns (starts: seq<nat>)
    requires 0 < limit < |text|
    requires forall p :: p in Split(text, "\n\n") ==> 0 < |p| <= limit
    ensures Chunks(text, limit).Ok?
    ensures var parts, chunks := Split(text, "\n\n"), Chunks(text, limit).value;
            && Grouping(parts, limit, "\n\n", starts, |parts|) && |starts| == |chunks|
            && (forall i :: 0 <= i < |chunks| ==> ChunkIs(parts, "\n\n", starts, chunks, |parts|, i))
            && forall other :: Grouping(parts, limit, "\n\n", other, |parts|) ==> |chunks| <= |other|
  {
    var parts, chunks := Split(text, "\n\n"), SplitWith(text, limit, "\n\n");
    starts := GreedyIsAGrouping(text, limit, "\n\n");
    forall i | 0 <= i < |chunks|
      ensures |chunks[i]| <= limit
    {
      assert ChunkIs(parts, "\n\n", starts, chunks, |parts|, i);
      assert GroupFits(parts, limit, "\n\n", starts, |parts|, i);
    }
    AllStay(chunks, limit, "\n", |chunks|);
    AllStay(chunks, limit, ". ", |chunks|);
    AllStay(chunks, limit, "", |chunks|);
    assert chunks[..|chunks|] == chunks;
    forall other | Grouping(parts, limit, "\n\n", other, |parts|)
      ensures |chunks| <= |other|
    {
      GreedyIsOptimal(text, limit, "\n\n", other);
    }
  }

  lemma {:induction false} AllStay(chunks: seq<string>, limit: int, sep: string, n: nat)
    requires limit > 0 && n <= |chunks| && forall i :: 0 <= i < |chunks| ==> |chunks[i]| <= limit
    ensures RefinedUpTo(chunks, limit, sep, n) == chunks[..n]
  {
    if n > 0 {
      AllStay(chunks, limit, sep, n - 1);
      assert chunks[..n] == chunks[..n - 1] + [chunks[n - 1]];
    }
  }
}
