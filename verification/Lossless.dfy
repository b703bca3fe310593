/**
  Chunking loses nothing but whole separators (go/adapters/telegram/parser.go,
  go/adapters/zalo/parser.go): the text cut into separators and pieces, in order.
 */
module Lossless {
  import opened Wrappers
  import opened Strings
  import opened Chunking

  datatype Token = Sep(s: string) | Piece(s: string)

  function TextUpTo(t: seq<Token>, n: nat): string
    requires n <= |t|
  {
    if n == 0 then "" else TextUpTo(t, n - 1) + t[n - 1].s
  }

  function Text(t: seq<Token>): string {
    TextUpTo(t, |t|)
  }

  function PiecesUpTo(t: seq<Token>, n: nat): seq<string>
    requires n <= |t|
  {
    if n == 0 then []
    else if t[n - 1].Piece? then PiecesUpTo(t, n - 1) + [t[n - 1].s]
    else PiecesUpTo(t, n - 1)
  }

  function Pieces(t: seq<Token>): seq<string> {
    PiecesUpTo(t, |t|)
  }

  lemma Reassociate<T>(a: seq<T>, b: seq<T>, c: seq<T>)
    ensures a + b + c == a + (b + c)
  {
  }

  lemma {:induction false} TextUpToOfJoin(a: seq<Token>, b: seq<Token>, n: nat)
    requires n <= |b|
    ensures TextUpTo(a + b, |a| + n) == Text(a) + TextUpTo(b, n)
  {
    var all := a + b;
    if n == 0 {
      UpToLocal(a, all, |a|);
    } else {
      TextUpToOfJoin(a, b, n - 1);
      assert all[|a| + n - 1] == b[n - 1];
      Reassociate(Text(a), TextUpTo(b, n - 1), b[n - 1].s);
    }
  }

  lemma {:induction false} PiecesUpToOfJoin(a: seq<Token>, b: seq<Token>, n: nat)
    requires n <= |b|
    ensures PiecesUpTo(a + b, |a| + n) == Pieces(a) + PiecesUpTo(b, n)
  {
    var all := a + b;
    if n == 0 {
      UpToLocal(a, all, |a|);
    } else {
      PiecesUpToOfJoin(a, b, n - 1);
      assert all[|a| + n - 1] == b[n - 1];
      Reassociate(Pieces(a), PiecesUpTo(b, n - 1), [b[n - 1].s]);
    }
  }

  lemma {:induction false} UpToLocal(a: seq<Token>, longer: seq<Token>, n: nat)
    requires n <= |a| && a <= longer
    ensures TextUpTo(longer, n) == TextUpTo(a, n) && PiecesUpTo(longer, n) == PiecesUpTo(a, n)
  {
    if n > 0 {
      UpToLocal(a, longer, n - 1);
      assert longer[n - 1] == a[n - 1];
    }
  }

  lemma OfJoin(a: seq<Token>, b: seq<Token>)
    ensures Text(a + b) == Text(a) + Text(b) && Pieces(a + b) == Pieces(a) + Pieces(b)
  {
    TextUpToOfJoin(a, b, |b|);
    PiecesUpToOfJoin(a, b, |b|);
  }

  lemma OfOne(t: Token)
    ensures Text([t]) == t.s && Pieces([t]) == if t.Piece? then [t.s] else []
  {
    assert TextUpTo([t], 0) == "" && PiecesUpTo([t], 0) == [];
  }

  lemma ThenSep(t: seq<Token>, sep: string)
    ensures Text(t + [Sep(sep)]) == Text(t) + sep && Pieces(t + [Sep(sep)]) == Pieces(t)
  {
    OfJoin(t, [Sep(sep)]);
    OfOne(Sep(sep));
  }

  lemma ThenPiece(t: seq<Token>, s: string)
    ensures Text(t + [Piece(s)]) == Text(t) + s && Pieces(t + [Piece(s)]) == Pieces(t) + [s]
  {
    OfJoin(t, [Piece(s)]);
    OfOne(Piece(s));
  }

  lemma ThenPieceAndSep(t: seq<Token>, s: string, sep: string)
    ensures Text(t + [Piece(s), Sep(sep)]) == Text(t) + s + sep && Pieces(t + [Piece(s), Sep(sep)]) == Pieces(t) + [s]
  {
    ThenPiece(t, s);
    ThenSep(t + [Piece(s)], sep);
    assert t + [Piece(s), Sep(sep)] == t + [Piece(s)] + [Sep(sep)];
  }

  lemma Regroup(a: string, b: string, c: string, d: string)
    ensures a + (b + c + d) == a + b + c + d
  {
  }

  predicate EndsWithPiece(t: seq<Token>) {
    |t| > 0 && t[|t| - 1].Piece?
  }

  /** No two pieces touch: some separator lies between any piece and the next. */
  ghost predicate Apart(t: seq<Token>) {
    forall i :: 0 < i < |t| ==> ApartAt(t, i)
  }

  predicate ApartAt(t: seq<Token>, i: int)
    requires 0 < i < |t|
  {
    t[i - 1].Piece? ==> t[i].Sep?
  }

  ghost predicate Known(s: string) {
    s == "\n\n" || s == "\n" || s == ". "
  }

  /** Every separator is one of the three, and no piece is empty. */
  ghost predicate Proper(t: seq<Token>) {
    forall x :: x in t ==> if x.Sep? then Known(x.s) else x.s != ""
  }

  lemma JoinApart(a: seq<Token>, b: seq<Token>)
    requires Apart(a) && Apart(b) && !(EndsWithPiece(a) && |b| > 0 && b[0].Piece?)
    ensures Apart(a + b)
  {
    var all := a + b;
    forall i | 0 < i < |all|
      ensures ApartAt(all, i)
    {
      if i < |a| {
        assert ApartAt(a, i);
      } else if |a| < i {
        assert ApartAt(b, i - |a|);
      }
    }
  }

  // One packing pass.

  /** The tokens before the buffer, when the first `n` parts have been packed. */
  function CutUpTo(parts: seq<string>, limit: int, sep: string, n: nat): seq<Token>
    requires n <= |parts|
  {
    if n <= 1 then []
    else
      var t, p := CutUpTo(parts, limit, sep, n - 1), PackUpTo(parts, limit, sep, n - 1);
      if p.buf == "" then t + [Sep(sep)]
      else if Fits(p, parts[n - 1], limit, sep) then t
      else t + [Piece(p.buf), Sep(sep)]
  }

  function Flushed(t: seq<Token>, p: Packing): seq<Token> {
    if p.buf != "" then t + [Piece(p.buf)] else t
  }

  function Cut(text: string, limit: int, sep: string): seq<Token>
    requires sep != ""
  {
    var parts := Split(text, sep);
    Flushed(CutUpTo(parts, limit, sep, |parts|), PackUpTo(parts, limit, sep, |parts|))
  }

  lemma {:induction false} CutKeepsText(parts: seq<string>, limit: int, sep: string, n: nat)
    requires 0 < n <= |parts|
    ensures Text(CutUpTo(parts, limit, sep, n)) + PackUpTo(parts, limit, sep, n).buf == JoinedUpTo(parts, sep, n)
  {
    if n == 1 {
      assert PackUpTo(parts, limit, sep, 0) == Packing([], "");
    } else {
      CutKeepsText(parts, limit, sep, n - 1);
      var t, p, part := CutUpTo(parts, limit, sep, n - 1), PackUpTo(parts, limit, sep, n - 1), parts[n - 1];
      if p.buf == "" {
        ThenSep(t, sep);
      } else if Fits(p, part, limit, sep) {
        Regroup(Text(t), p.buf, sep, part);
      } else {
        ThenPieceAndSep(t, p.buf, sep);
      }
    }
  }

  lemma {:induction false} CutKeepsPieces(parts: seq<string>, limit: int, sep: string, n: nat)
    requires 0 < n <= |parts|
    ensures Pieces(CutUpTo(parts, limit, sep, n)) == PackUpTo(parts, limit, sep, n).out
  {
    if n == 1 {
      assert PackUpTo(parts, limit, sep, 0) == Packing([], "");
    } else {
      CutKeepsPieces(parts, limit, sep, n - 1);
      var t, p := CutUpTo(parts, limit, sep, n - 1), PackUpTo(parts, limit, sep, n - 1);
      ThenSep(t, sep);
      ThenPieceAndSep(t, p.buf, sep);
    }
  }

  /** Oversized pieces are single parts of the split, so the separator does not occur in them. */
  ghost predicate Atomic(s: string, parts: seq<string>, limit: int) {
    |s| > limit ==> s in parts
  }

  lemma {:induction false} CutIsApart(parts: seq<string>, limit: int, sep: string, n: nat)
    requires 0 < n <= |parts|
    ensures var t := CutUpTo(parts, limit, sep, n); Apart(t) && !EndsWithPiece(t)
  {
    if n > 1 {
      CutIsApart(parts, limit, sep, n - 1);
      var t, p := CutUpTo(parts, limit, sep, n - 1), PackUpTo(parts, limit, sep, n - 1);
      JoinApart(t, [Sep(sep)]);
      JoinApart(t, [Piece(p.buf), Sep(sep)]);
    }
  }

  lemma {:induction false} CutIsProper(parts: seq<string>, limit: int, sep: string, n: nat)
    requires 0 < n <= |parts| && Known(sep)
    ensures Proper(CutUpTo(parts, limit, sep, n))
  {
    if n > 1 {
      CutIsProper(parts, limit, sep, n - 1);
    }
  }

  lemma {:induction false} CutIsAtomic(parts: seq<string>, limit: int, sep: string, n: nat)
    requires 0 < n <= |parts|
    ensures forall x :: x in CutUpTo(parts, limit, sep, n) && x.Piece? ==> Atomic(x.s, parts, limit)
    ensures Atomic(PackUpTo(parts, limit, sep, n).buf, parts, limit)
  {
    if n == 1 {
      assert PackUpTo(parts, limit, sep, 0) == Packing([], "");
    } else {
      CutIsAtomic(parts, limit, sep, n - 1);
    }
  }

  /** One pass keeps the text, and its pieces are the chunks. */
  lemma CutIsPass(text: string, limit: int, sep: string)
    requires sep != ""
    ensures Text(Cut(text, limit, sep)) == text && Pieces(Cut(text, limit, sep)) == SplitWith(text, limit, sep)
  {
    var parts := Split(text, sep);
    CutKeepsText(parts, limit, sep, |parts|);
    CutKeepsPieces(parts, limit, sep, |parts|);
    JoinUndoesSplit(text, sep);
    ThenPiece(CutUpTo(parts, limit, sep, |parts|), PackUpTo(parts, limit, sep, |parts|).buf);
  }

  lemma CutStaysApart(text: string, limit: int, sep: string)
    requires sep != ""
    ensures Apart(Cut(text, limit, sep))
  {
    var parts := Split(text, sep);
    CutIsApart(parts, limit, sep, |parts|);
    JoinApart(CutUpTo(parts, limit, sep, |parts|), [Piece(PackUpTo(parts, limit, sep, |parts|).buf)]);
  }

  /** What is still too long after a pass cannot be split there. */
  lemma CutIsClean(text: string, limit: int, sep: string)
    requires Known(sep)
    ensures var t := Cut(text, limit, sep);
            && Proper(t)
            && forall x :: x in t && x.Piece? && |x.s| > limit ==> PartOf(text, x.s, 0) && !Contains(x.s, sep)
  {
    var parts := Split(text, sep);
    CutIsProper(parts, limit, sep, |parts|);
    CutIsAtomic(parts, limit, sep, |parts|);
    SplitIsClean(text, sep);
  }

  // A refining pass, token by token.

  function RecutOne(x: Token, limit: int, sep: string): seq<Token>
    requires sep != ""
  {
    if x.Piece? && |x.s| > limit then Cut(x.s, limit, sep) else [x]
  }

  /** Every piece fits, or is a stretch of a piece of `t` in which the separator does not occur. */
  ghost predicate Finer(x: Token, t: seq<Token>, limit: int, sep: string) {
    x.Piece? && |x.s| > limit ==>
      !Contains(x.s, sep) && exists y :: y in t && y.Piece? && |y.s| > limit && PartOf(y.s, x.s, 0)
  }

  lemma RecutOneText(x: Token, limit: int, sep: string)
    requires sep != ""
    ensures Text(RecutOne(x, limit, sep)) == x.s
  {
    OfOne(x);
    if x.Piece? && |x.s| > limit {
      CutIsPass(x.s, limit, sep);
    }
  }

  lemma RecutOnePieces(x: Token, limit: int, sep: string)
    requires sep != "" && limit > 0
    ensures Pieces(RecutOne(x, limit, sep)) == if x.Sep? then [] else RefinedOne(x.s, limit, sep)
  {
    OfOne(x);
    if x.Piece? && |x.s| > limit {
      CutIsPass(x.s, limit, sep);
    }
  }

  lemma RecutOneApart(x: Token, limit: int, sep: string)
    requires sep != ""
    ensures var r := RecutOne(x, limit, sep); Apart(r) && (x.Sep? ==> r == [x])
  {
    if x.Piece? && |x.s| > limit {
      CutStaysApart(x.s, limit, sep);
    }
  }

  lemma RecutOneFiner(x: Token, t: seq<Token>, limit: int, sep: string)
    requires Known(sep) && x in t && Proper(t)
    ensures var r := RecutOne(x, limit, sep); Proper(r) && forall y :: y in r ==> Finer(y, t, limit, sep)
  {
    if x.Piece? && |x.s| > limit {
      CutIsClean(x.s, limit, sep);
    }
  }

  function Flat<T>(blocks: seq<seq<T>>, n: nat): seq<T>
    requires n <= |blocks|
  {
    if n == 0 then [] else Flat(blocks, n - 1) + blocks[n - 1]
  }

  lemma {:induction false} FlatText(t: seq<Token>, blocks: seq<seq<Token>>, n: nat)
    requires n <= |t| == |blocks| && forall i :: 0 <= i < |t| ==> Text(blocks[i]) == t[i].s
    ensures Text(Flat(blocks, n)) == TextUpTo(t, n)
  {
    if n > 0 {
      FlatText(t, blocks, n - 1);
      OfJoin(Flat(blocks, n - 1), blocks[n - 1]);
    }
  }

  lemma {:induction false} FlatPieces(blocks: seq<seq<Token>>, pieces: seq<seq<string>>, n: nat)
    requires n <= |blocks| == |pieces| && forall i :: 0 <= i < |blocks| ==> Pieces(blocks[i]) == pieces[i]
    ensures Pieces(Flat(blocks, n)) == Flat(pieces, n)
  {
    if n > 0 {
      FlatPieces(blocks, pieces, n - 1);
      OfJoin(Flat(blocks, n - 1), blocks[n - 1]);
    }
  }

  lemma {:induction false} FlatHas(blocks: seq<seq<Token>>, n: nat)
    requires n <= |blocks|
    ensures forall x :: x in Flat(blocks, n) ==> exists i :: 0 <= i < n && x in blocks[i]
  {
    if n > 0 {
      FlatHas(blocks, n - 1);
    }
  }

  lemma {:induction false} FlatApart(t: seq<Token>, blocks: seq<seq<Token>>, n: nat)
    requires n <= |t| == |blocks| && Apart(t)
    requires forall i :: 0 <= i < |t| ==> Apart(blocks[i]) && (t[i].Sep? ==> blocks[i] == [t[i]])
    ensures var r := Flat(blocks, n); Apart(r) && (EndsWithPiece(r) ==> n > 0 && t[n - 1].Piece?)
  {
    if n > 0 {
      FlatApart(t, blocks, n - 1);
      assert n > 1 ==> ApartAt(t, n - 1);
      JoinApart(Flat(blocks, n - 1), blocks[n - 1]);
    }
  }

  function Mapped(f: string -> seq<string>, chunks: seq<string>, n: nat): seq<string>
    requires n <= |chunks|
  {
    if n == 0 then [] else Mapped(f, chunks, n - 1) + f(chunks[n - 1])
  }

  lemma {:induction false} MappedLocal(f: string -> seq<string>, a: seq<string>, longer: seq<string>, n: nat)
    requires n <= |a| && a <= longer
    ensures Mapped(f, longer, n) == Mapped(f, a, n)
  {
    if n > 0 {
      MappedLocal(f, a, longer, n - 1);
      assert longer[n - 1] == a[n - 1];
    }
  }

  lemma {:induction false} FlatMapped(t: seq<Token>, pieces: seq<seq<string>>, f: string -> seq<string>, n: nat)
    requires n <= |t| == |pieces|
    requires forall i :: 0 <= i < |t| ==> pieces[i] == if t[i].Sep? then [] else f(t[i].s)
    ensures var chunks := PiecesUpTo(t, n); Flat(pieces, n) == Mapped(f, chunks, |chunks|)
  {
    if n > 0 {
      FlatMapped(t, pieces, f, n - 1);
      var chunks := PiecesUpTo(t, n - 1);
      MappedLocal(f, chunks, chunks + [t[n - 1].s], |chunks|);
    }
  }

  lemma {:induction false} RefinedIsMapped(f: string -> seq<string>, chunks: seq<string>, limit: int, sep: string,
                                           n: nat)
    requires limit > 0 && n <= |chunks| && forall c :: f(c) == RefinedOne(c, limit, sep)
    ensures RefinedUpTo(chunks, limit, sep, n) == Mapped(f, chunks, n)
  {
    if n > 0 {
      RefinedIsMapped(f, chunks, limit, sep, n - 1);
    }
  }

  function Blocks(t: seq<Token>, limit: int, sep: string): seq<seq<Token>>
    requires sep != ""
  {
    seq(|t|, i requires 0 <= i < |t| => RecutOne(t[i], limit, sep))
  }

  function Recut(t: seq<Token>, limit: int, sep: string): seq<Token>
    requires sep != ""
  {
    Flat(Blocks(t, limit, sep), |t|)
  }

  lemma RecutIsPass(t: seq<Token>, limit: int, sep: string)
    requires sep != "" && limit > 0
    ensures Text(Recut(t, limit, sep)) == Text(t) && Pieces(Recut(t, limit, sep)) == Refined(Pieces(t), limit, sep)
  {
    var blocks := Blocks(t, limit, sep);
    var pieces := seq(|t|, i requires 0 <= i < |t| => Pieces(blocks[i]));
    forall i | 0 <= i < |t|
      ensures Text(blocks[i]) == t[i].s
      ensures Pieces(blocks[i]) == if t[i].Sep? then [] else RefinedOne(t[i].s, limit, sep)
    {
      RecutOneText(t[i], limit, sep);
      RecutOnePieces(t[i], limit, sep);
    }
    FlatText(t, blocks, |t|);
    FlatPieces(blocks, pieces, |t|);
    var f := (c: string) => RefinedOne(c, limit, sep);
    FlatMapped(t, pieces, f, |t|);
    RefinedIsMapped(f, Pieces(t), limit, sep, |Pieces(t)|);
  }

  lemma RecutStaysApart(t: seq<Token>, limit: int, sep: string)
    requires sep != "" && Apart(t)
    ensures Apart(Recut(t, limit, sep))
  {
    var blocks := Blocks(t, limit, sep);
    forall i | 0 <= i < |t|
      ensures Apart(blocks[i]) && (t[i].Sep? ==> blocks[i] == [t[i]])
    {
      RecutOneApart(t[i], limit, sep);
    }
    FlatApart(t, blocks, |t|);
  }

  lemma RecutIsFiner(t: seq<Token>, limit: int, sep: string)
    requires Known(sep) && Proper(t)
    ensures Proper(Recut(t, limit, sep)) && forall x :: x in Recut(t, limit, sep) ==> Finer(x, t, limit, sep)
  {
    var blocks := Blocks(t, limit, sep);
    FlatHas(blocks, |t|);
    forall i | 0 <= i < |t|
      ensures Proper(blocks[i]) && forall x :: x in blocks[i] ==> Finer(x, t, limit, sep)
    {
      RecutOneFiner(t[i], t, limit, sep);
    }
  }

  /** The text cut at separators, by the three passes that look for one. */
  function Tokens(text: string, limit: int): seq<Token> {
    if text == "" then []
    else if |text| <= limit then [Piece(text)]
    else Recut(Recut(Cut(text, limit, "\n\n"), limit, "\n"), limit, ". ")
  }

  /** Longer than the limit, and nowhere to cut. */
  ghost predicate Uncuttable(s: string, limit: int) {
    |s| > limit && !Contains(s, "\n") && !Contains(s, ". ")
  }

  lemma PassesCut(text: string, limit: int)
    requires 0 < limit < |text|
    ensures var t := Tokens(text, limit);
            && Text(t) == text && Proper(t) && Apart(t)
            && Ok(Refined(Pieces(t), limit, "")) == Chunks(text, limit)
            && forall x :: x in t && x.Piece? && |x.s| > limit ==> Uncuttable(x.s, limit)
  {
    var t0 := Cut(text, limit, "\n\n");
    CutIsPass(text, limit, "\n\n");
    CutStaysApart(text, limit, "\n\n");
    CutIsClean(text, limit, "\n\n");
    var t1 := Recut(t0, limit, "\n");
    RecutIsPass(t0, limit, "\n");
    RecutStaysApart(t0, limit, "\n");
    RecutIsFiner(t0, limit, "\n");
    var t2 := Recut(t1, limit, ". ");
    RecutIsPass(t1, limit, ". ");
    RecutStaysApart(t1, limit, ". ");
    RecutIsFiner(t1, limit, ". ");
    forall x | x in t2 && x.Piece? && |x.s| > limit
      ensures Uncuttable(x.s, limit)
    {
      assert Finer(x, t1, limit, ". ");
      var y :| y in t1 && y.Piece? && |y.s| > limit && PartOf(y.s, x.s, 0);
      assert Finer(y, t0, limit, "\n");
      if Contains(x.s, "\n") {
        PartsContainNoMore(y.s, x.s, "\n");
      }
    }
  }

  /** The chunks of one piece: itself, or, when it is too long, its slices. */
  ghost predicate ChunksOfPiece(s: string, limit: int, chunks: seq<string>)
    requires limit > 0
  {
    && Concat(chunks, |chunks|) == s
    && (forall c :: c in chunks ==> 0 < |c| <= limit)
    && (forall k :: 0 <= k < |chunks| - 1 ==> |chunks[k]| == limit)
  }

  function Concat(chunks: seq<string>, n: nat): string
    requires n <= |chunks|
  {
    if n == 0 then "" else Concat(chunks, n - 1) + chunks[n - 1]
  }

  lemma {:induction false} ConcatOfCons(c: string, chunks: seq<string>, n: nat)
    requires n <= |chunks|
    ensures Concat([c] + chunks, n + 1) == c + Concat(chunks, n)
  {
    var all := [c] + chunks;
    if n == 0 {
      assert Concat(all, 0) == "" && all[0] == c;
    } else {
      ConcatOfCons(c, chunks, n - 1);
      assert all[n] == chunks[n - 1];
      assert Concat(all, n + 1) == Concat(all, n) + chunks[n - 1];
      Reassociate(c, Concat(chunks, n - 1), chunks[n - 1]);
    }
  }

  lemma {:induction false} SlicesCover(s: string, limit: int, i: nat)
    requires limit > 0 && i <= |s|
    ensures var r := SlicesFrom(s, limit, i); Concat(r, |r|) == s[i..]
    decreases |s| - i
  {
    if i < |s| {
      var end := Min(i + limit, |s|);
      if i + limit < |s| {
        SlicesCover(s, limit, i + limit);
      } else {
        assert SlicesFrom(s, limit, i + limit) == [];
      }
      var rest := SlicesFrom(s, limit, i + limit);
      ConcatOfCons(s[i..end], rest, |rest|);
      assert s[i..] == s[i..end] + s[end..];
    }
  }

  lemma {:induction false} SlicesFit(s: string, limit: int, i: nat)
    requires limit > 0
    ensures var r := SlicesFrom(s, limit, i);
            && (forall c :: c in r ==> 0 < |c| <= limit)
            && forall k :: 0 <= k < |r| - 1 ==> |r[k]| == limit
    decreases |s| - i
  {
    if i < |s| {
      SlicesFit(s, limit, i + limit);
    }
  }

  lemma PieceBecomesChunks(s: string, limit: int)
    requires limit > 0 && s != ""
    ensures ChunksOfPiece(s, limit, RefinedOne(s, limit, ""))
  {
    SlicesCover(s, limit, 0);
    SlicesFit(s, limit, 0);
    assert s[0..] == s;
    assert Concat([s], 0) == "";
  }

  /** The chunks, token by token: none for a separator. */
  function ChunksOf(t: seq<Token>, limit: int): (r: seq<seq<string>>)
    requires limit > 0
  {
    seq(|t|, i requires 0 <= i < |t| => if t[i].Sep? then [] else RefinedOne(t[i].s, limit, ""))
  }

  lemma ChunksAreFlat(t: seq<Token>, limit: int)
    requires limit > 0
    ensures Flat(ChunksOf(t, limit), |t|) == Refined(Pieces(t), limit, "")
  {
    var f := (c: string) => RefinedOne(c, limit, "");
    FlatMapped(t, ChunksOf(t, limit), f, |t|);
    RefinedIsMapped(f, Pieces(t), limit, "", |Pieces(t)|);
  }

  /**
    Chunking loses nothing but whole separators: the text is a sequence of separators and
    non-empty pieces, no two pieces touching; the chunks are, piece by piece and in order, the
    piece itself or, only when it is too long and has nowhere to be cut, slices that add up to it.
   */
  lemma ChunkingIsLossless(text: string, limit: int) returns (t: seq<Token>)
    requires limit > 0
    ensures Text(t) == text && Proper(t) && Apart(t)
    ensures Chunks(text, limit) == Ok(Flat(ChunksOf(t, limit), |t|))
    ensures forall x :: x in t && x.Piece? ==>
              && ChunksOfPiece(x.s, limit, RefinedOne(x.s, limit, ""))
              && (|x.s| <= limit || Uncuttable(x.s, limit))
  {
    t := Tokens(text, limit);
    if limit < |text| {
      PassesCut(text, limit);
      ChunksAreFlat(t, limit);
    } else if text != "" {
      OfOne(Piece(text));
      assert Flat(ChunksOf(t, limit), 0) == [];
    }
    forall x | x in t && x.Piece?
      ensures ChunksOfPiece(x.s, limit, RefinedOne(x.s, limit, ""))
    {
      PieceBecomesChunks(x.s, limit);
    }
  }

  lemma {:induction false} FlatFits(blocks: seq<seq<string>>, limit: int, n: nat)
    requires n <= |blocks|
    requires forall i :: 0 <= i < |blocks| ==> forall c :: c in blocks[i] ==> 0 < |c| <= limit
    ensures forall c :: c in Flat(blocks, n) ==> 0 < |c| <= limit
  {
    if n > 0 {
      FlatFits(blocks, limit, n - 1);
    }
  }

  /** An error exactly for a limit that is not positive, and otherwise chunks that fit and are not empty. */
  lemma EveryChunkFits(text: string, limit: int)
    ensures Chunks(text, limit).Ok? <==> limit > 0
    ensures limit > 0 ==> forall c :: c in Chunks(text, limit).value ==> 0 < |c| <= limit
  {
    if limit > 0 {
      var t := ChunkingIsLossless(text, limit);
      forall i | 0 <= i < |t|
        ensures forall c :: c in ChunksOf(t, limit)[i] ==> 0 < |c| <= limit
      {
        assert t[i] in t;
      }
      FlatFits(ChunksOf(t, limit), limit, |t|);
    }
  }
}
