/**
  The hand-written UTF-8 check (decodeRune and isValidUTF8 of go/internal/telemetry/propagation.go)
  against the encoding of RFC 3629.
 */
module Utf8 {

  type Byte = bv8
  type Rune = bv32

  /** What decodeRune answers on the bytes from some position on: a code point and its size. */
  datatype Decoded = Decoded(rune: Rune, size: nat) {
    predicate IsError() {
      rune == 0xFFFD && size == 1
    }
  }

  const ERROR := Decoded(0xFFFD, 1)

  predicate IsContinuation(b: Byte) {
    b & 0xC0 == 0x80
  }

  function Wide(b: Byte): Rune {
    b as bv32
  }

  function DecodeRune(b: seq<Byte>, i: nat): (d: Decoded)
    requires i <= |b|
    ensures i + d.size <= |b| && (i < |b| ==> d.size > 0)
  {
    var n := |b| - i;
    if n == 0 then Decoded(0, 0)
    else
      var c := b[i];
      if c < 0x80 then Decoded(Wide(c), 1)
      else if c < 0xC2 then ERROR
      else if c < 0xE0 then
        if n < 2 || !IsContinuation(b[i + 1]) then ERROR
        else Decoded(Two(c, b[i + 1]), 2)
      else if c < 0xF0 then
        if n < 3 || !IsContinuation(b[i + 1]) || !IsContinuation(b[i + 2]) then ERROR
        else Decoded(Three(c, b[i + 1], b[i + 2]), 3)
      else if c < 0xF5 then
        if n < 4 || !IsContinuation(b[i + 1]) || !IsContinuation(b[i + 2]) || !IsContinuation(b[i + 3]) then ERROR
        else Decoded(Four(c, b[i + 1], b[i + 2], b[i + 3]), 4)
      else ERROR
  }

  function Two(c: Byte, d: Byte): Rune {
    (Wide(c & 0x1F) << 6) | Wide(d & 0x3F)
  }

  function Three(c: Byte, d: Byte, e: Byte): Rune {
    (Wide(c & 0x0F) << 12) | (Wide(d & 0x3F) << 6) | Wide(e & 0x3F)
  }

  function Four(c: Byte, d: Byte, e: Byte, f: Byte): Rune {
    (Wide(c & 0x07) << 18) | (Wide(d & 0x3F) << 12) | (Wide(e & 0x3F) << 6) | Wide(f & 0x3F)
  }

  /** No decoding step from `i` on is an error. */
  predicate AcceptedFrom(b: seq<Byte>, i: nat)
    requires i <= |b|
    decreases |b| - i
  {
    i < |b| ==> !DecodeRune(b, i).IsError() && AcceptedFrom(b, i + DecodeRune(b, i).size)
  }

  function RunesFrom(b: seq<Byte>, i: nat): seq<Rune>
    requires i <= |b|
    decreases |b| - i
  {
    if i == |b| then [] else [DecodeRune(b, i).rune] + RunesFrom(b, i + DecodeRune(b, i).size)
  }

  method IsValidUTF8(b: seq<Byte>) returns (ok: bool)
    ensures ok == AcceptedFrom(b, 0)
  {
    var i := 0;
    while i < |b|
      invariant i <= |b|
      invariant AcceptedFrom(b, 0) == AcceptedFrom(b, i)
    {
      var d := DecodeRune(b, i);
      if d.rune == 0xFFFD && d.size == 1 {
        return false;
      }
      i := i + d.size;
    }
    return true;
  }

  /** How many bytes a character has that begins with this one; none begins with any other. */
  predicate Leads(c: Byte, n: nat) {
    || (n == 1 && c < 0x80)
    || (n == 2 && 0xC2 <= c && c < 0xE0)
    || (n == 3 && 0xE0 <= c && c < 0xF0)
    || (n == 4 && 0xF0 <= c && c < 0xF5)
  }

  /** Exactly which bytes decode: as many continuation bytes as the first one asks for. */
  lemma DecodesIff(b: seq<Byte>, i: nat, n: nat)
    requires i < |b|
    ensures !DecodeRune(b, i).IsError() && DecodeRune(b, i).size == n
       <==> Leads(b[i], n) && i + n <= |b| && forall k :: i < k < i + n ==> 0x80 <= b[k] && b[k] < 0xC0
  {
    forall x: Byte
      ensures IsContinuation(x) <==> 0x80 <= x && x < 0xC0
    {
    }
    if Leads(b[i], 1) {
      assert Wide(b[i]) < 0x80;
    }
  }

  // RFC 3629, section 3.

  predicate IsScalar(r: Rune) {
    r < 0xD800 || (0xE000 <= r && r < 0x11_0000)
  }

  function Narrow(r: Rune): Byte {
    (r & 0xFF) as bv8
  }

  function Encode(r: Rune): (bytes: seq<Byte>)
    ensures 1 <= |bytes| <= 4
  {
    if r < 0x80 then [Narrow(r)]
    else if r < 0x800 then [0xC0 | Narrow(r >> 6), 0x80 | Narrow(r & 0x3F)]
    else if r < 0x1_0000 then [0xE0 | Narrow(r >> 12), 0x80 | Narrow((r >> 6) & 0x3F), 0x80 | Narrow(r & 0x3F)]
    else [0xF0 | Narrow(r >> 18), 0x80 | Narrow((r >> 12) & 0x3F), 0x80 | Narrow((r >> 6) & 0x3F),
          0x80 | Narrow(r & 0x3F)]
  }

  predicate HasAt(b: seq<Byte>, i: nat, w: seq<Byte>) {
    i + |w| <= |b| && forall k :: 0 <= k < |w| ==> b[i + k] == w[k]
  }

  lemma TwoRoundTrip(r: Rune)
    requires 0x80 <= r && r < 0x800
    ensures var c, d := 0xC0 | Narrow(r >> 6), 0x80 | Narrow(r & 0x3F);
            0xC2 <= c && c < 0xE0 && IsContinuation(d) && Two(c, d) == r
  {
  }

  lemma ThreeRoundTrip(r: Rune)
    requires 0x800 <= r && r < 0x1_0000
    ensures var c, d, e := 0xE0 | Narrow(r >> 12), 0x80 | Narrow((r >> 6) & 0x3F), 0x80 | Narrow(r & 0x3F);
            0xE0 <= c && c < 0xF0 && IsContinuation(d) && IsContinuation(e) && Three(c, d, e) == r
  {
  }

  lemma FourRoundTrip(r: Rune)
    requires 0x1_0000 <= r && r < 0x11_0000
    ensures var c, d, e, f := 0xF0 | Narrow(r >> 18), 0x80 | Narrow((r >> 12) & 0x3F),
                              0x80 | Narrow((r >> 6) & 0x3F), 0x80 | Narrow(r & 0x3F);
            && 0xF0 <= c && c < 0xF5 && IsContinuation(d) && IsContinuation(e) && IsContinuation(f)
            && Four(c, d, e, f) == r
  {
  }

  /** The encoding of a scalar value is decoded to it, whatever follows. */
  lemma EncodedDecodes(b: seq<Byte>, i: nat, r: Rune)
    requires IsScalar(r) && HasAt(b, i, Encode(r))
    ensures DecodeRune(b, i) == Decoded(r, |Encode(r)|) && !DecodeRune(b, i).IsError()
  {
    var w := Encode(r);
    assert forall k :: 0 <= k < |w| ==> b[i + k] == w[k];
    assert b[i + 0] == w[0];
    if r < 0x80 {
      assert Narrow(r) < 0x80 && Wide(Narrow(r)) == r;
    } else if r < 0x800 {
      TwoRoundTrip(r);
      assert b[i + 1] == w[1];
    } else if r < 0x1_0000 {
      ThreeRoundTrip(r);
      assert b[i + 1] == w[1] && b[i + 2] == w[2];
    } else {
      FourRoundTrip(r);
      assert b[i + 1] == w[1] && b[i + 2] == w[2] && b[i + 3] == w[3];
    }
  }

  ghost predicate AllScalar(runes: seq<Rune>) {
    forall k :: 0 <= k < |runes| ==> IsScalar(runes[k])
  }

  /** The encodings of the code points from `k` on, one after the other. */
  function EncodeFrom(runes: seq<Rune>, k: nat): seq<Byte>
    requires k <= |runes|
    decreases |runes| - k
  {
    if k == |runes| then [] else Encode(runes[k]) + EncodeFrom(runes, k + 1)
  }

  lemma SuffixSplits(b: seq<Byte>, i: nat, w: seq<Byte>, rest: seq<Byte>)
    requires i <= |b|
    ensures b[i..] == w + rest <==> HasAt(b, i, w) && b[i + |w|..] == rest
  {
    if b[i..] == w + rest {
      forall k | 0 <= k < |w|
        ensures b[i + k] == w[k]
      {
        assert b[i..][k] == w[k];
      }
      assert b[i + |w|..] == b[i..][|w|..];
    }
    if HasAt(b, i, w) && b[i + |w|..] == rest {
      assert b[i..] == b[i..i + |w|] + b[i + |w|..];
      assert b[i..i + |w|] == w;
    }
  }

  lemma FirstDecodes(b: seq<Byte>, i: nat, r: Rune, rest: seq<Byte>)
    requires i <= |b| && IsScalar(r) && b[i..] == Encode(r) + rest
    ensures i < |b| && DecodeRune(b, i) == Decoded(r, |Encode(r)|) && !DecodeRune(b, i).IsError()
    ensures b[i + |Encode(r)|..] == rest
  {
    SuffixSplits(b, i, Encode(r), rest);
    EncodedDecodes(b, i, r);
  }

  lemma {:induction false} EncodedFromDecodes(b: seq<Byte>, i: nat, runes: seq<Rune>, k: nat)
    requires i <= |b| && k <= |runes| && AllScalar(runes) && b[i..] == EncodeFrom(runes, k)
    ensures AcceptedFrom(b, i) && RunesFrom(b, i) == runes[k..]
    decreases |runes| - k
  {
    hide DecodeRune, Encode;
    if k < |runes| {
      FirstDecodes(b, i, runes[k], EncodeFrom(runes, k + 1));
      EncodedFromDecodes(b, i + DecodeRune(b, i).size, runes, k + 1);
      assert runes[k..] == [runes[k]] + runes[k + 1..];
    }
  }

  /** Every sequence of Unicode scalar values survives encoding, checking and decoding. */
  lemma EncodingRoundTrips(runes: seq<Rune>)
    requires AllScalar(runes)
    ensures var b := EncodeFrom(runes, 0); AcceptedFrom(b, 0) && RunesFrom(b, 0) == runes
  {
    var b := EncodeFrom(runes, 0);
    assert b[0..] == b && runes[0..] == runes;
    EncodedFromDecodes(b, 0, runes, 0);
  }

  // What the check lets through beyond RFC 3629.

  /**
    A lead byte and a second byte that only an overlong form, a surrogate or a code point beyond
    U+10FFFF begins with.
   */
  predicate IsLax(c: Byte, d: Byte) {
    (c == 0xE0 && d < 0xA0) || (c == 0xED && d >= 0xA0) || (c == 0xF0 && d < 0x90) || (c == 0xF4 && d >= 0x90)
  }

  /** None of the characters from `i` on begins so. */
  predicate StrictFrom(b: seq<Byte>, i: nat)
    requires i <= |b|
    decreases |b| - i
  {
    i < |b| ==>
      && (i + 1 < |b| ==> !IsLax(b[i], b[i + 1]))
      && StrictFrom(b, i + DecodeRune(b, i).size)
  }

  lemma TwoIsMinimal(c: Byte, d: Byte)
    requires 0xC2 <= c && c < 0xE0 && IsContinuation(d)
    ensures IsScalar(Two(c, d)) && Encode(Two(c, d)) == [c, d]
  {
  }

  lemma ThreeIsMinimal(c: Byte, d: Byte, e: Byte)
    requires 0xE0 <= c && c < 0xF0 && IsContinuation(d) && IsContinuation(e)
    ensures if IsLax(c, d) then !IsScalar(Three(c, d, e)) || Three(c, d, e) < 0x800
            else IsScalar(Three(c, d, e)) && Encode(Three(c, d, e)) == [c, d, e]
  {
  }

  lemma FourLead(c: Byte, d: Byte, e: Byte, f: Byte)
    requires 0xF0 <= c && c < 0xF5
    ensures 0xF0 | Narrow(Four(c, d, e, f) >> 18) == c
  {
  }

  lemma FourSecond(c: Byte, d: Byte, e: Byte, f: Byte)
    requires IsContinuation(d)
    ensures 0x80 | Narrow((Four(c, d, e, f) >> 12) & 0x3F) == d
  {
  }

  lemma FourThird(c: Byte, d: Byte, e: Byte, f: Byte)
    requires IsContinuation(e)
    ensures 0x80 | Narrow((Four(c, d, e, f) >> 6) & 0x3F) == e
  {
  }

  lemma FourFourth(c: Byte, d: Byte, e: Byte, f: Byte)
    requires IsContinuation(f)
    ensures 0x80 | Narrow(Four(c, d, e, f) & 0x3F) == f
  {
  }

  lemma FourRange(c: Byte, d: Byte, e: Byte, f: Byte)
    requires 0xF0 <= c && c < 0xF5 && IsContinuation(d)
    ensures !IsLax(c, d) <==> 0x1_0000 <= Four(c, d, e, f) && Four(c, d, e, f) < 0x11_0000
  {
  }

  lemma FourIsMinimal(c: Byte, d: Byte, e: Byte, f: Byte)
    requires 0xF0 <= c && c < 0xF5 && IsContinuation(d) && IsContinuation(e) && IsContinuation(f)
    ensures if IsLax(c, d) then !IsScalar(Four(c, d, e, f)) || Four(c, d, e, f) < 0x1_0000
            else IsScalar(Four(c, d, e, f)) && Encode(Four(c, d, e, f)) == [c, d, e, f]
  {
    hide Four, Narrow, IsLax, IsContinuation;
    FourRange(c, d, e, f);
    FourLead(c, d, e, f);
    FourSecond(c, d, e, f);
    FourThird(c, d, e, f);
    FourFourth(c, d, e, f);
  }

  /** A character that decodes and does not begin so is the encoding of the scalar value it decodes to. */
  lemma StrictDecodes(b: seq<Byte>, i: nat)
    requires i < |b| && !DecodeRune(b, i).IsError() && (i + 1 < |b| ==> !IsLax(b[i], b[i + 1]))
    ensures var d := DecodeRune(b, i); IsScalar(d.rune) && |Encode(d.rune)| == d.size && HasAt(b, i, Encode(d.rune))
  {
    var d := DecodeRune(b, i);
    var c := b[i];
    if d.size == 1 {
      assert c < 0x80;
      assert Wide(c) < 0x80 && Narrow(Wide(c)) == c;
    } else if d.size == 2 {
      TwoIsMinimal(c, b[i + 1]);
    } else if d.size == 3 {
      ThreeIsMinimal(c, b[i + 1], b[i + 2]);
    } else {
      FourIsMinimal(c, b[i + 1], b[i + 2], b[i + 3]);
    }
  }

  /** The encoding of a scalar value does not begin so. */
  lemma EncodedIsStrict(b: seq<Byte>, i: nat, r: Rune)
    requires IsScalar(r) && HasAt(b, i, Encode(r))
    ensures i + 1 < |b| ==> !IsLax(b[i], b[i + 1])
  {
    var w := Encode(r);
    assert b[i + 0] == w[0];
    if r < 0x80 {
      assert Narrow(r) < 0x80;
    } else {
      assert b[i + 1] == w[1];
      if r < 0x800 {
        TwoRoundTrip(r);
      } else if r < 0x1_0000 {
        ThreeIsStrict(r);
      } else {
        FourIsStrict(r);
      }
    }
  }

  lemma ThreeIsStrict(r: Rune)
    requires 0x800 <= r && r < 0x1_0000 && IsScalar(r)
    ensures !IsLax(0xE0 | Narrow(r >> 12), 0x80 | Narrow((r >> 6) & 0x3F))
  {
  }

  lemma FourIsStrict(r: Rune)
    requires 0x1_0000 <= r && r < 0x11_0000
    ensures !IsLax(0xF0 | Narrow(r >> 18), 0x80 | Narrow((r >> 12) & 0x3F))
  {
  }

  predicate Encodes(b: seq<Byte>, i: nat, r: Rune) {
    IsScalar(r) && HasAt(b, i, Encode(r))
  }

  /** The bytes from `i` on are the encodings of some scalar values. */
  ghost predicate IsUtf8From(b: seq<Byte>, i: nat)
    requires i <= |b|
    decreases |b| - i
  {
    i == |b| || exists r :: Encodes(b, i, r) && IsUtf8From(b, i + |Encode(r)|)
  }

  /** One character: it decodes and begins properly exactly when it encodes the scalar value it decodes to. */
  lemma OneCharacter(b: seq<Byte>, i: nat)
    requires i < |b|
    ensures !DecodeRune(b, i).IsError() && (i + 1 < |b| ==> !IsLax(b[i], b[i + 1]))
       <==> exists r :: Encodes(b, i, r)
    ensures forall r :: Encodes(b, i, r) ==> |Encode(r)| == DecodeRune(b, i).size
  {
    forall r | Encodes(b, i, r)
      ensures !DecodeRune(b, i).IsError() && |Encode(r)| == DecodeRune(b, i).size
      ensures i + 1 < |b| ==> !IsLax(b[i], b[i + 1])
    {
      EncodedDecodes(b, i, r);
      EncodedIsStrict(b, i, r);
    }
    if !DecodeRune(b, i).IsError() && (i + 1 < |b| ==> !IsLax(b[i], b[i + 1])) {
      StrictDecodes(b, i);
      assert Encodes(b, i, DecodeRune(b, i).rune);
    }
  }

  /**
    How far the check is from RFC 3629: the bytes are UTF-8 exactly when it accepts them and no
    character begins with one of the four pairs of bytes it should have refused.
   */
  lemma {:induction false} Utf8Iff(b: seq<Byte>, i: nat)
    requires i <= |b|
    ensures IsUtf8From(b, i) <==> AcceptedFrom(b, i) && StrictFrom(b, i)
    decreases |b| - i
  {
    hide DecodeRune, Encode;
    if i < |b| {
      OneCharacter(b, i);
      Utf8Iff(b, i + DecodeRune(b, i).size);
    }
  }

  /** An overlong form of U+0000 is accepted, and is not UTF-8. */
  lemma OverlongIsAccepted()
    ensures var b: seq<Byte> := [0xE0, 0x80, 0x80]; AcceptedFrom(b, 0) && RunesFrom(b, 0) == [0] && !IsUtf8From(b, 0)
  {
    var b: seq<Byte> := [0xE0, 0x80, 0x80];
    assert DecodeRune(b, 0) == Decoded(0, 3);
    assert RunesFrom(b, 3) == [];
    assert IsLax(b[0], b[1]);
    Utf8Iff(b, 0);
  }
}
