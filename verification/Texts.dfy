/** Texts as lists of characters, for readers that go through them front to back. */
module Texts {
  import opened Strings

  datatype Text = End | Char(c: char, rest: Text) {
    function Length(): nat {
      if End? then 0 else 1 + rest.Length()
    }

    predicate Starts(c: char) {
      Char? && this.c == c
    }
  }

  /** The characters of `s`, and then `t`. */
  function Then(s: string, t: Text): Text {
    if s == "" then t else Char(s[0], Then(s[1..], t))
  }

  lemma {:induction false} ThenAppends(a: string, b: string, t: Text)
    ensures Then(a + b, t) == Then(a, Then(b, t))
  {
    if a == "" {
      assert a + b == b;
    } else {
      assert (a + b)[0] == a[0] && (a + b)[1..] == a[1..] + b;
      ThenAppends(a[1..], b, t);
    }
  }

  lemma ThenOne(c: char, t: Text)
    ensures Then([c], t) == Char(c, t)
  {
    assert [c][1..] == "";
  }

  lemma ThenTwo(c: char, d: char, t: Text)
    ensures Then([c, d], t) == Char(c, Char(d, t))
  {
    assert [c, d][1..] == [d];
    ThenOne(d, t);
  }

  /** The parts from `k` on with separators between them, and then `rest`. */
  function PartsText(parts: seq<string>, sep: string, k: nat, rest: Text): Text
    requires k < |parts|
    decreases |parts| - k
  {
    Then(parts[k], if k + 1 == |parts| then rest else Then(sep, PartsText(parts, sep, k + 1, rest)))
  }

  lemma {:induction false} PartsLocal(parts: seq<string>, longer: seq<string>, sep: string, k: nat, rest: Text)
    requires k < |parts| < |longer| && parts == longer[..|parts|] && |longer| == |parts| + 1
    ensures PartsText(longer, sep, k, rest) == PartsText(parts, sep, k, Then(sep, Then(longer[|parts|], rest)))
    decreases |parts| - k
  {
    assert parts[k] == longer[k];
    if k + 1 < |parts| {
      PartsLocal(parts, longer, sep, k + 1, rest);
    } else {
      assert PartsText(longer, sep, k + 1, rest) == Then(longer[|parts|], rest);
    }
  }

  lemma {:induction false} JoinedText(parts: seq<string>, sep: string, n: nat, rest: Text)
    requires 0 < n <= |parts|
    ensures Then(JoinedUpTo(parts, sep, n), rest) == PartsText(parts[..n], sep, 0, rest)
  {
    if n == 1 {
      assert parts[..n][0] == parts[0];
    } else {
      var front, part := JoinedUpTo(parts, sep, n - 1), parts[n - 1];
      ThenAppends(front + sep, part, rest);
      ThenAppends(front, sep, Then(part, rest));
      JoinedText(parts, sep, n - 1, Then(sep, Then(part, rest)));
      PartsLocal(parts[..n - 1], parts[..n], sep, 0, rest);
    }
  }
}
