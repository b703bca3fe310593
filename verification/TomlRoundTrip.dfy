/** Reading back what the TOML serialiser wrote (go/internal/clibackend/codex_toml.go). */
module TomlRoundTrip {
  import opened Wrappers
  import opened Strings
  import opened Texts
  import opened Toml
  import opened TomlReader

  predicate TextClean(w: string) {
    forall i :: 0 <= i < |w| ==> !IsControl(w[i])
  }

  /** No string and no key holds a control character other than a tab. */
  ghost predicate Clean(v: Value) {
    match v
    case Str(w) => TextClean(w)
    case Array(items) => forall i :: 0 <= i < |items| ==> Clean(items[i])
    case Table(m) => forall k :: k in m ==> TextClean(k) && Clean(m[k])
    case _ => true
  }

  /** What the reader should answer about what was written. */
  function Answer<T>(clean: bool, v: T, rest: Text): Parsed<T> {
    if clean then At(v, rest) else Fail
  }

  // Strings.

  /** An escaped character is read as itself; a raw one too, unless it is a control character. */
  lemma CharReadsBack(c: char, t: Text)
    ensures ReadChars(Then(EscapedChar(c), t)) == if IsControl(c) then Fail else Prepended(c, ReadChars(t))
  {
    if c == '"' || c == '\\' {
      ThenTwo('\\', c, t);
    } else {
      ThenOne(c, t);
    }
  }

  lemma {:induction false} CharsReadBack(w: string, rest: Text)
    ensures ReadChars(Then(Escaped(w), Char('"', rest))) == Answer(TextClean(w), w, rest)
    decreases |w|
  {
    if w != "" {
      var t := Then(Escaped(w[1..]), Char('"', rest));
      ThenAppends(EscapedChar(w[0]), Escaped(w[1..]), Char('"', rest));
      CharReadsBack(w[0], t);
      CharsReadBack(w[1..], rest);
      assert w == [w[0]] + w[1..];
      assert TextClean(w) <==> !IsControl(w[0]) && TextClean(w[1..]);
    }
  }

  lemma QuotedText(w: string, rest: Text)
    ensures Then(Quoted(w), rest) == Char('"', Then(Escaped(w), Char('"', rest)))
  {
    TwoPassesAreOne(w);
    ThenAppends("\"" + Escaped(w), "\"", rest);
    ThenOne('"', rest);
    ThenAppends("\"", Escaped(w), Char('"', rest));
    ThenOne('"', Then(Escaped(w), Char('"', rest)));
  }

  lemma StringReadsBack(w: string, rest: Text)
    requires !rest.Starts('"')
    ensures ReadString(Then(Quoted(w), rest)) == Answer(TextClean(w), w, rest)
  {
    QuotedText(w, rest);
    CharsReadBack(w, rest);
  }

  lemma {:induction false} BareReadsBack(w: string, rest: Text)
    requires (forall i :: 0 <= i < |w| ==> IsBareChar(w[i])) && !(rest.Char? && IsBareChar(rest.c))
    ensures ReadBare(Then(w, rest)) == (w, rest)
  {
    if w != "" {
      BareReadsBack(w[1..], rest);
      assert w == [w[0]] + w[1..];
    }
  }

  /** Bare and quoted keys cannot be taken for each other, and a bare one is clean. */
  lemma KeyReadsBack(key: string, rest: Text)
    requires rest.Starts(' ')
    ensures ReadKey(Then(FormatTOMLKey(key), rest)) == Answer(TextClean(key), key, rest)
  {
    if IsBare(key) {
      BareReadsBack(key, rest);
    } else {
      QuotedText(key, rest);
      StringReadsBack(key, rest);
    }
  }

  // Numbers.

  predicate EndsNumber(rest: Text) {
    rest.Char? ==> !IsDigit(rest.c)
  }

  lemma {:induction false} DigitsReadBack(n: nat, t: Text)
    ensures Then(Digits(n), t).Char? && IsDigit(Then(Digits(n), t).c)
    ensures n > 0 ==> Then(Digits(n), t).c != '0'
    ensures ReadDigits(Then(Digits(n), t), 0) == ReadDigits(t, n)
    decreases n
  {
    if n < 10 {
      ThenOne(Digit(n), t);
    } else {
      ThenAppends(Digits(n / 10), [Digit(n % 10)], t);
      ThenOne(Digit(n % 10), t);
      DigitsReadBack(n / 10, Char(Digit(n % 10), t));
    }
  }

  lemma NatReadsBack(n: nat, rest: Text)
    requires EndsNumber(rest)
    ensures ReadNat(Then(Digits(n), rest)) == At(n, rest)
  {
    DigitsReadBack(n, rest);
    if n == 0 {
      ThenOne('0', rest);
    }
  }

  lemma IntReadsBack(n: int, rest: Text)
    requires EndsNumber(rest)
    ensures ReadInt(Then(Itoa(n), rest)) == At(Int(n), rest)
    ensures var t := Then(Itoa(n), rest); t.Char? && (t.c == '-' || IsDigit(t.c))
  {
    if n < 0 {
      ThenAppends("-", Digits(-n), rest);
      ThenOne('-', Then(Digits(-n), rest));
      NatReadsBack(-n, rest);
    } else {
      DigitsReadBack(n, rest);
      NatReadsBack(n, rest);
    }
  }

  // Scalars.

  /** What may come after a value: nothing, or what the serialiser puts between and after values. */
  predicate Follows(rest: Text) {
    rest.Char? ==> rest.c == ' ' || rest.c == ',' || rest.c == ']'
  }

  /** Neither blank nor a bracket, brace or comma. */
  predicate Plain(c: char) {
    c != ' ' && c != '\t' && c != '\n' && c != '\r' && c != ']' && c != '}' && c != ','
  }

  /** A text that is read back as `v`, whatever may follow it. */
  ghost predicate Reads(w: string, v: Value, clean: bool) {
    && w != "" && Plain(w[0])
    && forall rest {:trigger Then(w, rest)} :: Follows(rest) ==> ReadValue(Then(w, rest)) == Answer(clean, v, rest)
  }

  lemma {:induction false} WordReadsBack(w: string, rest: Text)
    ensures AfterWord(Then(w, rest), w) == Some(rest)
  {
    if w != "" {
      WordReadsBack(w[1..], rest);
    }
  }

  lemma BoolReads(b: bool)
    ensures Reads(if b then "true" else "false", Bool(b), true)
  {
    var w := if b then "true" else "false";
    forall rest | Follows(rest)
      ensures ReadValue(Then(w, rest)) == At(Bool(b), rest)
    {
      WordReadsBack(w, rest);
      assert Then(w, rest).c == w[0];
    }
  }

  lemma StrReads(s: string)
    ensures Reads(Quoted(s), Str(s), TextClean(s))
  {
    var w := Quoted(s);
    forall rest | Follows(rest)
      ensures ReadValue(Then(w, rest)) == Answer(TextClean(s), Str(s), rest)
    {
      StringReadsBack(s, rest);
      QuotedText(s, rest);
    }
  }

  lemma IntReads(n: int)
    ensures Reads(Itoa(n), Int(n), true)
  {
    var w := Itoa(n);
    IntReadsBack(n, End);
    forall rest | Follows(rest)
      ensures ReadValue(Then(w, rest)) == At(Int(n), rest)
    {
      IntReadsBack(n, rest);
    }
  }

  // Arrays.

  const SEP := ", "

  predicate All(cleans: seq<bool>, k: nat) {
    forall j :: k <= j < |cleans| ==> cleans[j]
  }

  /** What the reader makes of an item, given what it makes of the rest. */
  function Consed(clean: bool, v: Value, r: Parsed<seq<Value>>): Parsed<seq<Value>> {
    if clean && r.At? then At([v] + r.value, r.rest) else Fail
  }

  lemma LastItem(t: Text, v: Value, clean: bool, rest: Text)
    requires ReadValue(t) == Answer(clean, v, Char(']', rest))
    ensures ReadItems(t) == Answer(clean, [v], rest)
  {
  }

  lemma MoreItems(t: Text, v: Value, clean: bool, u: Text)
    requires ReadValue(t) == Answer(clean, v, Char(',', Char(' ', u))) && u.Char? && Plain(u.c)
    ensures ReadItems(t) == Consed(clean, v, ReadItems(u))
  {
    assert SkipLines(u) == u && SkipLines(Char(' ', u)) == u;
    assert SkipLines(Char(',', Char(' ', u))) == Char(',', Char(' ', u));
  }

  ghost predicate AllRead(parts: seq<string>, items: seq<Value>, cleans: seq<bool>) {
    && |items| == |parts| == |cleans|
    && forall j :: 0 <= j < |parts| ==> Reads(parts[j], items[j], cleans[j])
  }

  lemma {:induction false} ItemsRead(items: seq<Value>, parts: seq<string>, cleans: seq<bool>, k: nat, rest: Text)
    requires AllRead(parts, items, cleans) && k < |parts|
    ensures ReadItems(PartsText(parts, SEP, k, Char(']', rest))) == Answer(All(cleans, k), items[k..], rest)
    decreases |parts| - k
  {
    hide ReadItems, ReadValue;
    assert Reads(parts[k], items[k], cleans[k]);
    var t := PartsText(parts, SEP, k, Char(']', rest));
    if k + 1 == |parts| {
      LastItem(t, items[k], cleans[k], rest);
      assert items[k..] == [items[k]];
    } else {
      assert Reads(parts[k + 1], items[k + 1], cleans[k + 1]);
      var u := PartsText(parts, SEP, k + 1, Char(']', rest));
      ThenTwo(',', ' ', u);
      MoreItems(t, items[k], cleans[k], u);
      ItemsRead(items, parts, cleans, k + 1, rest);
      assert items[k..] == [items[k]] + items[k + 1..];
    }
  }

  lemma BracketsText(joined: string, rest: Text)
    ensures Then("[" + joined + "]", rest) == Char('[', Then(joined, Char(']', rest)))
  {
    ThenAppends("[" + joined, "]", rest);
    ThenOne(']', rest);
    ThenAppends("[", joined, Char(']', rest));
    ThenOne('[', Then(joined, Char(']', rest)));
  }

  lemma ArrayReads(items: seq<Value>, parts: seq<string>, cleans: seq<bool>)
    requires AllRead(parts, items, cleans)
    ensures Reads("[" + Joined(parts, SEP) + "]", Array(items), All(cleans, 0))
  {
    var w := "[" + Joined(parts, SEP) + "]";
    forall rest | Follows(rest)
      ensures ReadValue(Then(w, rest)) == Answer(All(cleans, 0), Array(items), rest)
    {
      BracketsText(Joined(parts, SEP), rest);
      var t := Then(Joined(parts, SEP), Char(']', rest));
      if |parts| == 0 {
        assert t == Char(']', rest) && SkipLines(t) == t;
      } else {
        JoinedText(parts, SEP, |parts|, Char(']', rest));
        assert parts[..|parts|] == parts;
        assert Reads(parts[0], items[0], cleans[0]);
        assert SkipLines(t) == t;
        ItemsRead(items, parts, cleans, 0, rest);
        assert items[0..] == items;
      }
    }
  }

  // Tables.

  ghost predicate ReadsEntry(w: string, key: string, v: Value, clean: bool) {
    && w != "" && Plain(w[0])
    && forall rest {:trigger Then(w, rest)} :: Follows(rest) ==>
         ReadEntry(Then(w, rest)) == Answer(clean, (key, v), rest)
  }

  lemma KeyStartsPlain(key: string, w: string)
    ensures Plain((FormatTOMLKey(key) + w)[0])
  {
  }

  lemma EntryText(key: string, w: string, rest: Text)
    ensures Then(key + " = " + w, rest) == Then(key, Char(' ', Char('=', Char(' ', Then(w, rest)))))
  {
    ThenAppends(key + " = ", w, rest);
    ThenAppends(key, " = ", Then(w, rest));
    assert " = " == " " + "= ";
    ThenAppends(" ", "= ", Then(w, rest));
    ThenOne(' ', Then("= ", Then(w, rest)));
    ThenTwo('=', ' ', Then(w, rest));
  }

  lemma EntryReads(key: string, w: string, v: Value, clean: bool)
    requires Reads(w, v, clean)
    ensures ReadsEntry(FormatTOMLKey(key) + " = " + w, key, v, TextClean(key) && clean)
  {
    var k := FormatTOMLKey(key);
    KeyStartsPlain(key, " = " + w);
    assert k + " = " + w == k + (" = " + w);
    forall rest | Follows(rest)
      ensures ReadEntry(Then(k + " = " + w, rest)) == Answer(TextClean(key) && clean, (key, v), rest)
    {
      EntryText(k, w, rest);
      var u := Then(w, rest);
      KeyReadsBack(key, Char(' ', Char('=', Char(' ', u))));
      assert SkipBlanks(Char(' ', Char('=', Char(' ', u)))) == Char('=', Char(' ', u));
      assert SkipBlanks(Char(' ', u)) == u;
    }
  }

  /** The table with the entries from `k` on. */
  function From(keys: seq<string>, vals: seq<Value>, k: nat): map<string, Value>
    requires k <= |keys| == |vals|
    decreases |keys| - k
  {
    if k == |keys| then map[] else From(keys, vals, k + 1)[keys[k] := vals[k]]
  }

  ghost predicate Distinct(keys: seq<string>) {
    forall i, j :: 0 <= i < j < |keys| ==> keys[i] != keys[j]
  }

  lemma {:induction false} FromHas(keys: seq<string>, vals: seq<Value>, k: nat)
    requires k <= |keys| == |vals| && Distinct(keys)
    ensures forall x :: x in From(keys, vals, k) <==> x in keys[k..]
    ensures forall j :: k <= j < |keys| ==> From(keys, vals, k)[keys[j]] == vals[j]
    decreases |keys| - k
  {
    if k < |keys| {
      FromHas(keys, vals, k + 1);
      assert keys[k..] == [keys[k]] + keys[k + 1..];
    }
  }

  function ConsedEntry(clean: bool, key: string, v: Value, r: Parsed<map<string, Value>>): Parsed<map<string, Value>> {
    if clean && r.At? && key !in r.value then At(r.value[key := v], r.rest) else Fail
  }

  lemma LastEntry(t: Text, key: string, v: Value, clean: bool, rest: Text)
    requires ReadEntry(t) == Answer(clean, (key, v), Char(' ', Char('}', rest)))
    ensures ReadEntries(t) == Answer(clean, map[key := v], rest)
  {
    assert SkipBlanks(Char(' ', Char('}', rest))) == Char('}', rest);
  }

  lemma MoreEntries(t: Text, key: string, v: Value, clean: bool, u: Text)
    requires ReadEntry(t) == Answer(clean, (key, v), Char(',', Char(' ', u))) && u.Char? && Plain(u.c)
    ensures ReadEntries(t) == ConsedEntry(clean, key, v, ReadEntries(u))
  {
    assert SkipBlanks(u) == u && SkipBlanks(Char(' ', u)) == u;
    assert SkipBlanks(Char(',', Char(' ', u))) == Char(',', Char(' ', u));
  }

  ghost predicate AllEntriesRead(parts: seq<string>, keys: seq<string>, vals: seq<Value>, cleans: seq<bool>) {
    && |keys| == |vals| == |parts| == |cleans|
    && forall j :: 0 <= j < |parts| ==> ReadsEntry(parts[j], keys[j], vals[j], cleans[j])
  }

  lemma {:induction false} EntriesRead(
    keys: seq<string>, vals: seq<Value>, parts: seq<string>, cleans: seq<bool>, k: nat, rest: Text)
    requires AllEntriesRead(parts, keys, vals, cleans) && Distinct(keys) && k < |parts|
    ensures ReadEntries(PartsText(parts, SEP, k, Char(' ', Char('}', rest))))
         == Answer(All(cleans, k), From(keys, vals, k), rest)
    decreases |parts| - k
  {
    hide ReadEntries, ReadEntry;
    assert ReadsEntry(parts[k], keys[k], vals[k], cleans[k]);
    var t := PartsText(parts, SEP, k, Char(' ', Char('}', rest)));
    if k + 1 == |parts| {
      LastEntry(t, keys[k], vals[k], cleans[k], rest);
      assert From(keys, vals, k + 1) == map[];
    } else {
      assert ReadsEntry(parts[k + 1], keys[k + 1], vals[k + 1], cleans[k + 1]);
      var u := PartsText(parts, SEP, k + 1, Char(' ', Char('}', rest)));
      ThenTwo(',', ' ', u);
      MoreEntries(t, keys[k], vals[k], cleans[k], u);
      EntriesRead(keys, vals, parts, cleans, k + 1, rest);
      FromHas(keys, vals, k + 1);
    }
  }

  lemma BracesText(joined: string, rest: Text)
    ensures Then("{ " + joined + " }", rest) == Char('{', Char(' ', Then(joined, Char(' ', Char('}', rest)))))
  {
    ThenAppends("{ " + joined, " }", rest);
    ThenTwo(' ', '}', rest);
    ThenAppends("{ ", joined, Char(' ', Char('}', rest)));
    ThenTwo('{', ' ', Then(joined, Char(' ', Char('}', rest))));
  }

  lemma EmptyTable(rest: Text)
    ensures ReadValue(Char('{', Char(' ', Char(' ', Char('}', rest))))) == At(Table(map[]), rest)
  {
    assert SkipBlanks(Char(' ', Char('}', rest))) == Char('}', rest);
  }

  lemma BraceBegins(t: Text, clean: bool, m: map<string, Value>, rest: Text)
    requires t.Char? && Plain(t.c) && ReadEntries(t) == Answer(clean, m, rest)
    ensures ReadValue(Char('{', Char(' ', t))) == Answer(clean, Table(m), rest)
  {
    assert SkipBlanks(t) == t;
  }

  lemma TableReads(keys: seq<string>, vals: seq<Value>, parts: seq<string>, cleans: seq<bool>)
    requires AllEntriesRead(parts, keys, vals, cleans) && Distinct(keys)
    ensures Reads("{ " + Joined(parts, SEP) + " }", Table(From(keys, vals, 0)), All(cleans, 0))
  {
    var w := "{ " + Joined(parts, SEP) + " }";
    forall rest | Follows(rest)
      ensures ReadValue(Then(w, rest)) == Answer(All(cleans, 0), Table(From(keys, vals, 0)), rest)
    {
      BracesText(Joined(parts, SEP), rest);
      if |parts| == 0 {
        EmptyTable(rest);
      } else {
        JoinedText(parts, SEP, |parts|, Char(' ', Char('}', rest)));
        assert parts[..|parts|] == parts;
        assert ReadsEntry(parts[0], keys[0], vals[0], cleans[0]);
        EntriesRead(keys, vals, parts, cleans, 0, rest);
        BraceBegins(PartsText(parts, SEP, 0, Char(' ', Char('}', rest))), All(cleans, 0), From(keys, vals, 0), rest);
      }
    }
  }

  // Whole values.

  lemma {:induction false} CollectedAre(results: seq<Result<string>>, n: nat)
    requires n <= |results| && Collected(results, n).Ok?
    ensures var parts := Collected(results, n).value;
            |parts| == n && forall i :: 0 <= i < n ==> results[i] == Ok(parts[i])
  {
    if n > 0 {
      CollectedAre(results, n - 1);
    }
  }

  lemma {:induction false} ValueReadsBack(v: Value)
    requires Serialized(v).Ok?
    ensures Reads(Serialized(v).value, v, Clean(v))
    decreases v, 1
  {
    match v
    case Bool(b) => BoolReads(b);
    case Int(n) => IntReads(n);
    case Str(s) => StrReads(s);
    case Array(items) => ArrayReadsBack(v);
    case Table(m) => TableReadsBack(v);
  }

  lemma {:induction false} ArrayReadsBack(v: Value)
    requires v.Array? && Serialized(v).Ok?
    ensures Reads(Serialized(v).value, v, Clean(v))
    decreases v, 0
  {
    var items, results := v.items, ItemResults(v);
    CollectedAre(results, |items|);
    var parts := Collected(results, |items|).value;
    var cleans := seq(|items|, i requires 0 <= i < |items| => Clean(items[i]));
    forall j | 0 <= j < |items|
      ensures Reads(parts[j], items[j], cleans[j])
    {
      assert results[j] == Serialized(items[j]);
      ValueReadsBack(items[j]);
    }
    ArrayReads(items, parts, cleans);
    assert Clean(v) == All(cleans, 0);
  }

  lemma FromAll(m: map<string, Value>, keys: seq<string>, vals: seq<Value>)
    requires Distinct(keys) && (forall x :: x in keys <==> x in m)
    requires |vals| == |keys| && forall j :: 0 <= j < |keys| ==> vals[j] == m[keys[j]]
    ensures From(keys, vals, 0) == m
  {
    FromHas(keys, vals, 0);
    assert keys[0..] == keys;
    forall x | x in m
      ensures From(keys, vals, 0)[x] == m[x]
    {
      var j :| 0 <= j < |keys| && keys[j] == x;
    }
  }

  /** What the serialised entries are. */
  lemma EntryParts(v: Value, keys: seq<string>) returns (parts: seq<string>)
    requires v.Table? && keys == SortedKeys(v.entries.Keys) && Serialized(v).Ok?
    ensures |parts| == |keys| && Serialized(v).value == "{ " + Joined(parts, SEP) + " }"
    ensures forall k :: k in keys <==> k in v.entries
    ensures forall j :: 0 <= j < |keys| ==> Ok(parts[j]) == Entry(keys[j], Serialized(v.entries[keys[j]]))
  {
    SortedKeysAre(v.entries.Keys);
    var results := EntryResults(v, keys);
    CollectedAre(results, |keys|);
    parts := Collected(results, |keys|).value;
    forall j | 0 <= j < |keys|
      ensures Ok(parts[j]) == Entry(keys[j], Serialized(v.entries[keys[j]]))
    {
      assert results[j] == Ok(parts[j]);
    }
  }

  ghost predicate CleanEntry(m: map<string, Value>, key: string)
    requires key in m
  {
    TextClean(key) && Clean(m[key])
  }

  lemma {:induction false} EntryReadsBack(v: Value, key: string, part: string)
    requires v.Table? && key in v.entries && Entry(key, Serialized(v.entries[key])) == Ok(part)
    ensures ReadsEntry(part, key, v.entries[key], CleanEntry(v.entries, key))
    decreases v, 0, 0
  {
    var x := v.entries[key];
    ValueReadsBack(x);
    EntryReads(key, Serialized(x).value, x, Clean(x));
  }

  lemma {:induction false} TableReadsBack(v: Value)
    requires v.Table? && Serialized(v).Ok?
    ensures Reads(Serialized(v).value, v, Clean(v))
    decreases v, 0, 1
  {
    var m, keys := v.entries, SortedKeys(v.entries.Keys);
    var parts := EntryParts(v, keys);
    SortedKeysAre(m.Keys);
    var vals := seq(|keys|, i requires 0 <= i < |keys| => assert keys[i] in keys; m[keys[i]]);
    var cleans := seq(|keys|, i requires 0 <= i < |keys| => assert keys[i] in keys; CleanEntry(m, keys[i]));
    forall j | 0 <= j < |keys|
      ensures ReadsEntry(parts[j], keys[j], vals[j], cleans[j])
    {
      EntryReadsBack(v, keys[j], parts[j]);
    }
    TableReads(keys, vals, parts, cleans);
    FromAll(m, keys, vals);
    CleanIsAll(m, keys, cleans);
  }

  lemma CleanIsAll(m: map<string, Value>, keys: seq<string>, cleans: seq<bool>)
    requires (forall x :: x in keys <==> x in m) && |cleans| == |keys|
    requires forall j :: 0 <= j < |keys| ==> cleans[j] == CleanEntry(m, keys[j])
    ensures Clean(Table(m)) == All(cleans, 0)
  {
    if All(cleans, 0) {
      forall x | x in m
        ensures TextClean(x) && Clean(m[x])
      {
        var j :| 0 <= j < |keys| && keys[j] == x;
        assert cleans[j];
      }
    } else {
      var j :| 0 <= j < |cleans| && !cleans[j];
      assert keys[j] in m;
    }
  }

  /**
    Whatever is written is read back as the same value exactly when no string and no key in it
    holds a control character other than a tab; otherwise the text is not TOML at all.
   */
  lemma RoundTrip(v: Value)
    requires Serialized(v).Ok?
    ensures Read(Serialized(v).value) == if Clean(v) then Some(v) else None
  {
    var w := Serialized(v).value;
    ValueReadsBack(v);
    assert ReadValue(Then(w, End)) == Answer(Clean(v), v, End);
    assert SkipBlanks(Then(w, End)) == Then(w, End);
  }

  /** A newline is written as it is between the quotes, and no reader may take that for a string. */
  lemma NewlineIsLost()
    ensures Serialized(Str("\n")) == Ok("\"\n\"") && Read("\"\n\"") == None
  {
    var v := Str("\n");
    assert IsControl("\n"[0]) && !Clean(v);
    TwoPassesAreOne("\n");
    assert Serialized(v).value == "\"\n\"";
    RoundTrip(v);
  }

  lemma {:induction false} EscapingGrows(s: string)
    ensures |Escaped(s)| >= |s|
  {
    if s != "" {
      EscapingGrows(s[1..]);
    }
  }

  /** A key is written bare exactly when it is made of letters, digits, underscores and hyphens. */
  lemma BareIff(key: string)
    ensures FormatTOMLKey(key) == key
       <==> key != "" && forall i :: 0 <= i < |key| ==>
              'a' <= key[i] <= 'z' || 'A' <= key[i] <= 'Z' || '0' <= key[i] <= '9' || key[i] == '_' || key[i] == '-'
    ensures FormatTOMLKey(key) != key ==> FormatTOMLKey(key) == "\"" + Escaped(key) + "\""
  {
    TwoPassesAreOne(key);
    EscapingGrows(key);
  }

  /** An array's error is that of the first item that has one. */
  lemma {:induction false} CollectedError(results: seq<Result<string>>, n: nat, e: string)
    requires n <= |results|
    ensures Collected(results, n) == Err(e)
       <==> exists i :: 0 <= i < n && results[i] == Err(e) && forall j :: 0 <= j < i ==> results[j].Ok?
  {
    if n > 0 {
      CollectedError(results, n - 1, e);
      CollectedOk(results, n - 1);
    }
  }

  lemma ArrayError(items: seq<Value>, e: string)
    ensures Serialized(Array(items)) == Err(e)
       <==> exists i :: 0 <= i < |items| && FirstBad(items, i, e)
  {
    var v := Array(items);
    var results := ItemResults(v);
    assert forall i :: 0 <= i < |items| ==> results[i] == Serialized(items[i]);
    assert Serialized(v) == Around("[", Collected(results, |items|), "]");
    CollectedError(results, |items|, e);
    if i :| 0 <= i < |items| && FirstBad(items, i, e) {
      assert results[i] == Err(e) && forall j :: 0 <= j < i ==> results[j].Ok?;
    }
    if i :| 0 <= i < |items| && results[i] == Err(e) && forall j :: 0 <= j < i ==> results[j].Ok? {
      assert FirstBad(items, i, e);
    }
  }

  ghost predicate FirstBad(items: seq<Value>, i: nat, e: string)
    requires i < |items|
  {
    Serialized(items[i]) == Err(e) && forall j :: 0 <= j < i ==> Serialized(items[j]).Ok?
  }

  ghost predicate FirstBadKey(m: map<string, Value>, k: string, e: string)
    requires k in m
  {
    Serialized(m[k]) == Err(e) && forall j :: j in m && j != k && Leq(j, k) ==> Serialized(m[j]).Ok?
  }

  lemma TableUnfolds(m: map<string, Value>) returns (keys: seq<string>, results: seq<Result<string>>)
    ensures Ascending(keys) && (forall x :: x in keys <==> x in m) && |results| == |keys|
    ensures forall i {:trigger results[i]} :: 0 <= i < |keys| ==> results[i] == Entry(keys[i], Serialized(m[keys[i]]))
    ensures Serialized(Table(m)) == Around("{ ", Collected(results, |keys|), " }")
  {
    keys := SortedKeys(m.Keys);
    SortedKeysAre(m.Keys);
    results := EntryResults(Table(m), keys);
  }

  /** A table's error is that of the first key, in order, whose value has one. */
  lemma TableError(m: map<string, Value>, e: string)
    ensures Serialized(Table(m)) == Err(e) <==> exists k :: k in m && FirstBadKey(m, k, e)
  {
    hide Serialized, Collected, FirstBadKey, Leq;
    var keys, results := TableUnfolds(m);
    CollectedError(results, |keys|, e);
    if k :| k in m && FirstBadKey(m, k, e) {
      KeyIsFirst(m, keys, results, k, e);
    }
    if i :| 0 <= i < |keys| && results[i] == Err(e) && forall j :: 0 <= j < i ==> results[j].Ok? {
      FirstIsKey(m, keys, results, i, e);
    }
  }

  lemma KeyIsFirst(m: map<string, Value>, keys: seq<string>, results: seq<Result<string>>, k: string, e: string)
    requires Ascending(keys) && (forall x :: x in keys <==> x in m) && |results| == |keys|
    requires forall i {:trigger results[i]} :: 0 <= i < |keys| ==> results[i] == Entry(keys[i], Serialized(m[keys[i]]))
    requires k in m && FirstBadKey(m, k, e)
    ensures exists i :: 0 <= i < |keys| && results[i] == Err(e) && forall j :: 0 <= j < i ==> results[j].Ok?
  {
    hide Serialized;
    var i :| 0 <= i < |keys| && keys[i] == k;
    forall j | 0 <= j < i
      ensures results[j].Ok?
    {
      assert keys[j] in keys;
    }
    assert results[i] == Err(e);
  }

  lemma FirstIsKey(m: map<string, Value>, keys: seq<string>, results: seq<Result<string>>, i: nat, e: string)
    requires Ascending(keys) && (forall x :: x in keys <==> x in m) && |results| == |keys|
    requires forall i {:trigger results[i]} :: 0 <= i < |keys| ==> results[i] == Entry(keys[i], Serialized(m[keys[i]]))
    requires i < |keys| && results[i] == Err(e) && forall j :: 0 <= j < i ==> results[j].Ok?
    ensures exists k :: k in m && FirstBadKey(m, k, e)
  {
    hide Serialized;
    assert keys[i] in keys;
    forall j | j in m && j != keys[i] && Leq(j, keys[i])
      ensures Serialized(m[j]).Ok?
    {
      var n :| 0 <= n < |keys| && keys[n] == j;
      if i < n {
        LeqIsAntisymmetric(keys[i], j);
      }
      assert results[n].Ok?;
    }
    assert FirstBadKey(m, keys[i], e);
  }

  lemma ArrayForm(v: Value, parts: seq<string>)
    requires v.Array? && |parts| == |v.items| && forall i :: 0 <= i < |parts| ==> Serialized(v.items[i]) == Ok(parts[i])
    ensures Serialized(v) == Ok("[" + Joined(parts, ", ") + "]")
  {
    var results := ItemResults(v);
    assert forall i :: 0 <= i < |parts| ==> results[i] == Ok(parts[i]);
    CollectedParts(results, parts, |parts|);
  }

  lemma {:induction false} CollectedParts(results: seq<Result<string>>, parts: seq<string>, n: nat)
    requires n <= |parts| == |results| && forall i :: 0 <= i < |parts| ==> results[i] == Ok(parts[i])
    ensures Collected(results, n) == Ok(parts[..n])
    ensures n == |parts| ==> parts[..n] == parts
  {
    if n > 0 {
      CollectedParts(results, parts, n - 1);
      assert parts[..n] == parts[..n - 1] + [parts[n - 1]];
    }
  }

  /** The form of what is written, on a few values. */
  lemma WrittenForm()
    ensures Serialized(Array([Bool(true), Int(-12), Array([])])) == Ok("[true, -12, []]")
    ensures Serialized(Nil) == Err("toml inline: nil values are not supported")
    ensures Serialized(Other) == Err("toml inline: unsupported value type")
  {
    var empty, parts := Array([]), ["true", "-12", "[]"];
    ArrayForm(empty, []);
    assert Joined([], ", ") == "" && "[" + "" + "]" == "[]";
    assert Digits(12) == Digits(1) + [Digit(2)];
    assert Itoa(-12) == "-12";
    var v := Array([Bool(true), Int(-12), empty]);
    assert Serialized(v.items[0]) == Ok(parts[0]);
    assert Serialized(v.items[1]) == Ok(parts[1]);
    ArrayForm(v, parts);
    assert JoinedUpTo(parts, ", ", 2) == "true, -12";
    assert Joined(parts, ", ") == "true, -12, []";
    assert "[" + "true, -12, []" + "]" == "[true, -12, []]";
  }

  lemma WrittenStringForm()
    ensures Serialized(Str("\"\\")) == Ok("\"\\\"\\\\\"")
  {
    var s := "\"\\";
    TwoPassesAreOne(s);
    assert s[1..] == "\\" && s[1..][1..] == "";
    assert Escaped("\\") == "\\\\" && Escaped(s) == "\\\"" + "\\\\";
    assert "\"" + ("\\\"" + "\\\\") + "\"" == "\"\\\"\\\\\"";
  }

  lemma WrittenTableForm()
    ensures Serialized(Table(map["k" := Str("x")])) == Ok("{ k = \"x\" }")
  {
    var one := map["k" := Str("x")];
    assert IsLeast("k", one.Keys) by {
      LeqIsTotal("k", "k");
    }
    SortedBegins(one.Keys, "k");
    assert one.Keys - {"k"} == {};
    var keys := SortedKeys(one.Keys);
    assert keys == ["k"];
    TwoPassesAreOne("x");
    assert Escaped("x") == "x";
    assert EscapeTOMLString("x") == "x" && "\"" + "x" + "\"" == "\"x\"";
    assert Serialized(Str("x")) == Ok("\"x\"");
    assert FormatTOMLKey("k") == "k";
    var results, parts := EntryResults(Table(one), keys), ["k = \"x\""];
    assert results[0] == Entry(keys[0], Serialized(one[keys[0]]));
    assert "k" + " = " + "\"x\"" == parts[0];
    assert results[0] == Ok(parts[0]);
    CollectedParts(results, parts, 1);
    assert Joined(parts, ", ") == parts[0];
    assert "{ " + parts[0] + " }" == "{ k = \"x\" }";
  }

  /** What can be written at all: nothing in it is nil or of another type. */
  ghost predicate Supported(v: Value) {
    match v
    case Nil => false
    case Other => false
    case Array(items) => forall i :: 0 <= i < |items| ==> Supported(items[i])
    case Table(m) => forall k :: k in m ==> Supported(m[k])
    case _ => true
  }

  lemma {:induction false} CollectedOk(results: seq<Result<string>>, n: nat)
    requires n <= |results|
    ensures Collected(results, n).Ok? <==> forall i :: 0 <= i < n ==> results[i].Ok?
  {
    if n > 0 {
      CollectedOk(results, n - 1);
    }
  }

  lemma {:induction false} WrittenIffSupported(v: Value)
    ensures Serialized(v).Ok? <==> Supported(v)
    decreases v, 1
  {
    match v
    case Array(items) =>
      forall i | 0 <= i < |items|
        ensures ItemResults(v)[i].Ok? <==> Supported(items[i])
      {
        WrittenIffSupported(items[i]);
      }
      CollectedOk(ItemResults(v), |items|);
    case Table(m) => TableWrittenIffSupported(v);
    case _ =>
  }

  lemma {:induction false} TableWrittenIffSupported(v: Value)
    requires v.Table?
    ensures Serialized(v).Ok? <==> Supported(v)
    decreases v, 0
  {
    var m, keys := v.entries, SortedKeys(v.entries.Keys);
    SortedKeysAre(m.Keys);
    var results := EntryResults(v, keys);
    CollectedOk(results, |keys|);
    forall i | 0 <= i < |keys|
      ensures keys[i] in m && (results[i].Ok? <==> Supported(m[keys[i]]))
    {
      assert keys[i] in keys;
      WrittenIffSupported(m[keys[i]]);
    }
    if Serialized(v).Ok? {
      forall k | k in m
        ensures Supported(m[k])
      {
        var i :| 0 <= i < |keys| && keys[i] == k;
      }
    }
  }
}
