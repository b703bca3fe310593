/**
  Serialising a value as inline TOML (go/internal/clibackend/codex_toml.go).
  A character is a Unicode scalar value; every integer width of the source is one Int.
 */
module Toml {
  import opened Wrappers
  import opened Strings

  /** `Other` stands for the types the serialiser refuses. */
  datatype Value =
    | Nil
    | Other
    | Bool(b: bool)
    | Int(n: int)
    | Str(s: string)
    | Array(items: seq<Value>)
    | Table(entries: map<string, Value>)

  const NIL_ERROR := "toml inline: nil values are not supported"
  const TYPE_ERROR := "toml inline: unsupported value type"

  ghost predicate IsLeast(k: string, keys: set<string>) {
    k in keys && forall j :: j in keys ==> Leq(k, j)
  }

  lemma {:induction false} LeastExists(keys: set<string>)
    requires keys != {}
    ensures exists k :: IsLeast(k, keys)
  {
    var k :| k in keys;
    var rest := keys - {k};
    LeqIsTotal(k, k);
    if rest == {} {
      assert keys == {k};
      assert IsLeast(k, keys);
    } else {
      LeastExists(rest);
      var j :| IsLeast(j, rest);
      LeqIsTotal(j, k);
      if Leq(j, k) {
        assert IsLeast(j, keys);
      } else {
        forall x | x in rest
          ensures Leq(k, x)
        {
          LeqIsTransitive(k, j, x);
        }
        assert IsLeast(k, keys);
      }
    }
  }

  ghost function LeastOf(keys: set<string>): (k: string)
    requires keys != {}
    ensures IsLeast(k, keys)
  {
    LeastExists(keys);
    var k :| IsLeast(k, keys);
    k
  }

  ghost function SortedKeys(keys: set<string>): seq<string>
    decreases |keys|
  {
    if keys == {} then [] else [LeastOf(keys)] + SortedKeys(keys - {LeastOf(keys)})
  }

  /** Each key once, in order. */
  ghost predicate Ascending(r: seq<string>) {
    forall i, j :: 0 <= i < j < |r| ==> r[i] != r[j] && Leq(r[i], r[j])
  }

  lemma {:induction false} SortedKeysAre(keys: set<string>)
    ensures var r := SortedKeys(keys); Ascending(r) && forall k :: k in r <==> k in keys
    decreases |keys|
  {
    if keys != {} {
      var k := LeastOf(keys);
      SortedKeysAre(keys - {k});
      AscendingCons(k, SortedKeys(keys - {k}), keys);
    }
  }

  lemma AscendingCons(k: string, rest: seq<string>, keys: set<string>)
    requires IsLeast(k, keys) && Ascending(rest) && forall x :: x in rest <==> x in keys - {k}
    ensures Ascending([k] + rest) && forall x :: x in [k] + rest <==> x in keys
  {
    var all := [k] + rest;
    forall i, j | 0 <= i < j < |all|
      ensures all[i] != all[j] && Leq(all[i], all[j])
    {
      assert all[j] == rest[j - 1] && rest[j - 1] in rest;
    }
  }

  lemma SortedBegins(keys: set<string>, k: string)
    requires IsLeast(k, keys)
    ensures SortedKeys(keys) == [k] + SortedKeys(keys - {k})
  {
    LeqIsAntisymmetric(k, LeastOf(keys));
  }

  /** Ranging over a map's keys and sorting them. */
  method SortKeys(keys: set<string>) returns (r: seq<string>)
    ensures r == SortedKeys(keys)
  {
    r := [];
    var todo := keys;
    while todo != {}
      invariant r + SortedKeys(todo) == SortedKeys(keys)
      decreases |todo|
    {
      var k := Least(todo);
      SortedBegins(todo, k);
      ghost var rest := SortedKeys(todo - {k});
      assert r + ([k] + rest) == r + [k] + rest;
      todo := todo - {k};
      r := r + [k];
    }
  }

  method Least(keys: set<string>) returns (k: string)
    requires keys != {}
    ensures IsLeast(k, keys)
  {
    k :| k in keys;
    LeqIsTotal(k, k);
    var todo := keys - {k};
    while todo != {}
      invariant todo <= keys && k in keys
      invariant forall j :: j in keys && j !in todo ==> Leq(k, j)
      decreases |todo|
    {
      var j :| j in todo;
      LeqIsTotal(k, j);
      if !Leq(k, j) {
        forall x | x in keys && x !in todo
          ensures Leq(j, x)
        {
          LeqIsTransitive(j, k, x);
        }
        LeqIsTotal(j, j);
        k := j;
      }
      todo := todo - {j};
    }
  }

  // Strings and keys.

  /** The backslashes first, then the quotes. */
  function EscapeTOMLString(s: string): string {
    ReplaceAll(ReplaceAll(s, '\\', "\\\\"), '"', "\\\"")
  }

  function EscapedChar(c: char): string {
    if c == '\\' then "\\\\" else if c == '"' then "\\\"" else [c]
  }

  /** Character by character, in one pass. */
  function Escaped(s: string): string {
    if s == "" then "" else EscapedChar(s[0]) + Escaped(s[1..])
  }

  /** The second pass never touches what the first one wrote. */
  lemma {:induction false} TwoPassesAreOne(s: string)
    ensures EscapeTOMLString(s) == Escaped(s)
  {
    if s != "" {
      TwoPassesAreOne(s[1..]);
      var rest := ReplaceAll(s[1..], '\\', "\\\\");
      if s[0] == '\\' {
        assert "\\\\" + rest == ['\\'] + (['\\'] + rest);
        ReplaceChar('\\', ['\\'] + rest, '"', "\\\"");
        ReplaceChar('\\', rest, '"', "\\\"");
        assert ['\\'] + (['\\'] + ReplaceAll(rest, '"', "\\\"")) == "\\\\" + ReplaceAll(rest, '"', "\\\"");
      } else {
        ReplaceChar(s[0], rest, '"', "\\\"");
      }
    }
  }

  predicate IsBareChar(c: char) {
    'a' <= c <= 'z' || 'A' <= c <= 'Z' || '0' <= c <= '9' || c == '_' || c == '-'
  }

  predicate IsBare(key: string) {
    key != "" && forall i :: 0 <= i < |key| ==> IsBareChar(key[i])
  }

  function Quoted(s: string): string {
    "\"" + EscapeTOMLString(s) + "\""
  }

  function FormatTOMLKey(key: string): string {
    if IsBare(key) then key else Quoted(key)
  }

  // Numbers.

  function Digit(d: nat): char
    requires d < 10
  {
    ('0' as int + d) as char
  }

  function Digits(n: nat): string {
    if n < 10 then [Digit(n)] else Digits(n / 10) + [Digit(n % 10)]
  }

  function Itoa(n: int): string {
    if n < 0 then "-" + Digits(-n) else Digits(n)
  }

  // Values.

  /** The values of the first `n` results, or the first error among them. */
  function Collected(results: seq<Result<string>>, n: nat): Result<seq<string>>
    requires n <= |results|
  {
    if n == 0 then Ok([])
    else
      match Collected(results, n - 1)
      case Err(e) => Err(e)
      case Ok(parts) =>
        match results[n - 1]
        case Err(e) => Err(e)
        case Ok(s) => Ok(parts + [s])
  }

  lemma {:induction false} FirstErrorStays(results: seq<Result<string>>, n: nat, m: nat)
    requires n <= m <= |results| && Collected(results, n).Err?
    ensures Collected(results, m) == Collected(results, n)
  {
    if n < m {
      FirstErrorStays(results, n, m - 1);
    }
  }

  function Around(open: string, r: Result<seq<string>>, close: string): Result<string> {
    match r
    case Ok(parts) => Ok(open + Joined(parts, ", ") + close)
    case Err(e) => Err(e)
  }

  function Entry(key: string, r: Result<string>): Result<string> {
    match r
    case Ok(s) => Ok(FormatTOMLKey(key) + " = " + s)
    case Err(e) => Err(e)
  }

  ghost function Serialized(v: Value): Result<string>
    decreases v, 1
  {
    match v
    case Nil => Err(NIL_ERROR)
    case Other => Err(TYPE_ERROR)
    case Bool(b) => Ok(if b then "true" else "false")
    case Int(n) => Ok(Itoa(n))
    case Str(s) => Ok(Quoted(s))
    case Array(items) => Around("[", Collected(ItemResults(v), |items|), "]")
    case Table(m) =>
      var keys := SortedKeys(m.Keys);
      SortedKeysAre(m.Keys);
      Around("{ ", Collected(EntryResults(v, keys), |keys|), " }")
  }

  ghost function ItemResults(v: Value): (r: seq<Result<string>>)
    requires v.Array?
    ensures |r| == |v.items|
    decreases v, 0
  {
    seq(|v.items|, i requires 0 <= i < |v.items| => Serialized(v.items[i]))
  }

  ghost function EntryResults(v: Value, keys: seq<string>): (r: seq<Result<string>>)
    requires v.Table? && forall k :: k in keys ==> k in v.entries
    ensures |r| == |keys|
    decreases v, 0
  {
    seq(|keys|, i requires 0 <= i < |keys| => Entry(keys[i], Serialized(v.entries[keys[i]])))
  }

  method SerializeTOMLInlineValue(v: Value) returns (r: Result<string>)
    ensures r == Serialized(v)
    decreases v, 1
  {
    match v {
      case Nil => return Err(NIL_ERROR);
      case Other => return Err(TYPE_ERROR);
      case Bool(b) => return Ok(if b then "true" else "false");
      case Int(n) => return Ok(Itoa(n));
      case Str(s) => return Ok("\"" + EscapeTOMLString(s) + "\"");
      case Array(_) =>
        var parts := SerializeItems(v);
        return Around("[", parts, "]");
      case Table(m) =>
        var keys := SortKeys(m.Keys);
        SortedKeysAre(m.Keys);
        var parts := SerializeEntries(v, keys);
        return Around("{ ", parts, " }");
    }
  }

  method SerializeItems(v: Value) returns (r: Result<seq<string>>)
    requires v.Array?
    ensures r == Collected(ItemResults(v), |v.items|)
    decreases v, 0
  {
    var parts := [];
    for i := 0 to |v.items|
      invariant Collected(ItemResults(v), i) == Ok(parts)
    {
      var s := SerializeTOMLInlineValue(v.items[i]);
      if s.Err? {
        FirstErrorStays(ItemResults(v), i + 1, |v.items|);
        return Err(s.message);
      }
      parts := parts + [s.value];
    }
    return Ok(parts);
  }

  method SerializeEntries(v: Value, keys: seq<string>) returns (r: Result<seq<string>>)
    requires v.Table? && forall k :: k in keys ==> k in v.entries
    ensures r == Collected(EntryResults(v, keys), |keys|)
    decreases v, 0
  {
    ghost var results := EntryResults(v, keys);
    var parts := [];
    for i := 0 to |keys|
      invariant Collected(results, i) == Ok(parts)
    {
      var s := SerializeTOMLInlineValue(v.entries[keys[i]]);
      var entry := Entry(keys[i], s);
      assert results[i] == entry;
      if entry.Err? {
        FirstErrorStays(results, i + 1, |keys|);
        return Err(s.message);
      }
      parts := parts + [entry.value];
    }
    return Ok(parts);
  }
}
