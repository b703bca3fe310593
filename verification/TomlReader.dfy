/**
  A reader for the values the serialiser writes, after TOML v1.0.0: the String (basic strings),
  Integer (decimal), Boolean, Keys (bare and quoted), Array and Inline Table sections.
  It reads the front of a text and hands on what is left.
 */
module TomlReader {
  import opened Wrappers
  import opened Texts
  import opened Toml

  datatype Parsed<+T> = Fail | At(value: T, rest: Text)

  /** The control characters a basic string must not hold as they are; a tab it may. */
  predicate IsControl(c: char) {
    (c as int <= 0x1F && c as int != 0x09) || c as int == 0x7F
  }

  predicate IsDigit(c: char) {
    '0' <= c <= '9'
  }

  function SkipBlanks(t: Text): (r: Text)
    ensures r.Length() <= t.Length()
  {
    if t.Starts(' ') || t.Starts('\t') then SkipBlanks(t.rest) else t
  }

  /** Between array items newlines are allowed too. */
  function SkipLines(t: Text): (r: Text)
    ensures r.Length() <= t.Length()
  {
    if t.Starts(' ') || t.Starts('\t') || t.Starts('\n') then SkipLines(t.rest)
    else if t.Starts('\r') && t.rest.Starts('\n') then SkipLines(t.rest.rest)
    else t
  }

  /** What is left after the word `w`, if the text begins with it. */
  function AfterWord(t: Text, w: string): (r: Option<Text>)
    ensures r.Some? ==> r.value.Length() + |w| == t.Length()
  {
    if w == "" then Some(t)
    else if t.Starts(w[0]) then AfterWord(t.rest, w[1..])
    else None
  }

  // Strings.

  function HexDigit(c: char): Option<nat> {
    if '0' <= c <= '9' then Some(c as int - '0' as int)
    else if 'a' <= c <= 'f' then Some(c as int - 'a' as int + 10)
    else if 'A' <= c <= 'F' then Some(c as int - 'A' as int + 10)
    else None
  }

  /** `n` hexadecimal digits, which must name a Unicode scalar value. */
  function ReadHex(t: Text, n: nat, acc: nat): (r: Parsed<char>)
    ensures r.At? ==> r.rest.Length() <= t.Length()
    decreases n
  {
    if n == 0 then
      if acc < 0xD800 || 0xE000 <= acc < 0x11_0000 then At(acc as char, t) else Fail
    else if t.End? || HexDigit(t.c).None? then Fail
    else ReadHex(t.rest, n - 1, 16 * acc + HexDigit(t.c).value)
  }

  function ReadEscape(t: Text): (r: Parsed<char>)
    ensures r.At? ==> r.rest.Length() < t.Length()
  {
    if t.End? then Fail
    else if t.c == '"' || t.c == '\\' then At(t.c, t.rest)
    else if t.c == 'b' then At(0x08 as char, t.rest)
    else if t.c == 't' then At('\t', t.rest)
    else if t.c == 'n' then At('\n', t.rest)
    else if t.c == 'f' then At(0x0C as char, t.rest)
    else if t.c == 'r' then At('\r', t.rest)
    else if t.c == 'u' then ReadHex(t.rest, 4, 0)
    else if t.c == 'U' then ReadHex(t.rest, 8, 0)
    else Fail
  }

  function Prepended(c: char, r: Parsed<string>): Parsed<string> {
    match r
    case Fail => Fail
    case At(s, t) => At([c] + s, t)
  }

  /** The rest of a basic string, up to and with its closing quote. */
  function ReadChars(t: Text): (r: Parsed<string>)
    ensures r.At? ==> r.rest.Length() < t.Length()
    decreases t.Length()
  {
    if t.End? || IsControl(t.c) then Fail
    else if t.c == '"' then At("", t.rest)
    else if t.c == '\\' then
      match ReadEscape(t.rest)
      case Fail => Fail
      case At(c, u) => Prepended(c, ReadChars(u))
    else Prepended(t.c, ReadChars(t.rest))
  }

  /** Three quotes would begin a multi-line string, which is not read. */
  function ReadString(t: Text): (r: Parsed<string>)
    ensures r.At? ==> r.rest.Length() < t.Length()
  {
    if !t.Starts('"') then Fail
    else
      var r := ReadChars(t.rest);
      if r.At? && r.value == "" && r.rest.Starts('"') then Fail else r
  }

  /** The longest run of bare-key characters. */
  function ReadBare(t: Text): (r: (string, Text))
    ensures r.1.Length() + |r.0| == t.Length()
  {
    if t.Char? && IsBareChar(t.c) then
      var (s, u) := ReadBare(t.rest);
      ([t.c] + s, u)
    else ("", t)
  }

  function ReadKey(t: Text): (r: Parsed<string>)
    ensures r.At? ==> r.rest.Length() < t.Length()
  {
    var (s, u) := ReadBare(t);
    if s != "" then At(s, u) else ReadString(t)
  }

  // Numbers.

  function ReadDigits(t: Text, acc: nat): (r: (nat, Text))
    ensures r.1.Length() <= t.Length()
  {
    if t.Char? && IsDigit(t.c) then ReadDigits(t.rest, 10 * acc + (t.c as int - '0' as int)) else (acc, t)
  }

  /** A decimal number without leading zeros. */
  function ReadNat(t: Text): (r: Parsed<nat>)
    ensures r.At? ==> r.rest.Length() < t.Length()
  {
    if t.End? || !IsDigit(t.c) || (t.c == '0' && t.rest.Char? && IsDigit(t.rest.c)) then Fail
    else
      var (n, u) := ReadDigits(t.rest, t.c as int - '0' as int);
      At(n, u)
  }

  function ReadInt(t: Text): (r: Parsed<Value>)
    ensures r.At? ==> r.rest.Length() < t.Length()
  {
    if t.Starts('-') || t.Starts('+') then
      match ReadNat(t.rest)
      case Fail => Fail
      case At(n, u) => At(Int(if t.c == '-' then 0 - n else n), u)
    else
      match ReadNat(t)
      case Fail => Fail
      case At(n, u) => At(Int(n), u)
  }

  /** A string, a boolean or an integer. */
  function ReadScalar(t: Text): (r: Parsed<Value>)
    ensures r.At? ==> r.rest.Length() < t.Length()
  {
    if t.Starts('"') then
      match ReadString(t)
      case Fail => Fail
      case At(s, u) => At(Str(s), u)
    else if AfterWord(t, "true").Some? then At(Bool(true), AfterWord(t, "true").value)
    else if AfterWord(t, "false").Some? then At(Bool(false), AfterWord(t, "false").value)
    else ReadInt(t)
  }

  // Values.

  function ReadValue(t: Text): (r: Parsed<Value>)
    ensures r.At? ==> r.rest.Length() < t.Length()
    decreases t.Length(), 0
  {
    if t.Starts('[') then
      match ReadArray(t.rest)
      case Fail => Fail
      case At(items, u) => At(Array(items), u)
    else if t.Starts('{') then
      match ReadTable(t.rest)
      case Fail => Fail
      case At(entries, u) => At(Table(entries), u)
    else ReadScalar(t)
  }

  /** Up to and with the closing bracket. */
  function ReadArray(t: Text): (r: Parsed<seq<Value>>)
    ensures r.At? ==> r.rest.Length() < t.Length()
    decreases t.Length(), 2
  {
    var u := SkipLines(t);
    if u.Starts(']') then At([], u.rest) else ReadItems(u)
  }

  /** One item or more, and the closing bracket; a comma may come before it. */
  function ReadItems(t: Text): (r: Parsed<seq<Value>>)
    ensures r.At? ==> r.rest.Length() < t.Length()
    decreases t.Length(), 1
  {
    match ReadValue(t)
    case Fail => Fail
    case At(v, u) =>
      var k := SkipLines(u);
      if k.Starts(']') then At([v], k.rest)
      else if k.Starts(',') then
        match ReadArray(k.rest)
        case Fail => Fail
        case At(rest, e) => At([v] + rest, e)
      else Fail
  }

  /** Up to and with the closing brace. */
  function ReadTable(t: Text): (r: Parsed<map<string, Value>>)
    ensures r.At? ==> r.rest.Length() < t.Length()
    decreases t.Length(), 3
  {
    var u := SkipBlanks(t);
    if u.Starts('}') then At(map[], u.rest) else ReadEntries(u)
  }

  /** A key, an equals sign and a value. */
  function ReadEntry(t: Text): (r: Parsed<(string, Value)>)
    ensures r.At? ==> r.rest.Length() < t.Length()
    decreases t.Length(), 1
  {
    match ReadKey(t)
    case Fail => Fail
    case At(key, u) =>
      var k := SkipBlanks(u);
      if !k.Starts('=') then Fail
      else
        match ReadValue(SkipBlanks(k.rest))
        case Fail => Fail
        case At(v, e) => At((key, v), e)
  }

  /** One entry or more, no key twice, and the closing brace; no comma comes before it. */
  function ReadEntries(t: Text): (r: Parsed<map<string, Value>>)
    ensures r.At? ==> r.rest.Length() < t.Length()
    decreases t.Length(), 2
  {
    match ReadEntry(t)
    case Fail => Fail
    case At((key, v), u) =>
      var k := SkipBlanks(u);
      if k.Starts('}') then At(map[key := v], k.rest)
      else if k.Starts(',') then
        match ReadEntries(SkipBlanks(k.rest))
        case Fail => Fail
        case At(rest, e) => if key in rest then Fail else At(rest[key := v], e)
      else Fail
  }

  /** The whole text as one value. */
  function Read(s: string): Option<Value> {
    match ReadValue(SkipBlanks(Then(s, End)))
    case Fail => None
    case At(v, t) => if SkipBlanks(t) == End then Some(v) else None
  }
}
