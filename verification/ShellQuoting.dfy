/**
  Rendering an argument list as one shell command (shellJoin and shellQuote of
  go/internal/orchestrator/daytona_client.go), and a shell's reading of it: word splitting and
  quote removal after POSIX.1-2017 XCU, sections 2.2.1 to 2.2.3 and 2.6.7.
 */
module ShellQuoting {
  import opened Wrappers
  import opened Strings
  import opened Texts

  predicate IsSafe(c: char) {
    'a' <= c <= 'z' || 'A' <= c <= 'Z' || '0' <= c <= '9'
    || c == '_' || c == '-' || c == '/' || c == '.' || c == '=' || c == '@' || c == '+' || c == ':' || c == ','
  }

  predicate AllSafe(s: string) {
    forall i :: 0 <= i < |s| ==> IsSafe(s[i])
  }

  const QUOTE_IN_QUOTES := "'\"'\"'"

  function Quoted(s: string): string {
    if s == "" then "''"
    else if AllSafe(s) then s
    else "'" + ReplaceAll(s, '\'', QUOTE_IN_QUOTES) + "'"
  }

  function QuotedUpTo(argv: seq<string>, n: nat): (parts: seq<string>)
    requires n <= |argv|
    ensures |parts| == n && forall i :: 0 <= i < n ==> parts[i] == Quoted(argv[i])
  {
    if n == 0 then [] else QuotedUpTo(argv, n - 1) + [Quoted(argv[n - 1])]
  }

  function Command(argv: seq<string>): string {
    Joined(QuotedUpTo(argv, |argv|), " ")
  }

  method ShellQuote(s: string) returns (r: string)
    ensures r == Quoted(s)
  {
    if s == "" {
      return "''";
    }
    var safe := true;
    for i := 0 to |s|
      invariant safe
      invariant forall j :: 0 <= j < i ==> IsSafe(s[j])
    {
      if !IsSafe(s[i]) {
        safe := false;
        break;
      }
    }
    if safe {
      return s;
    }
    return "'" + ReplaceAll(s, '\'', QUOTE_IN_QUOTES) + "'";
  }

  method ShellJoin(argv: seq<string>) returns (r: string)
    ensures r == Command(argv)
  {
    var out := [];
    for i := 0 to |argv|
      invariant out == QuotedUpTo(argv, i)
    {
      var q := ShellQuote(argv[i]);
      out := out + [q];
    }
    return Joined(out, " ");
  }

  // The shell's side.

  /** Between words, in a word outside quotes, in single quotes, in double quotes. */
  datatype Mode = Between | Word | Single | Double

  /** Characters that mean something to a shell when they are not quoted. */
  predicate IsSpecial(c: char) {
    || c == '|' || c == '&' || c == ';' || c == '<' || c == '>' || c == '(' || c == ')' || c == '$' || c == '`'
    || c == '*' || c == '?' || c == '[' || c == ']' || c == '#' || c == '~' || c == '%' || c == '!' || c == '{'
    || c == '}' || c == '^' || c == '\n'
  }

  /** What a backslash escapes in double quotes, a newline apart. */
  predicate IsEscapable(c: char) {
    c == '$' || c == '`' || c == '"' || c == '\\'
  }

  /** The words of a command that runs no expansion; none when it would, or when a quote stays open. */
  function Words(t: Text, mode: Mode, word: string): Option<seq<string>>
    decreases t
  {
    match mode
    case Single =>
      if t.End? then None
      else if t.c == '\'' then Words(t.rest, Word, word)
      else Words(t.rest, Single, word + [t.c])
    case Double =>
      if t.End? || t.c == '$' || t.c == '`' then None
      else if t.c == '"' then Words(t.rest, Word, word)
      else if t.c == '\\' && t.rest.Char? && IsEscapable(t.rest.c) then Words(t.rest.rest, Double, word + [t.rest.c])
      else if t.c == '\\' && t.rest.Starts('\n') then Words(t.rest.rest, Double, word)
      else Words(t.rest, Double, word + [t.c])
    case _ =>
      if t.End? then Some(if mode == Word then [word] else [])
      else if t.c == ' ' || t.c == '\t' then
        match Words(t.rest, Between, "")
        case None => None
        case Some(words) => Some(if mode == Word then [word] + words else words)
      else if t.c == '\'' then Words(t.rest, Single, word)
      else if t.c == '"' then Words(t.rest, Double, word)
      else if t.c == '\\' then
        if t.rest.End? then None
        else if t.rest.c == '\n' then Words(t.rest.rest, mode, word)
        else Words(t.rest.rest, Word, word + [t.rest.c])
      else if IsSpecial(t.c) then None
      else Words(t.rest, Word, word + [t.c])
  }

  lemma SafeChar(c: char, t: Text, mode: Mode, word: string)
    requires IsSafe(c) && (mode == Word || mode == Between)
    ensures Words(Char(c, t), mode, word) == Words(t, Word, word + [c])
  {
  }

  lemma {:induction false} SafeReadsBack(s: string, rest: Text, word: string)
    requires AllSafe(s)
    ensures Words(Then(s, rest), Word, word) == Words(rest, Word, word + s)
    decreases |s|
  {
    if s == "" {
      assert word + s == word;
    } else {
      SafeChar(s[0], Then(s[1..], rest), Word, word);
      SafeReadsBack(s[1..], rest, word + [s[0]]);
      assert word + s == word + [s[0]] + s[1..];
    }
  }

  lemma {:induction false} ReplacingGrows(s: string, p: char, w: string)
    requires |w| > 0
    ensures |ReplaceAll(s, p, w)| >= |s|
  {
    if s != "" {
      ReplacingGrows(s[1..], p, w);
    }
  }

  /**
    An argument is written as it is exactly when it is not empty and made of these characters, and in
    quotes otherwise.
   */
  lemma PlainIff(s: string)
    ensures Quoted(s) == s
       <==> s != "" && forall i :: 0 <= i < |s| ==>
              'a' <= s[i] <= 'z' || 'A' <= s[i] <= 'Z' || '0' <= s[i] <= '9' || s[i] == '_' || s[i] == '-'
              || s[i] == '/' || s[i] == '.' || s[i] == '=' || s[i] == '@' || s[i] == '+' || s[i] == ':' || s[i] == ','
    ensures Quoted(s) != s ==>
              |Quoted(s)| >= 2 && Quoted(s)[0] == '\'' && Quoted(s)[|Quoted(s)| - 1] == '\''
  {
    ReplacingGrows(s, '\'', QUOTE_IN_QUOTES);
  }

  /** A quote inside single quotes: they are closed, it is read from double quotes, they open again. */
  lemma QuoteReadsBack(t: Text, word: string)
    ensures Words(Then(QUOTE_IN_QUOTES, t), Single, word) == Words(t, Single, word + "'")
  {
    var u1 := Char('\'', t);
    var u2 := Char('"', u1);
    var u3 := Char('\'', u2);
    assert QUOTE_IN_QUOTES == ['\'', '"'] + (['\'', '"'] + ['\'']);
    ThenAppends(['\'', '"'], ['\'', '"'] + ['\''], t);
    ThenAppends(['\'', '"'], ['\''], t);
    ThenOne('\'', t);
    ThenTwo('\'', '"', u1);
    ThenTwo('\'', '"', u3);
    assert Words(u3, Double, word) == Words(u2, Double, word + "'") == Words(u1, Word, word + "'");
  }

  lemma {:induction false} InQuotesReadsBack(s: string, rest: Text, word: string)
    ensures Words(Then(ReplaceAll(s, '\'', QUOTE_IN_QUOTES), Char('\'', rest)), Single, word)
         == Words(rest, Word, word + s)
    decreases |s|
  {
    if s == "" {
      assert word + s == word;
    } else {
      var tail := ReplaceAll(s[1..], '\'', QUOTE_IN_QUOTES);
      var one := if s[0] == '\'' then QUOTE_IN_QUOTES else [s[0]];
      ThenAppends(one, tail, Char('\'', rest));
      if s[0] == '\'' {
        QuoteReadsBack(Then(tail, Char('\'', rest)), word);
      } else {
        ThenOne(s[0], Then(tail, Char('\'', rest)));
      }
      InQuotesReadsBack(s[1..], rest, word + [s[0]]);
      assert word + s == word + [s[0]] + s[1..];
    }
  }

  lemma InQuotesText(inner: string, rest: Text)
    ensures Then("'" + inner + "'", rest) == Char('\'', Then(inner, Char('\'', rest)))
  {
    ThenAppends("'" + inner, "'", rest);
    ThenOne('\'', rest);
    ThenAppends("'", inner, Char('\'', rest));
    ThenOne('\'', Then(inner, Char('\'', rest)));
  }

  lemma SafeArgument(s: string, rest: Text)
    requires s != "" && AllSafe(s)
    ensures Words(Then(s, rest), Between, "") == Words(rest, Word, s)
  {
    SafeChar(s[0], Then(s[1..], rest), Between, "");
    SafeReadsBack(s[1..], rest, "" + [s[0]]);
    assert "" + [s[0]] + s[1..] == s;
  }

  lemma QuotedArgument(s: string, rest: Text)
    ensures Words(Then("'" + ReplaceAll(s, '\'', QUOTE_IN_QUOTES) + "'", rest), Between, "") == Words(rest, Word, s)
  {
    InQuotesText(ReplaceAll(s, '\'', QUOTE_IN_QUOTES), rest);
    InQuotesReadsBack(s, rest, "");
    assert "" + s == s;
  }

  /** One quoted argument, read from between words, leaves the reader in that word. */
  lemma ArgumentReadsBack(s: string, rest: Text)
    ensures Words(Then(Quoted(s), rest), Between, "") == Words(rest, Word, s)
  {
    if s == "" {
      assert "''" == "'" + ReplaceAll(s, '\'', QUOTE_IN_QUOTES) + "'";
      QuotedArgument(s, rest);
    } else if AllSafe(s) {
      SafeArgument(s, rest);
    } else {
      QuotedArgument(s, rest);
    }
  }

  lemma LastArgument(s: string)
    ensures Words(Then(Quoted(s), End), Between, "") == Some([s])
  {
    ArgumentReadsBack(s, End);
  }

  lemma BlankEndsWord(t: Text, word: string, words: seq<string>)
    requires Words(t, Between, "") == Some(words)
    ensures Words(Char(' ', t), Word, word) == Some([word] + words)
  {
  }

  lemma MoreArguments(s: string, t: Text, words: seq<string>)
    requires Words(t, Between, "") == Some(words)
    ensures Words(Then(Quoted(s), Then(" ", t)), Between, "") == Some([s] + words)
  {
    ThenOne(' ', t);
    ArgumentReadsBack(s, Char(' ', t));
    BlankEndsWord(t, s, words);
  }

  lemma {:induction false} ArgumentsReadBack(argv: seq<string>, parts: seq<string>, k: nat)
    requires k < |argv| == |parts| && forall i :: 0 <= i < |argv| ==> parts[i] == Quoted(argv[i])
    ensures Words(PartsText(parts, " ", k, End), Between, "") == Some(argv[k..])
    decreases |argv| - k
  {
    if k + 1 == |argv| {
      LastArgument(argv[k]);
      assert argv[k..] == [argv[k]];
    } else {
      ArgumentsReadBack(argv, parts, k + 1);
      MoreArguments(argv[k], PartsText(parts, " ", k + 1, End), argv[k + 1..]);
      assert argv[k..] == [argv[k]] + argv[k + 1..];
    }
  }

  /** The form of what is written, on a few arguments. */
  lemma WrittenForm()
    ensures Quoted("") == "''" && Quoted("it's") == "'it'\"'\"'s'"
  {
    var s := "it's";
    assert !IsSafe(s[2]);
    assert s[1..] == "t's" && s[1..][1..] == "'s" && s[1..][1..][1..] == "s" && s[1..][1..][1..][1..] == "";
    assert ReplaceAll("s", '\'', QUOTE_IN_QUOTES) == "s";
    assert ReplaceAll("'s", '\'', QUOTE_IN_QUOTES) == QUOTE_IN_QUOTES + "s";
    assert ReplaceAll(s, '\'', QUOTE_IN_QUOTES) == "it" + (QUOTE_IN_QUOTES + "s");
  }

  lemma WrittenCommandForm()
    ensures Command(["ls", "-l", "/tmp"]) == "ls -l /tmp"
  {
    var argv := ["ls", "-l", "/tmp"];
    PlainIff(argv[0]);
    PlainIff(argv[1]);
    PlainIff(argv[2]);
    hide Quoted;
    assert QuotedUpTo(argv, 3) == argv;
    assert JoinedUpTo(argv, " ", 2) == "ls -l";
  }

  /** A shell that splits and unquotes the command gets the argument list back, whatever it holds. */
  lemma CommandReadsBack(argv: seq<string>)
    ensures Words(Then(Command(argv), End), Between, "") == Some(argv)
  {
    var parts := QuotedUpTo(argv, |argv|);
    if |argv| > 0 {
      JoinedText(parts, " ", |argv|, End);
      assert parts[..|argv|] == parts && argv[0..] == argv;
      ArgumentsReadBack(argv, parts, 0);
    }
  }
}
