/**
  Splitting a message into chunks of bounded length (go/adapters/telegram/parser.go and,
  the same code again, go/adapters/zalo/parser.go). Strings are byte strings.
 */
module Chunking {
  import opened Wrappers
  import opened Strings

  /** The chunks finished so far, and the one being filled. */
  datatype Packing = Packing(out: seq<string>, buf: string) {
    function All(): seq<string> {
      if buf != "" then out + [buf] else out
    }
  }

  predicate Fits(p: Packing, part: string, limit: int, sep: string) {
    |Candidate(p.buf, part, sep)| <= limit
  }

  /** An empty buffer is overwritten, which is where separators get lost. */
  function Candidate(buf: string, part: string, sep: string): string {
    if buf == "" then part else buf + sep + part
  }

  function Packed(p: Packing, part: string, limit: int, sep: string): Packing {
    if Fits(p, part, limit, sep) then Packing(p.out, Candidate(p.buf, part, sep))
    else Packing(p.All(), part)
  }

  function PackUpTo(parts: seq<string>, limit: int, sep: string, n: nat): Packing
    requires n <= |parts|
  {
    if n == 0 then Packing([], "") else Packed(PackUpTo(parts, limit, sep, n - 1), parts[n - 1], limit, sep)
  }

  function SplitWith(text: string, limit: int, sep: string): seq<string>
    requires sep != ""
  {
    var parts := Split(text, sep);
    PackUpTo(parts, limit, sep, |parts|).All()
  }

  function Min(a: int, b: int): int {
    if a < b then a else b
  }

  /** Slices of `limit` bytes from `i` on; the last may be shorter. */
  function SlicesFrom(s: string, limit: int, i: nat): seq<string>
    requires limit > 0
    decreases |s| - i
  {
    if i >= |s| then [] else [s[i..Min(i + limit, |s|)]] + SlicesFrom(s, limit, i + limit)
  }

  function RefinedOne(chunk: string, limit: int, sep: string): seq<string>
    requires limit > 0
  {
    if |chunk| <= limit then [chunk]
    else if sep == "" then SlicesFrom(chunk, limit, 0)
    else SplitWith(chunk, limit, sep)
  }

  function RefinedUpTo(chunks: seq<string>, limit: int, sep: string, n: nat): seq<string>
    requires limit > 0 && n <= |chunks|
  {
    if n == 0 then [] else RefinedUpTo(chunks, limit, sep, n - 1) + RefinedOne(chunks[n - 1], limit, sep)
  }

  function Refined(chunks: seq<string>, limit: int, sep: string): seq<string>
    requires limit > 0
  {
    RefinedUpTo(chunks, limit, sep, |chunks|)
  }

  function Chunks(text: string, limit: int): Result<seq<string>> {
    if limit <= 0 then Err("limit must be > 0")
    else if text == "" then Ok([])
    else if |text| <= limit then Ok([text])
    else Ok(Refined(Refined(Refined(SplitWith(text, limit, "\n\n"), limit, "\n"), limit, ". "), limit, ""))
  }

  method SplitWithSeparator(text: string, limit: int, sep: string) returns (out: seq<string>)
    requires sep != ""
    ensures out == SplitWith(text, limit, sep)
  {
    var parts := Split(text, sep);
    out := [];
    var buf := "";
    for i := 0 to |parts|
      invariant Packing(out, buf) == PackUpTo(parts, limit, sep, i)
    {
      var candidate := if buf == "" then parts[i] else buf + sep + parts[i];
      if |candidate| <= limit {
        buf := candidate;
        continue;
      }
      if buf != "" {
        out := out + [buf];
      }
      buf := parts[i];
    }
    if buf != "" {
      out := out + [buf];
    }
  }

  method RefineOversized(chunks: seq<string>, limit: int, sep: string) returns (refined: seq<string>)
    requires limit > 0
    ensures refined == Refined(chunks, limit, sep)
  {
    refined := [];
    for k := 0 to |chunks|
      invariant refined == RefinedUpTo(chunks, limit, sep, k)
    {
      var chunk := chunks[k];
      if |chunk| <= limit {
        refined := refined + [chunk];
        continue;
      }
      if sep == "" {
        ghost var before := refined;
        var i := 0;
        while i < |chunk|
          invariant 0 <= i
          invariant refined + SlicesFrom(chunk, limit, i) == before + SlicesFrom(chunk, limit, 0)
        {
          var end := i + limit;
          if end > |chunk| {
            end := |chunk|;
          }
          refined := refined + [chunk[i..end]];
          i := i + limit;
        }
        continue;
      }
      var split := SplitWithSeparator(chunk, limit, sep);
      refined := refined + split;
    }
  }

  method ChunkText(text: string, limit: int) returns (r: Result<seq<string>>)
    ensures r == Chunks(text, limit)
  {
    if limit <= 0 {
      return Err("limit must be > 0");
    }
    if text == "" {
      return Ok([]);
    }
    if |text| <= limit {
      return Ok([text]);
    }
    var chunks := SplitWithSeparator(text, limit, "\n\n");
    chunks := RefineOversized(chunks, limit, "\n");
    chunks := RefineOversized(chunks, limit, ". ");
    chunks := RefineOversized(chunks, limit, "");
    return Ok(chunks);
  }
}
