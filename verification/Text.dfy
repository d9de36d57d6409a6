/** The string operations of the standard library the text modules rely on. */
module Text {
  import opened Prelude

  predicate IsSpace(c: char) {
    c == ' ' || c == '\t' || c == '\n' || c == '\r' || c == '\U{0b}' || c == '\U{0c}'
  }

  function TrimStart(s: string): (r: string)
    ensures |r| <= |s|
    ensures r != "" ==> !IsSpace(r[0])
  {
    if s != "" && IsSpace(s[0]) then TrimStart(s[1..]) else s
  }

  function TrimEnd(s: string): (r: string)
    ensures |r| <= |s|
    ensures r != "" ==> !IsSpace(r[|r| - 1])
  {
    if s != "" && IsSpace(s[|s| - 1]) then TrimEnd(s[..|s| - 1]) else s
  }

  lemma TrimStartKept(s: string)
    requires s != "" && !IsSpace(s[0])
    ensures TrimStart(s) == s
  {
  }

  lemma TrimKept(s: string)
    requires s != "" && !IsSpace(s[0]) && !IsSpace(s[|s| - 1])
    ensures Trim(s) == s
  {
  }

  function Trim(s: string): string { TrimEnd(TrimStart(s)) }

  function Join(parts: seq<string>, separator: string): string {
    if parts == [] then ""
    else if |parts| == 1 then parts[0]
    else parts[0] + separator + Join(parts[1..], separator)
  }

  function Prefixed(c: char, rest: Option<string>): Option<string> {
    if rest.Some? then Some([c] + rest.value) else None
  }

  predicate StartsWith(s: string, prefix: string) { |prefix| <= |s| && s[..|prefix|] == prefix }

  /** Replace every occurrence of `pattern`, left to right, never looking again at what was put in. */
  function Replace(s: string, pattern: string, put: string): string
    requires pattern != ""
  {
    if s == "" then ""
    else if StartsWith(s, pattern) then put + Replace(s[|pattern|..], pattern, put)
    else [s[0]] + Replace(s[1..], pattern, put)
  }

  /** What comes before and after the first occurrence of `pattern`. */
  function SplitOnce(s: string, pattern: string): Option<(string, string)>
    requires pattern != ""
    ensures SplitOnce(s, pattern).Some? ==> |SplitOnce(s, pattern).value.1| < |s|
  {
    if StartsWith(s, pattern) then Some(("", s[|pattern|..]))
    else if s == "" then None
    else
      match SplitOnce(s[1..], pattern)
      case None => None
      case Some((before, after)) => Some(([s[0]] + before, after))
  }

  /** The parts between the occurrences of `pattern`. */
  function Split(s: string, pattern: string): seq<string>
    requires pattern != ""
    decreases |s|
  {
    match SplitOnce(s, pattern)
    case None => [s]
    case Some((before, after)) => [before] + Split(after, pattern)
  }

  lemma StartsWithHit(pattern: string, rest: string)
    ensures StartsWith(pattern + rest, pattern) && (pattern + rest)[|pattern|..] == rest
  {
  }

  /** A mismatch at one index is enough. */
  lemma StartsWithMiss(s: string, pattern: string, k: nat)
    requires k < |pattern| && k < |s| && s[k] != pattern[k]
    ensures !StartsWith(s, pattern)
  {
    if |pattern| <= |s| {
      assert s[..|pattern|][k] == s[k];
    }
  }

  // ---- Replacing ----

  lemma ReplaceHit(pattern: string, rest: string, put: string)
    requires pattern != ""
    ensures Replace(pattern + rest, pattern, put) == put + Replace(rest, pattern, put)
  {
    StartsWithHit(pattern, rest);
  }

  /** A stretch of text that holds no beginning of the pattern after its first character is kept. */
  lemma {:induction false} ReplaceMiss(token: string, rest: string, pattern: string, put: string)
    requires |pattern| >= 1
    requires forall i :: 1 <= i < |token| ==> token[i] != pattern[0]
    requires token != "" && token[0] == pattern[0] ==> |token| >= 2 && |pattern| >= 2 && token[1] != pattern[1]
    ensures Replace(token + rest, pattern, put) == token + Replace(rest, pattern, put)
    decreases |token|
  {
    if token == "" {
      assert token + rest == rest;
    } else {
      var s := token + rest;
      StartsWithMiss(s, pattern, if token[0] == pattern[0] then 1 else 0);
      assert s[1..] == token[1..] + rest;
      ReplaceMiss(token[1..], rest, pattern, put);
      assert [token[0]] + (token[1..] + Replace(rest, pattern, put)) == token + Replace(rest, pattern, put);
    }
  }

  /** Every backslash and every `quote` with a backslash before it. */
  function Backslashed(s: string, quote: char): string {
    if s == "" then ""
    else (if s[0] == '\\' || s[0] == quote then ['\\', s[0]] else [s[0]]) + Backslashed(s[1..], quote)
  }

  /** Doubling the backslashes first, then escaping the quotes, escapes each character once. */
  lemma {:induction false} ReplaceTwice(s: string, quote: char)
    requires quote != '\\'
    ensures Replace(Replace(s, "\\", "\\\\"), [quote], ['\\', quote]) == Backslashed(s, quote)
  {
    if s != "" {
      ReplaceTwice(s[1..], quote);
      var rest := Replace(s[1..], "\\", "\\\\");
      assert s == [s[0]] + s[1..];
      if s[0] == '\\' {
        ReplaceHit("\\", s[1..], "\\\\");
        ReplaceMiss("\\\\", rest, [quote], ['\\', quote]);
      } else {
        ReplaceMiss([s[0]], s[1..], "\\", "\\\\");
        if s[0] == quote {
          ReplaceHit([quote], rest, ['\\', quote]);
        } else {
          ReplaceMiss([s[0]], rest, [quote], ['\\', quote]);
        }
      }
    }
  }

  // ---- Splitting ----

  /** Text in which the pattern cannot begin comes before whatever is found. */
  lemma {:induction false} SplitOnceMiss(token: string, rest: string, pattern: string, k: nat)
    requires |pattern| >= 1
    requires forall i :: 1 <= i < |token| ==> token[i] != pattern[0]
    requires token != "" && token[0] == pattern[0] ==> k < |token| && k < |pattern| && token[k] != pattern[k]
    ensures SplitOnce(token + rest, pattern)
         == match SplitOnce(rest, pattern) case None => None case Some((before, after)) => Some((token + before, after))
    decreases |token|
  {
    if token == "" {
      assert token + rest == rest;
      if SplitOnce(rest, pattern).Some? {
        assert "" + SplitOnce(rest, pattern).value.0 == SplitOnce(rest, pattern).value.0;
      }
    } else {
      var s := token + rest;
      StartsWithMiss(s, pattern, if token[0] == pattern[0] then k else 0);
      assert s[1..] == token[1..] + rest;
      SplitOnceMiss(token[1..], rest, pattern, 0);
      if SplitOnce(rest, pattern).Some? {
        var before := SplitOnce(rest, pattern).value.0;
        assert [token[0]] + (token[1..] + before) == token + before;
      }
    }
  }

  lemma SplitOnceHit(pattern: string, rest: string)
    requires pattern != ""
    ensures SplitOnce(pattern + rest, pattern) == Some(("", rest))
  {
    StartsWithHit(pattern, rest);
  }
}
