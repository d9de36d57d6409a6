/** Shell quoting of one value, `crates/subbier-cli/src/envcmd.rs:199-227`, against the shells' own reading rules. */
module Quoting {
  import opened Prelude
  import opened Text

  predicate IsBareChar(c: char) {
    || 'a' <= c <= 'z' || 'A' <= c <= 'Z' || '0' <= c <= '9'
    || c in "_./:=@%+,-"
  }

  predicate IsBareSafe(value: string) { value != "" && forall i :: 0 <= i < |value| ==> IsBareChar(value[i]) }

  /** Between single quotes, unless bare will do; a single quote steps outside and comes back escaped. */
  function PosixQuote(value: string): string {
    if IsBareSafe(value) then value else "'" + Replace(value, "'", "'\\''") + "'"
  }

  function FishQuote(value: string): string {
    if IsBareSafe(value) then value else "'" + Replace(Replace(value, "\\", "\\\\"), "'", "\\'") + "'"
  }

  function NuQuote(value: string): string { "\"" + Replace(Replace(value, "\\", "\\\\"), "\"", "\\\"") + "\"" }

  // ---- The readers ----

  /**
   * The characters a POSIX shell does not take as themselves outside quotes, or not everywhere (section 2.2 of the
   * POSIX Shell Command Language).
   */
  predicate IsPosixSpecial(c: char) { c in "|&;<>()$`\\\"' \t\n" || c in "*?[#~" }

  /**
   * What a POSIX shell makes of these characters as part of one word (sections 2.2.1 and 2.2.2): inside single
   * quotes everything is itself; outside, a backslash keeps the next character, an ordinary character is itself,
   * and a word with any other special character is not read here.
   */
  function PosixReads(s: string, quoted: bool): Option<string> {
    if s == "" then if quoted then None else Some("")
    else if s[0] == '\'' then PosixReads(s[1..], !quoted)
    else if quoted then Prefixed(s[0], PosixReads(s[1..], true))
    else if s[0] == '\\' then if |s| >= 2 && s[1] != '\n' then Prefixed(s[1], PosixReads(s[2..], false)) else None
    else if IsPosixSpecial(s[0]) then None
    else Prefixed(s[0], PosixReads(s[1..], false))
  }

  /** One word, which the empty text is not. */
  function PosixWord(s: string): Option<string> { if s == "" then None else PosixReads(s, false) }

  /** The characters fish does not take as themselves outside quotes, or not everywhere. */
  predicate IsFishSpecial(c: char) { c in "~$\\*?{}[]()<>^&|;\"'# \t\n" }

  const SELF: string := "%self"

  /**
   * What fish makes of these characters as part of one word: inside single quotes a backslash escapes itself and the
   * quote and is otherwise kept; outside, an ordinary character is itself.
   */
  function FishReads(s: string, quoted: bool): Option<string> {
    if s == "" then if quoted then None else Some("")
    else if s[0] == '\'' then FishReads(s[1..], !quoted)
    else if quoted then
      if s[0] == '\\' && |s| >= 2 && (s[1] == '\\' || s[1] == '\'') then Prefixed(s[1], FishReads(s[2..], true))
      else Prefixed(s[0], FishReads(s[1..], true))
    else if IsFishSpecial(s[0]) then None
    else Prefixed(s[0], FishReads(s[1..], false))
  }

  /** One word; the bare word `%self` is fish's own process id. */
  function FishWord(s: string, pid: string): Option<string> {
    if s == "" then None else if s == SELF then Some(pid) else FishReads(s, false)
  }

  /** A nushell double-quoted string: a backslash escapes itself and the quote. */
  function NuReads(s: string): Option<string> {
    if s == "" then None
    else if s[0] == '"' then if |s| == 1 then Some("") else None
    else if s[0] == '\\' then
      if |s| >= 2 && (s[1] == '\\' || s[1] == '"') then Prefixed(s[1], NuReads(s[2..])) else None
    else Prefixed(s[0], NuReads(s[1..]))
  }

  function NuString(s: string): Option<string> { if s != "" && s[0] == '"' then NuReads(s[1..]) else None }

  // ---- POSIX ----

  lemma BareIsOrdinary(c: char)
    requires IsBareChar(c)
    ensures !IsPosixSpecial(c)
  {
  }

  lemma BareIsOrdinaryInFish(c: char)
    requires IsBareChar(c)
    ensures !IsFishSpecial(c)
  {
  }

  lemma {:induction false} BareReads(s: string)
    requires forall i :: 0 <= i < |s| ==> IsBareChar(s[i])
    ensures PosixReads(s, false) == Some(s) && FishReads(s, false) == Some(s)
  {
    hide IsBareChar, IsPosixSpecial, IsFishSpecial;
    if s != "" {
      BareReads(s[1..]);
      BareIsOrdinary(s[0]);
      BareIsOrdinaryInFish(s[0]);
      QuotesAreSpecial();
      assert [s[0]] + s[1..] == s;
    }
  }

  lemma QuotesAreSpecial()
    ensures IsPosixSpecial('\'') && IsPosixSpecial('\\') && IsFishSpecial('\'')
  {
  }

  /** A quote that closes, an escaped quote, and one that opens again read as the quote. */
  lemma ClosedAndReopened(rest: string)
    ensures PosixReads("'\\''" + rest, true) == Prefixed('\'', PosixReads(rest, true))
  {
    hide IsPosixSpecial;
    var s := "'\\''" + rest;
    var escaped := "\\''" + rest;
    assert s[0] == '\'' && s[1..] == escaped;
    assert escaped[0] == '\\' && escaped[1] == '\'' && escaped[2..] == "'" + rest;
    OpensQuote(rest);
    assert PosixReads(escaped, false) == Prefixed('\'', PosixReads("'" + rest, false));
    assert PosixReads(s, true) == PosixReads(escaped, false);
  }

  lemma {:induction false} QuotedReads(value: string)
    ensures PosixReads(Replace(value, "'", "'\\''") + "'", true) == Some(value)
  {
    hide PosixReads;
    if value == "" {
      OnlyAQuote();
      assert Replace(value, "'", "'\\''") + "'" == "'";
    } else {
      QuotedReads(value[1..]);
      var rest := Replace(value[1..], "'", "'\\''");
      assert value == [value[0]] + value[1..];
      if value[0] == '\'' {
        ReplaceHit("'", value[1..], "'\\''");
        ClosedAndReopened(rest + "'");
        Assoc("'\\''", rest, "'");
      } else {
        ReplaceMiss([value[0]], value[1..], "'", "'\\''");
        Assoc([value[0]], rest, "'");
        OneInside(value[0], rest + "'");
      }
    }
  }

  lemma OnlyAQuote()
    ensures PosixReads("'", true) == Some("")
  {
    assert "'"[1..] == "";
  }

  lemma OneInside(c: char, rest: string)
    requires c != '\''
    ensures PosixReads([c] + rest, true) == Prefixed(c, PosixReads(rest, true))
  {
    assert ([c] + rest)[1..] == rest;
  }

  lemma OpensQuote(rest: string)
    ensures PosixReads("'" + rest, false) == PosixReads(rest, true)
    ensures FishReads("'" + rest, false) == FishReads(rest, true)
  {
    assert ("'" + rest)[1..] == rest;
  }

  /** A POSIX shell reads the quoted value as one word, the value itself. */
  lemma PosixReadsBack(value: string)
    ensures PosixWord(PosixQuote(value)) == Some(value)
  {
    hide PosixReads, FishReads, Replace;
    if IsBareSafe(value) {
      BareReads(value);
    } else {
      QuotedReads(value);
      OpensQuote(Replace(value, "'", "'\\''") + "'");
      Assoc("'", Replace(value, "'", "'\\''"), "'");
    }
  }

  // ---- fish and nushell ----

  lemma {:induction false} FishReadsBackslashed(value: string)
    ensures FishReads(Backslashed(value, '\'') + "'", true) == Some(value)
  {
    hide IsFishSpecial;
    if value == "" {
      assert Backslashed(value, '\'') + "'" == "'" && "'"[1..] == "";
    } else {
      FishReadsBackslashed(value[1..]);
      var rest := Backslashed(value[1..], '\'') + "'";
      assert [value[0]] + value[1..] == value;
      if value[0] == '\\' || value[0] == '\'' {
        assert Backslashed(value, '\'') + "'" == ['\\', value[0]] + rest;
        assert (['\\', value[0]] + rest)[2..] == rest;
      } else {
        assert Backslashed(value, '\'') + "'" == [value[0]] + rest;
        assert ([value[0]] + rest)[1..] == rest;
      }
    }
  }

  /** fish reads the quoted value as one word, the value itself, unless that is `%self`, which is left bare. */
  lemma FishReadsBack(value: string, pid: string)
    requires pid != SELF
    ensures FishWord(FishQuote(value), pid) == Some(value) <==> value != SELF
  {
    hide PosixReads, FishReads, Replace, Backslashed;
    if IsBareSafe(value) {
      BareReads(value);
    } else {
      SelfIsBare();
      ReplaceTwice(value, '\'');
      FishReadsBackslashed(value);
      OpensQuote(Backslashed(value, '\'') + "'");
      Assoc("'", Backslashed(value, '\''), "'");
      assert FishQuote(value)[0] == '\'' && SELF[0] == '%';
    }
  }

  /** The value it fails on: quoted, it stands bare, and fish puts its process id there. */
  lemma SelfIsBare()
    ensures IsBareSafe(SELF) && FishQuote(SELF) == SELF
    ensures forall pid :: FishWord(FishQuote(SELF), pid) == Some(pid)
  {
  }

  /** nushell reads it back by its escapes inside double quotes. */
  lemma NuReadsBack(value: string)
    ensures NuString(NuQuote(value)) == Some(value)
  {
    hide NuReads, Replace, Backslashed;
    ReplaceTwice(value, '"');
    NuReadsBackslashed(value);
    var text := Backslashed(value, '"') + "\"";
    assert ("\"" + text)[1..] == text;
    Assoc("\"", Backslashed(value, '"'), "\"");
  }

  lemma {:induction false} NuReadsBackslashed(value: string)
    ensures NuReads(Backslashed(value, '"') + "\"") == Some(value)
  {
    if value == "" {
      assert Backslashed(value, '"') + "\"" == "\"";
    } else {
      NuReadsBackslashed(value[1..]);
      var rest := Backslashed(value[1..], '"') + "\"";
      assert [value[0]] + value[1..] == value;
      if value[0] == '\\' || value[0] == '"' {
        assert Backslashed(value, '"') + "\"" == ['\\', value[0]] + rest;
        assert (['\\', value[0]] + rest)[2..] == rest;
      } else {
        assert Backslashed(value, '"') + "\"" == [value[0]] + rest;
        assert ([value[0]] + rest)[1..] == rest;
      }
    }
  }
}
