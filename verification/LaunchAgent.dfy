/**
 * The launch agent's property list and the scan that reads it back, `crates/libsubby/src/service.rs:67-120` and
 * `231-243`.
 */
module LaunchAgent {
  import opened Prelude
  import opened Text

  // ---- Escaping ----

  function Escape(value: string): string {
    Replace(Replace(Replace(value, "&", "&amp;"), "<", "&lt;"), ">", "&gt;")
  }

  function Unescape(value: string): string {
    Replace(Replace(Replace(value, "&lt;", "<"), "&gt;", ">"), "&amp;", "&")
  }

  /** What stands for `c` once `Escape` has run and `stage` of the three replacements of `Unescape` have. */
  function Entity(c: char, stage: nat): string {
    if c == '<' && stage < 1 then "&lt;"
    else if c == '>' && stage < 2 then "&gt;"
    else if c == '&' && stage < 3 then "&amp;"
    else [c]
  }

  function Spelled(s: string, stage: nat): string {
    if s == "" then "" else Entity(s[0], stage) + Spelled(s[1..], stage)
  }

  lemma {:induction false} Unspelled(s: string)
    ensures Spelled(s, 3) == s
  {
    if s != "" {
      Unspelled(s[1..]);
    }
  }

  function EntityAt(stage: nat): string { if stage == 0 then "&lt;" else if stage == 1 then "&gt;" else "&amp;" }

  function CharAt(stage: nat): string { if stage == 0 then "<" else if stage == 1 then ">" else "&" }

  /** Each replacement of `Unescape` decodes its own entity and leaves the others alone. */
  lemma {:induction false} StageDecodes(s: string, stage: nat)
    requires stage < 3
    ensures Replace(Spelled(s, stage), EntityAt(stage), CharAt(stage)) == Spelled(s, stage + 1)
  {
    if s != "" {
      StageDecodes(s[1..], stage);
      var token := Entity(s[0], stage);
      var rest := Spelled(s[1..], stage);
      if token == EntityAt(stage) {
        ReplaceHit(token, rest, CharAt(stage));
      } else {
        ReplaceMiss(token, rest, EntityAt(stage), CharAt(stage));
      }
    }
  }

  /** The text of `s` after the first `n` of the three replacements of `Escape`: `&`, `<`, `>`. */
  function Coded(c: char, n: nat): string {
    if c == '&' && n > 0 then "&amp;"
    else if c == '<' && n > 1 then "&lt;"
    else if c == '>' && n > 2 then "&gt;"
    else [c]
  }

  function CodedText(s: string, n: nat): string {
    if s == "" then "" else Coded(s[0], n) + CodedText(s[1..], n)
  }

  lemma {:induction false} StageEncodes(s: string, n: nat)
    requires n < 3
    ensures var c := if n == 0 then "&" else if n == 1 then "<" else ">";
            var entity := if n == 0 then "&amp;" else if n == 1 then "&lt;" else "&gt;";
            Replace(CodedText(s, n), c, entity) == CodedText(s, n + 1)
  {
    var c := if n == 0 then "&" else if n == 1 then "<" else ">";
    var entity := if n == 0 then "&amp;" else if n == 1 then "&lt;" else "&gt;";
    if s != "" {
      StageEncodes(s[1..], n);
      var token := Coded(s[0], n);
      var rest := CodedText(s[1..], n);
      if token == c {
        ReplaceHit(token, rest, entity);
      } else {
        ReplaceMiss(token, rest, c, entity);
      }
    }
  }

  lemma {:induction false} CodedSpelled(s: string)
    ensures CodedText(s, 0) == s && CodedText(s, 3) == Spelled(s, 0)
  {
    if s != "" {
      CodedSpelled(s[1..]);
    }
  }

  /** The three replacements of `Escape`, one after another, spell every character on its own. */
  lemma EscapeSpells(s: string)
    ensures Escape(s) == Spelled(s, 0)
  {
    hide Replace;
    CodedSpelled(s);
    StageEncodes(s, 0);
    StageEncodes(s, 1);
    StageEncodes(s, 2);
  }

  /** Every string survives, whatever entities it already holds. */
  lemma UnescapeEscape(s: string)
    ensures Unescape(Escape(s)) == s
  {
    hide Replace;
    EscapeSpells(s);
    StageDecodes(s, 0);
    StageDecodes(s, 1);
    StageDecodes(s, 2);
    Unspelled(s);
  }

  ghost predicate NoTag(s: string) { forall i :: 0 <= i < |s| ==> s[i] != '<' }

  lemma EscapedHasNoTag(s: string)
    ensures NoTag(Escape(s))
  {
    EscapeSpells(s);
    SpelledHasNoTag(s);
  }

  lemma {:induction false} SpelledHasNoTag(s: string)
    ensures NoTag(Spelled(s, 0))
  {
    if s != "" {
      SpelledHasNoTag(s[1..]);
    }
  }

  // ---- The file ----

  const KEY := "<key>ProgramArguments</key>"

  const OPEN := "<string>"

  const CLOSE := "</string>"

  /** What comes before the program: no part holds the start of a tag beyond its first character. */
  const HEAD: seq<string> := [
    "<?xml version=\"1.0\" encoding=\"UTF-8\"?>\n",
    "<!DOCTYPE plist PUBLIC ", "\"-//Apple//DTD PLIST 1.0//EN\" ",
    "\"http://www.apple.com/DTDs/", "PropertyList-1.0.dtd\">\n",
    "<plist version=\"1.0\">\n", "<dict>\n\t", "<key>Label", "</key>\n\t", "<string>com.github.anowell.subbier",
    "</string>\n\t"
  ]

  function Tail(errLog: string): string {
    "\n\t<key>RunAtLoad</key>\n\t<true/>\n\t<key>KeepAlive</key>\n\t<false/>\n\t<key>ProcessType</key>\n\t"
    + "<string>Interactive</string>\n\t<key>StandardErrorPath</key>\n\t<string>" + Escape(errLog)
    + "</string>\n</dict>\n</plist>\n"
  }

  function Line(arg: string): string { "\t\t" + OPEN + Escape(arg) + CLOSE + "\n" }

  function ArgLines(args: seq<string>): string { if args == [] then "" else Line(args[0]) + ArgLines(args[1..]) }

  function PlistText(arguments: string, errLog: string): string {
    Concat(HEAD) + (KEY + ("\n\t" + ("<array>" + (("\n" + arguments + "\t") + ("</array>" + Tail(errLog))))))
  }

  method Plist(program: string, args: seq<string>, errLog: string) returns (text: string)
    ensures text == PlistText(ArgLines([program] + args), errLog)
  {
    var programArguments := Line(program);
    var i := 0;
    assert ArgLines([program]) == Line(program) by {
      assert [program][1..] == [];
    }
    assert [program] + args[..0] == [program];
    while i < |args|
      invariant 0 <= i <= |args|
      invariant programArguments == ArgLines([program] + args[..i])
    {
      ArgLinesAppend([program] + args[..i], args[i]);
      assert [program] + args[..i] + [args[i]] == [program] + args[..i + 1];
      programArguments := programArguments + Line(args[i]);
      i := i + 1;
    }
    assert args[..i] == args;
    text := PlistText(programArguments, errLog);
  }

  lemma {:induction false} ArgLinesAppend(args: seq<string>, arg: string)
    ensures ArgLines(args + [arg]) == ArgLines(args) + Line(arg)
  {
    hide Line;
    if args == [] {
      assert args + [arg] == [arg] && [arg][1..] == [];
    } else {
      assert (args + [arg])[1..] == args[1..] + [arg];
      ArgLinesAppend(args[1..], arg);
    }
  }

  // ---- The scan ----

  /** The values of the chunks that close their string. */
  function Values(chunks: seq<string>): seq<string> {
    if chunks == [] then []
    else
      (match SplitOnce(chunks[0], CLOSE) case Some((value, _)) => [Unescape(value)] case None => [])
      + Values(chunks[1..])
  }

  /** The program and arguments a file names. */
  function InstalledProgram(text: string): Option<seq<string>> {
    match SplitOnce(text, KEY)
    case None => None
    case Some((_, after)) =>
      match SplitOnce(after, "<array>")
      case None => None
      case Some((_, list)) =>
        match SplitOnce(list, "</array>")
        case None => None
        case Some((inside, _)) =>
          var values := Values(Split(inside, OPEN)[1..]);
          if values == [] then None else Some(values)
  }

  // ---- Reading back what was printed ----

  /** The pattern is never found in this text, nor across its end. */
  ghost predicate Skips(token: string, pattern: string)
    requires pattern != ""
  {
    forall rest :: SplitOnce(token + rest, pattern) == After(token, SplitOnce(rest, pattern))
  }

  function After(token: string, split: Option<(string, string)>): Option<(string, string)> {
    match split case None => None case Some((before, after)) => Some((token + before, after))
  }

  lemma SkipsAt(token: string, rest: string, pattern: string)
    requires pattern != "" && Skips(token, pattern)
    ensures SplitOnce(token + rest, pattern) == After(token, SplitOnce(rest, pattern))
  {
  }

  lemma {:induction false} SkipsJoined(a: string, b: string, pattern: string)
    requires pattern != "" && Skips(a, pattern) && Skips(b, pattern)
    ensures Skips(a + b, pattern)
  {
    forall rest
      ensures SplitOnce(a + b + rest, pattern) == After(a + b, SplitOnce(rest, pattern))
    {
      JoinedAt(a, b, rest, pattern);
    }
  }

  lemma JoinedAt(a: string, b: string, rest: string, pattern: string)
    requires pattern != "" && Skips(a, pattern) && Skips(b, pattern)
    ensures SplitOnce(a + b + rest, pattern) == After(a + b, SplitOnce(rest, pattern))
  {
    hide SplitOnce, Skips;
    Assoc(a, b, rest);
    SkipsAt(a, b + rest, pattern);
    SkipsAt(b, rest, pattern);
    if SplitOnce(rest, pattern).Some? {
      Assoc(a, b, SplitOnce(rest, pattern).value.0);
    }
  }

  /** Plain text, or a tag that differs from the pattern in its `k`-th character. */
  lemma TagSkips(token: string, pattern: string, k: nat)
    requires pattern != "" && pattern[0] == '<'
    requires forall i :: 1 <= i < |token| ==> token[i] != '<'
    requires token != "" && token[0] == '<' ==> k < |token| && k < |pattern| && token[k] != pattern[k]
    ensures Skips(token, pattern)
  {
    forall rest
      ensures SplitOnce(token + rest, pattern) == After(token, SplitOnce(rest, pattern))
    {
      SplitOnceMiss(token, rest, pattern, k);
    }
  }

  lemma {:induction false} Found(token: string, pattern: string, rest: string)
    requires pattern != "" && Skips(token, pattern)
    ensures SplitOnce(token + (pattern + rest), pattern) == Some((token, rest))
  {
    hide SplitOnce;
    SplitOnceHit(pattern, rest);
    assert token + "" == token;
  }

  lemma {:induction false} PrologSkips()
    ensures forall i :: 0 <= i < 5 ==> Skips(HEAD[i], KEY)
  {
    hide Skips;
    TagSkips(HEAD[0], KEY, 1);
    TagSkips(HEAD[1], KEY, 1);
    TagSkips(HEAD[2], KEY, 1);
    TagSkips(HEAD[3], KEY, 1);
    TagSkips(HEAD[4], KEY, 1);
  }

  lemma {:induction false} LabelSkips()
    ensures forall i :: 5 <= i < |HEAD| ==> Skips(HEAD[i], KEY)
  {
    hide Skips;
    TagSkips(HEAD[5], KEY, 1);
    TagSkips(HEAD[6], KEY, 1);
    TagSkips(HEAD[7], KEY, 5);
    TagSkips(HEAD[8], KEY, 1);
    TagSkips(HEAD[9], KEY, 1);
    TagSkips(HEAD[10], KEY, 1);
  }

  lemma HeadSkips()
    ensures Skips(Concat(HEAD), KEY)
  {
    hide Skips, HEAD;
    PrologSkips();
    LabelSkips();
    PartsSkip(HEAD, KEY);
  }

  lemma {:induction false} PartsSkip(parts: seq<string>, pattern: string)
    requires pattern != "" && forall i :: 0 <= i < |parts| ==> Skips(parts[i], pattern)
    ensures Skips(Concat(parts), pattern)
  {
    if parts == [] {
      forall rest
        ensures SplitOnce("" + rest, pattern) == After("", SplitOnce(rest, pattern))
      {
        assert "" + rest == rest;
        assert SplitOnce(rest, pattern).Some? ==>
          "" + SplitOnce(rest, pattern).value.0 == SplitOnce(rest, pattern).value.0;
      }
    } else {
      PartsSkip(parts[1..], pattern);
      SkipsJoined(parts[0], Concat(parts[1..]), pattern);
    }
  }

  lemma {:induction false} LinesSkip(args: seq<string>)
    ensures Skips(ArgLines(args), "</array>")
  {
    hide Skips, Escape;
    if args == [] {
      TagSkips("", "</array>", 0);
    } else {
      LinesSkip(args[1..]);
      EscapedHasNoTag(args[0]);
      TagSkips("\t\t", "</array>", 0);
      TagSkips(OPEN + Escape(args[0]), "</array>", 1);
      TagSkips(CLOSE + "\n", "</array>", 2);
      SkipsJoined("\t\t", OPEN + Escape(args[0]), "</array>");
      SkipsJoined("\t\t" + (OPEN + Escape(args[0])), CLOSE + "\n", "</array>");
      assert "\t\t" + (OPEN + Escape(args[0])) + (CLOSE + "\n") == Line(args[0]);
      SkipsJoined(Line(args[0]), ArgLines(args[1..]), "</array>");
    }
  }

  /** Cutting the list at every opening tag gives one chunk for each argument, after a first that is dropped. */
  lemma {:induction false} ChunksGiveArgs(lead: string, args: seq<string>)
    requires Skips(lead, OPEN)
    ensures var chunks := Split(lead + ArgLines(args) + "\t", OPEN);
            && chunks != []
            && chunks[0] == lead + (if args == [] then "\t" else "\t\t")
            && Values(chunks[1..]) == args
    decreases |args|
  {
    hide Skips, SplitOnce, Escape, Unescape, Values;
    if args == [] {
      assert lead + ArgLines(args) + "\t" == lead + "\t";
      TagSkips("\t", OPEN, 0);
      SkipsJoined(lead, "\t", OPEN);
      NothingFound(lead + "\t", OPEN);
      NoValues();
      assert [lead + "\t"][1..] == [];
    } else {
      var next := Escape(args[0]) + (CLOSE + "\n");
      var rest := next + ArgLines(args[1..]) + "\t";
      LeadFound(lead, args);
      NextSkips(args[0]);
      ChunksGiveArgs(next, args[1..]);
      var chunks := Split(rest, OPEN);
      ValueFound(args[0], if args[1..] == [] then "\t" else "\t\t");
      assert ([lead + "\t\t"] + chunks)[1..] == chunks;
      ValuesStep(chunks);
    }
  }

  lemma NoValues()
    ensures Values([]) == []
  {
  }

  lemma ValuesStep(chunks: seq<string>)
    requires chunks != []
    ensures Values(chunks)
         == (match SplitOnce(chunks[0], CLOSE) case Some((value, _)) => [Unescape(value)] case None => [])
           + Values(chunks[1..])
  {
  }

  lemma LeadFound(lead: string, args: seq<string>)
    requires Skips(lead, OPEN) && args != []
    ensures SplitOnce(lead + ArgLines(args) + "\t", OPEN)
         == Some((lead + "\t\t", Escape(args[0]) + (CLOSE + "\n") + ArgLines(args[1..]) + "\t"))
  {
    hide Skips, SplitOnce, Escape;
    var rest := Escape(args[0]) + (CLOSE + "\n") + ArgLines(args[1..]) + "\t";
    TagSkips("\t\t", OPEN, 0);
    SkipsJoined(lead, "\t\t", OPEN);
    ArgLinesStep(lead, args);
    Found(lead + "\t\t", OPEN, rest);
  }

  lemma ArgLinesStep(lead: string, args: seq<string>)
    requires args != []
    ensures lead + ArgLines(args) + "\t"
         == (lead + "\t\t") + (OPEN + (Escape(args[0]) + (CLOSE + "\n") + ArgLines(args[1..]) + "\t"))
  {
    hide Escape;
    var value, others := Escape(args[0]), ArgLines(args[1..]);
    assert ArgLines(args) == "\t\t" + OPEN + value + CLOSE + "\n" + others;
    Regroup(lead, "\t\t", OPEN, value, CLOSE, "\n", others, "\t");
  }

  lemma Regroup(a: string, b: string, c: string, d: string, e: string, f: string, g: string, h: string)
    ensures a + (b + c + d + e + f + g) + h == (a + b) + (c + (d + (e + f) + g + h))
  {
  }

  lemma NextSkips(arg: string)
    ensures Skips(Escape(arg) + (CLOSE + "\n"), OPEN)
  {
    hide Skips, SplitOnce, Escape;
    EscapedHasNoTag(arg);
    TagSkips(Escape(arg), OPEN, 0);
    TagSkips(CLOSE + "\n", OPEN, 1);
    SkipsJoined(Escape(arg), CLOSE + "\n", OPEN);
  }

  lemma ValueFound(arg: string, last: string)
    ensures SplitOnce(Escape(arg) + (CLOSE + "\n") + last, CLOSE) == Some((Escape(arg), "\n" + last))
    ensures Unescape(Escape(arg)) == arg
  {
    hide Skips, SplitOnce, Escape, Unescape;
    EscapedHasNoTag(arg);
    TagSkips(Escape(arg), CLOSE, 0);
    assert Escape(arg) + (CLOSE + "\n") + last == Escape(arg) + (CLOSE + ("\n" + last));
    Found(Escape(arg), CLOSE, "\n" + last);
    UnescapeEscape(arg);
  }

  lemma NothingFound(text: string, pattern: string)
    requires pattern != "" && Skips(text, pattern)
    ensures SplitOnce(text, pattern) == None
  {
    assert text + "" == text;
    assert SplitOnce("", pattern) == None;
  }

  /** Scanning a printed agent gives the program and the arguments it was printed for. */
  lemma ScannedBack(program: string, args: seq<string>, errLog: string)
    ensures InstalledProgram(PlistText(ArgLines([program] + args), errLog)) == Some([program] + args)
  {
    hide SplitOnce, Skips, Tail, Concat, ArgLines;
    var all := [program] + args;
    var listed := "\n" + ArgLines(all) + "\t";
    var file := listed + ("</array>" + Tail(errLog));
    HeadSkips();
    Found(Concat(HEAD), KEY, "\n\t" + ("<array>" + file));
    TagSkips("\n\t", "<array>", 0);
    Found("\n\t", "<array>", file);
    TagSkips("\n", "</array>", 0);
    LinesSkip(all);
    TagSkips("\t", "</array>", 0);
    SkipsJoined("\n", ArgLines(all), "</array>");
    SkipsJoined("\n" + ArgLines(all), "\t", "</array>");
    Found(listed, "</array>", Tail(errLog));
    TagSkips("\n", OPEN, 0);
    ChunksGiveArgs("\n", all);
  }
}
