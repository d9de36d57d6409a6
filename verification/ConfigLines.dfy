/** A text as lines and back, the way `str::lines` and `join` do it. */
module ConfigLines {
  import opened Prelude
  import opened Text

  predicate OneLine(s: string) { '\n' !in s }

  function FirstNewline(s: string): (p: nat)
    ensures p <= |s|
    ensures forall i :: 0 <= i < p ==> s[i] != '\n'
    ensures p < |s| ==> s[p] == '\n'
  {
    FirstOf(s, (c: char) => c == '\n')
  }

  /** A carriage return before the line feed belongs to the line end. */
  function StripCR(line: string): string {
    if line != "" && line[|line| - 1] == '\r' then line[..|line| - 1] else line
  }

  /** The lines of a text; a last line without a line feed keeps its carriage return. */
  function LinesOf(text: string): seq<string>
    decreases |text|
  {
    if text == "" then []
    else
      var p := FirstNewline(text);
      if p == |text| then [text] else [StripCR(text[..p])] + LinesOf(text[p + 1..])
  }

  function StripAll(lines: seq<string>): (r: seq<string>)
    ensures |r| == |lines| && forall i :: 0 <= i < |r| ==> r[i] == StripCR(lines[i])
  {
    if lines == [] then [] else [StripCR(lines[0])] + StripAll(lines[1..])
  }

  lemma {:induction false} LinesAreLines(text: string)
    ensures forall i :: 0 <= i < |LinesOf(text)| ==> OneLine(LinesOf(text)[i])
    decreases |text|
  {
    if text != "" {
      var p := FirstNewline(text);
      if p < |text| {
        LinesAreLines(text[p + 1..]);
        LedByLine(StripCR(text[..p]), LinesOf(text[p + 1..]));
      }
    }
  }

  lemma LedByLine(line: string, rest: seq<string>)
    requires OneLine(line) && forall i :: 0 <= i < |rest| ==> OneLine(rest[i])
    ensures forall i :: 0 <= i < |[line] + rest| ==> OneLine(([line] + rest)[i])
  {
    hide OneLine;
  }

  lemma NewlineEnds(line: string, rest: string)
    requires OneLine(line)
    ensures FirstNewline(line + "\n" + rest) == |line|
    ensures LinesOf(line + "\n" + rest) == [StripCR(line)] + LinesOf(rest)
  {
    var text := line + "\n" + rest;
    assert text[|line|] == '\n';
    assert forall i :: 0 <= i < |line| ==> text[i] == line[i];
    assert text[..|line|] == line && text[|line| + 1..] == rest;
  }

  /** Lines joined and ended by a line feed read back as themselves, less one carriage return at each end. */
  lemma {:induction false} LinesOfJoin(lines: seq<string>)
    requires lines != [] && forall i :: 0 <= i < |lines| ==> OneLine(lines[i])
    ensures LinesOf(Join(lines, "\n") + "\n") == StripAll(lines)
  {
    hide LinesOf;
    if |lines| == 1 {
      assert Join(lines, "\n") + "\n" == lines[0] + "\n" + "";
      NewlineEnds(lines[0], "");
      NoLines();
      assert lines[1..] == [] && StripAll(lines) == [StripCR(lines[0])];
    } else {
      var rest := Join(lines[1..], "\n") + "\n";
      assert Join(lines, "\n") + "\n" == lines[0] + "\n" + rest;
      NewlineEnds(lines[0], rest);
      LinesOfJoin(lines[1..]);
    }
  }

  lemma NoLines()
    ensures LinesOf("") == []
  {
  }

  // ---- What does not see a carriage return ----

  lemma TrimStartStep(s: string)
    ensures TrimStart(s) == if s != "" && IsSpace(s[0]) then TrimStart(s[1..]) else s
  {
  }

  lemma StripTail(line: string)
    ensures |line| >= 2 ==>
              |StripCR(line)| >= 1 && StripCR(line)[0] == line[0] && StripCR(line)[1..] == StripCR(line[1..])
    ensures |line| == 1 ==> StripCR(line) == if line[0] == '\r' then "" else line
    ensures StripCR("") == ""
  {
    if |line| >= 2 {
      assert line[1..][|line| - 2] == line[|line| - 1];
      assert line[..|line| - 1][1..] == line[1..][..|line| - 2];
    } else if |line| == 1 {
      assert line[..0] == "";
    }
  }

  lemma {:induction false} TrimStartOfStripped(line: string)
    ensures TrimStart(StripCR(line)) == StripCR(TrimStart(line))
    ensures TrimStart(StripCR(line)) == "" <==> TrimStart(line) == ""
  {
    hide TrimStart, StripCR;
    TrimStartStep(line);
    StripTail(line);
    TrimStartStep(StripCR(line));
    if |line| == 1 {
      assert line[1..] == "";
      TrimStartStep("");
    } else if line != "" && IsSpace(line[0]) {
      TrimStartOfStripped(line[1..]);
    }
  }

  lemma TrimOfStripped(line: string)
    ensures Trim(StripCR(line)) == Trim(line)
  {
    TrimStartOfStripped(line);
  }
}
