/**
 * The payloads of a stream: what `data_payload` reads off each frame, against a parser that reads the
 * stream a line at a time (section 9.2.6 of the WHATWG HTML Living Standard).
 */
module SsePayload {
  import opened Prelude
  import opened SseFramer
  import opened Text

  const DATA: string := "data:"

  /** Where the first line terminator begins, or `|s|`. */
  function FirstBreak(s: string): (p: nat)
    ensures p <= |s|
    ensures forall i :: 0 <= i < p ==> !IsBreakChar(s[i])
    ensures p < |s| ==> IsBreakChar(s[p])
  {
    FirstOf(s, IsBreakChar)
  }

  /** The text after the first line terminator. */
  function AfterLine(s: string): (r: string)
    ensures |r| <= |s|
    ensures FirstBreak(s) < |s| ==> |r| < |s|
  {
    s[FirstBreak(s) + LineBreakAt(s, FirstBreak(s))..]
  }

  function SplitLines(s: string): seq<string>
    decreases |s|
  {
    if s == "" then []
    else if FirstBreak(s) == |s| then [s]
    else [s[..FirstBreak(s)]] + SplitLines(AfterLine(s))
  }

  predicate IsData(line: string): (b: bool)
    ensures b ==> |DATA| <= |line|
  {
    DATA <= line
  }

  /** What one line adds to the payload. */
  function DataOf(line: string): seq<string> {
    if IsData(line) then [TrimStart(line[|DATA|..])] else []
  }

  function DataOfLines(lines: seq<string>): seq<string> {
    if lines == [] then [] else DataOf(lines[0]) + DataOfLines(lines[1..])
  }

  /** The payload an event with these data lines has, if any. */
  function Emit(data: seq<string>): Option<string> {
    var payload := Trim(Join(data, "\n"));
    if payload == "" || payload == "[DONE]" then None else Some(payload)
  }

  function PayloadOf(frame: string): Option<string> { Emit(DataOfLines(SplitLines(frame))) }

  function Listed<T>(o: Option<T>): seq<T> {
    match o
    case None => []
    case Some(x) => [x]
  }

  /** The payloads of the frames that have one. */
  function Payloads(frames: seq<string>): seq<string> {
    if frames == [] then [] else Listed(PayloadOf(frames[0])) + Payloads(frames[1..])
  }

  /** The loop over the lines of one frame. */
  method DataPayload(frame: string) returns (payload: Option<string>)
    ensures payload == PayloadOf(frame)
  {
    hide *;
    var text := "";
    var any := false;
    NothingToEmit();
    var rest := frame;
    ghost var data: seq<string> := [];
    while rest != ""
      invariant any <==> data != []
      invariant text == Join(data, "\n")
      invariant data + DataOfLines(SplitLines(rest)) == DataOfLines(SplitLines(frame))
      decreases |rest|
    {
      var line := rest[..FirstBreak(rest)];
      ghost var more := if FirstBreak(rest) == |rest| then "" else AfterLine(rest);
      LinesStep(rest);
      Assoc(data, DataOf(line), DataOfLines(SplitLines(more)));
      if IsData(line) {
        if any {
          text := text + "\n";
        }
        text := text + TrimStart(line[|DATA|..]);
        any := true;
        JoinLast(data, TrimStart(line[|DATA|..]));
      }
      LineAdds(data, line);
      data := data + DataOf(line);
      rest := if FirstBreak(rest) == |rest| then "" else AfterLine(rest);
    }
    NoLines(data);
    PayloadFrom(frame, data);
    text := Trim(text);
    payload := if text == "" || text == "[DONE]" then None else Some(text);
  }

  lemma PayloadFrom(frame: string, data: seq<string>)
    requires data == DataOfLines(SplitLines(frame))
    ensures var text := Trim(Join(data, "\n"));
            PayloadOf(frame) == if text == "" || text == "[DONE]" then None else Some(text)
  {
    hide DataOfLines, SplitLines, Trim, Join;
  }

  lemma LineAdds(data: seq<string>, line: string)
    ensures IsData(line) ==> DATA <= line && data + DataOf(line) == data + [TrimStart(line[|DATA|..])]
    ensures !IsData(line) ==> data + DataOf(line) == data
  {
  }

  lemma NoLines(data: seq<string>)
    ensures data + DataOfLines(SplitLines("")) == data
  {
  }

  lemma {:induction false} LinesStep(s: string)
    requires s != ""
    ensures var more := if FirstBreak(s) == |s| then "" else AfterLine(s);
            DataOfLines(SplitLines(s)) == DataOf(s[..FirstBreak(s)]) + DataOfLines(SplitLines(more))
  {
    if FirstBreak(s) == |s| {
      assert s[..FirstBreak(s)] == s;
    }
  }

  lemma {:induction false} JoinLast(data: seq<string>, x: string)
    ensures Join(data + [x], "\n") == if data == [] then x else Join(data, "\n") + "\n" + x
  {
    if |data| > 1 {
      assert (data + [x])[1..] == data[1..] + [x];
      JoinLast(data[1..], x);
    }
  }

  // ---- The reference ----

  /**
   * One line at a time: CRLF, CR or LF ends a line, a blank line ends an event, other lines add to it.
   * `data` holds the data lines of the event being read; the code also lets an unterminated last
   * event out at the end of the stream, which is what `atEof` says.
   */
  function Events(s: string, data: seq<string>, atEof: bool): seq<string>
    decreases |s|
  {
    if FirstBreak(s) == |s| then
      if atEof then Listed(Emit(data + DataOf(s))) else []
    else if FirstBreak(s) == 0 then
      Listed(Emit(data)) + Events(AfterLine(s), [], atEof)
    else
      Events(AfterLine(s), data + DataOf(s[..FirstBreak(s)]), atEof)
  }

  lemma NothingToEmit()
    ensures Emit([]) == None && DataOf("") == [] && Join([], "\n") == ""
  {
  }

  lemma FirstBreakIs(s: string, p: nat)
    requires p <= |s|
    requires forall i :: 0 <= i < p ==> !IsBreakChar(s[i])
    requires p < |s| ==> IsBreakChar(s[p])
    ensures FirstBreak(s) == p
  {
    var q := FirstBreak(s);
  }

  /** The line a text begins with, and where it ends, do not depend on what follows a later byte. */
  lemma FirstLineKept(x: string, f: string)
    requires FirstBreak(x) < |x| && FirstBreak(x) + LineBreakAt(x, FirstBreak(x)) < |x|
    ensures FirstBreak(x + f) == FirstBreak(x)
    ensures (x + f)[..FirstBreak(x)] == x[..FirstBreak(x)]
    ensures AfterLine(x + f) == AfterLine(x) + f
  {
    var p := FirstBreak(x);
    var b := p + LineBreakAt(x, p);
    FirstBreakIs(x + f, p);
    assert LineBreakAt(x + f, p) == LineBreakAt(x, p);
    assert (x + f)[..p] == x[..p] && (x + f)[b..] == x[b..] + f;
  }

  /** One line of the reference, blank lines included, when a line terminator is there. */
  lemma {:induction false} EventsStep(s: string, data: seq<string>, atEof: bool)
    requires FirstBreak(s) < |s| && (FirstBreak(s) == 0 ==> data == [])
    ensures Events(s, data, atEof) == Events(AfterLine(s), data + DataOf(s[..FirstBreak(s)]), atEof)
  {
    hide Emit;
    if FirstBreak(s) == 0 {
      NothingToEmit();
      assert s[..FirstBreak(s)] == "" && data + DataOf("") == [];
      assert Listed(Emit(data)) + Events(AfterLine(s), [], atEof) == Events(AfterLine(s), [], atEof);
    }
  }

  /** A blank line ends the event. */
  lemma BlankLine(s: string, data: seq<string>, atEof: bool)
    requires LineBreakAt(s, 0) > 0
    ensures Events(s, data, atEof) == Listed(Emit(data)) + Events(s[LineBreakAt(s, 0)..], [], atEof)
  {
    FirstBreakIs(s, 0);
  }

  lemma Slices(x: string, m: nat, k: nat, n: nat)
    requires m <= k <= k + n <= |x|
    ensures x[m..][..k - m] == x[m..k]
    ensures x[..k][m..] == x[m..k]
    ensures x[m..][k - m + n..] == x[k + n..]
  {
  }

  /** The first line of a buffer whose first separator begins at `k`: the separator ends it, or it is inside. */
  lemma LineInFrame(x: string, k: nat)
    requires k < |x| && FirstSeparator(x, 0) == k
    ensures FirstBreak(x) <= k
    ensures FirstBreak(x) + LineBreakAt(x, FirstBreak(x)) < |x|
    ensures FirstBreak(x) == k ==>
              && LineBreakAt(AfterLine(x), 0) > 0
              && SeparatorAt(x, k) == LineBreakAt(x, k) + LineBreakAt(AfterLine(x), 0)
  {
    hide FirstSeparator;
    var p := FirstBreak(x);
    assert SeparatorAt(x, k) > 0;
    NoneBefore(x, 0);
    if p < k {
      LineBefore(x, p, k);
    } else {
      SeparatorShift(x, p + LineBreakAt(x, p), 0);
    }
  }

  /** A line terminator before the first separator ends before it, and no other follows it. */
  lemma LineBefore(x: string, p: nat, k: nat)
    requires p < k < |x| && IsBreakChar(x[p]) && SeparatorAt(x, p) == 0 && SeparatorAt(x, k) > 0
    ensures p + LineBreakAt(x, p) < k
    ensures LineBreakAt(x, p + LineBreakAt(x, p)) == 0
  {
  }

  lemma NoBreakAhead(x: string, b: nat)
    requires b < |x| && LineBreakAt(x, b) == 0
    ensures FirstBreak(x[b..]) > 0
  {
  }

  /** After that line, the same separator closes what is left of the frame. */
  lemma {:induction false} RestOfFrame(x: string, k: nat)
    requires k < |x| && FirstSeparator(x, 0) == k && FirstBreak(x) < k
    ensures var b := FirstBreak(x) + LineBreakAt(x, FirstBreak(x));
            && b < k
            && FirstBreak(x[b..]) > 0
            && FirstSeparator(x[b..], 0) == k - b
            && SeparatorAt(x[b..], k - b) == SeparatorAt(x, k)
            && x[b..][k - b + SeparatorAt(x, k)..] == x[k + SeparatorAt(x, k)..]
            && SplitLines(x[..k]) == [x[..FirstBreak(x)]] + SplitLines(x[b..][..k - b])
  {
    hide FirstSeparator, SeparatorAt, SplitLines, LineBreakAt, FirstBreak;
    NoneBefore(x, 0);
    var p := FirstBreak(x);
    var b := p + LineBreakAt(x, p);
    LineBefore(x, p, k);
    NoBreakAhead(x, b);
    FirstSeparatorIs(x, b, k);
    FirstSeparatorShift(x, b, 0);
    SeparatorShift(x, b, k - b);
    SplitFirst(x, b, k);
    Slices(x, b, k, SeparatorAt(x, k));
  }

  lemma SplitFirst(x: string, b: nat, k: nat)
    requires b == FirstBreak(x) + LineBreakAt(x, FirstBreak(x)) < k <= |x| && FirstBreak(x) < k
    ensures SplitLines(x[..k]) == [x[..FirstBreak(x)]] + SplitLines(x[b..k])
  {
    hide FirstBreak, LineBreakAt, SplitLines;
    var p := FirstBreak(x);
    FirstBreakOfPrefix(x, k);
    BreakInPrefix(x, p, k);
    Slices(x, b, k, 0);
    FirstPartOfSplit(x[..k]);
  }

  lemma {:induction false} FirstBreakOfPrefix(x: string, k: nat)
    requires FirstBreak(x) < k <= |x|
    ensures FirstBreak(x[..k]) == FirstBreak(x)
  {
    if !IsBreakChar(x[0]) {
      assert x[1..][..k - 1] == x[..k][1..];
      FirstBreakOfPrefix(x[1..], k - 1);
    }
  }

  lemma BreakInPrefix(x: string, p: nat, k: nat)
    requires p < k <= |x| && p + LineBreakAt(x, p) < k
    ensures LineBreakAt(x[..k], p) == LineBreakAt(x, p)
    ensures x[..k][..p] == x[..p]
  {
  }

  lemma FirstPartOfSplit(s: string)
    requires FirstBreak(s) < |s|
    ensures SplitLines(s) == [s[..FirstBreak(s)]] + SplitLines(AfterLine(s))
  {
  }

  /**
   * Reading up to the first separator gives the event of that frame; what follows the separator is
   * read as a fresh event. A stray `\n` left by a cut inside the separator is a blank line, and empty.
   */
  lemma {:induction false} EventOfFrame(x: string, k: nat, f: string, data: seq<string>, atEof: bool)
    requires k < |x| && FirstSeparator(x, 0) == k
    requires FirstBreak(x) == 0 ==> data == []
    ensures Events(x + f, data, atEof)
         == Listed(Emit(data + DataOfLines(SplitLines(x[..k])))) + Events(x[k + SeparatorAt(x, k)..] + f, [], atEof)
    decreases |x|
  {
    hide SeparatorAt, SplitLines, DataOf, DataOfLines, Emit, Events, FirstBreak, FirstSeparator, LineBreakAt;
    var p := FirstBreak(x);
    LineInFrame(x, k);
    FirstLineKept(x, f);
    EventsStep(x + f, data, atEof);
    if p == k {
      ClosingLine(x, k, f, data + DataOf(x[..k]), atEof);
      OneLine(x[..k]);
    } else {
      RestOfFrame(x, k);
      var b := p + LineBreakAt(x, p);
      EventOfFrame(x[b..], k - b, f, data + DataOf(x[..p]), atEof);
      var more := SplitLines(x[b..][..k - b]);
      DataOfCons(x[..p], more);
      Assoc(data, DataOf(x[..p]), DataOfLines(more));
    }
  }

  lemma DataOfCons(line: string, lines: seq<string>)
    ensures DataOfLines([line] + lines) == DataOf(line) + DataOfLines(lines)
  {
  }

  lemma {:induction false} OneLine(line: string)
    requires FirstBreak(line) == |line|
    ensures DataOfLines(SplitLines(line)) == DataOf(line)
  {
    if line == "" {
      NothingToEmit();
    } else {
      assert SplitLines(line) == [line];
    }
  }

  /** The second line terminator of the separator ends the event, wherever the cut fell. */
  lemma ClosingLine(x: string, k: nat, f: string, data: seq<string>, atEof: bool)
    requires k < |x| && FirstSeparator(x, 0) == k && FirstBreak(x) == k
    ensures Events(AfterLine(x) + f, data, atEof)
         == Listed(Emit(data)) + Events(x[k + SeparatorAt(x, k)..] + f, [], atEof)
  {
    hide SeparatorAt;
    hide Emit;
    hide Events;
    LineInFrame(x, k);
    var z := AfterLine(x);
    BlankLine(z + f, data, atEof);
    if |z| == 1 && EndsCr(z) && StartsLf(f) {
      BlankLine(f, [], atEof);
      NothingToEmit();
      assert (z + f)[2..] == f[1..];
      assert x[k + SeparatorAt(x, k)..] + f == f;
    } else {
      BreakKept(z, f, 0);
      assert (z + f)[LineBreakAt(z, 0)..] == z[LineBreakAt(z, 0)..] + f;
      assert z[LineBreakAt(z, 0)..] == x[k + SeparatorAt(x, k)..];
    }
  }

  /** Everything framed so far, and everything not framed yet, make up what the reference reads. */
  lemma {:induction false} EventsOfScan(x: string, m: nat, f: string, atEof: bool)
    requires m <= |x|
    ensures Events(x[m..] + f, [], atEof)
         == Payloads(ScanFrom(x, m).frames) + Events(ScanFrom(x, m).rest + f, [], atEof)
    decreases |x| - m
  {
    hide *;
    var k := FirstSeparator(x, m);
    if k == |x| {
      ScanEnd(x, m);
      NoFrames(Events(x[m..] + f, [], atEof));
    } else {
      ScanStep(x, m, k);
      var n := SeparatorAt(x, k);
      FirstSeparatorShift(x, m, 0);
      SeparatorShift(x, m, k - m);
      EventOfFrame(x[m..], k - m, f, [], atEof);
      PayloadIs(x[m..k]);
      Slices(x, m, k, n);
      EventsOfScan(x, k + n, f, atEof);
      var tail := ScanFrom(x, k + n);
      PayloadsCons(x[m..k], tail.frames);
      Assoc(Listed(PayloadOf(x[m..k])), Payloads(tail.frames), Events(tail.rest + f, [], atEof));
    }
  }

  lemma NoFrames(events: seq<string>)
    ensures Payloads([]) + events == events
  {
  }

  lemma PayloadsCons(frame: string, frames: seq<string>)
    ensures Payloads([frame] + frames) == Listed(PayloadOf(frame)) + Payloads(frames)
  {
  }

  lemma {:induction false} PayloadIs(frame: string)
    ensures Listed(PayloadOf(frame)) == Listed(Emit([] + DataOfLines(SplitLines(frame))))
  {
    hide DataOfLines, SplitLines, Emit;
    assert [] + DataOfLines(SplitLines(frame)) == DataOfLines(SplitLines(frame));
  }

  /** The unterminated tail is one event, let out only at the end of the stream. */
  lemma {:induction false} EventOfTail(x: string, data: seq<string>, atEof: bool)
    requires SeparatorFree(x)
    requires x != "" && FirstBreak(x) == 0 ==> data == []
    ensures Events(x, data, atEof)
         == if atEof then Listed(Emit(data + DataOfLines(SplitLines(x)))) else []
    decreases |x|
  {
    hide *;
    var p := FirstBreak(x);
    if p == |x| {
      LastEvent(x, data, atEof);
      OneLine(x);
    } else {
      EventsStep(x, data, atEof);
      TailAfterLine(x);
      EventOfTail(AfterLine(x), data + DataOf(x[..p]), atEof);
      Assoc(data, DataOf(x[..p]), DataOfLines(SplitLines(AfterLine(x))));
    }
  }

  lemma LastEvent(x: string, data: seq<string>, atEof: bool)
    requires FirstBreak(x) == |x|
    ensures Events(x, data, atEof) == if atEof then Listed(Emit(data + DataOf(x))) else []
  {
  }

  lemma {:induction false} TailAfterLine(x: string)
    requires SeparatorFree(x) && FirstBreak(x) < |x|
    ensures SeparatorFree(AfterLine(x))
    ensures AfterLine(x) == "" || FirstBreak(AfterLine(x)) > 0
    ensures DataOfLines(SplitLines(x)) == DataOf(x[..FirstBreak(x)]) + DataOfLines(SplitLines(AfterLine(x)))
  {
    hide DataOfLines, SplitLines, DataOf, FirstBreak, SeparatorAt, LineBreakAt;
    var p := FirstBreak(x);
    var b := p + LineBreakAt(x, p);
    assert SeparatorAt(x, p) == 0;
    RestIsFree(x, b);
    if b < |x| {
      NoBreakAfter(x, p);
      NoBreakAhead(x, b);
    }
    LinesStep(x);
  }

  /** Where no separator begins, no second line terminator follows the first. */
  lemma NoBreakAfter(x: string, p: nat)
    requires p < |x| && IsBreakChar(x[p]) && SeparatorAt(x, p) == 0 && p + LineBreakAt(x, p) < |x|
    ensures LineBreakAt(x, p + LineBreakAt(x, p)) == 0
  {
  }

  lemma {:induction false} PayloadsAppend(a: seq<string>, b: seq<string>)
    ensures Payloads(a + b) == Payloads(a) + Payloads(b)
  {
    hide PayloadOf;
    if a == [] {
      assert a + b == b;
    } else {
      assert (a + b)[1..] == a[1..] + b;
      PayloadsAppend(a[1..], b);
    }
  }

  /** After any chunks, the payloads so far and the events of what is still to come are the stream's. */
  lemma {:induction false} EventsOfFeed(chunks: seq<string>, f: string, atEof: bool)
    ensures Events(Concat(chunks) + f, [], atEof)
         == Payloads(Feed(chunks).0) + Events(Feed(chunks).1 + f, [], atEof)
    ensures SeparatorFree(Feed(chunks).1)
  {
    hide Events, Payloads, Scan, ScanFrom;
    if chunks == [] {
      NoFrames(Events(f, [], atEof));
      assert "" + f == f;
    } else {
      var n := |chunks| - 1;
      var before := Feed(chunks[..n]);
      var c := chunks[n];
      EventsOfFeed(chunks[..n], c + f, atEof);
      ConcatLast(chunks);
      Assoc(Concat(chunks[..n]), c, f);
      Assoc(before.1, c, f);
      EventsOfWhole(before.1 + c, f, atEof);
      var last := Scan(before.1 + c);
      PayloadsAppend(before.0, last.frames);
      Assoc(Payloads(before.0), Payloads(last.frames), Events(last.rest + f, [], atEof));
    }
  }

  lemma EventsOfWhole(x: string, f: string, atEof: bool)
    ensures Events(x + f, [], atEof) == Payloads(Scan(x).frames) + Events(Scan(x).rest + f, [], atEof)
    ensures SeparatorFree(Scan(x).rest)
  {
    EventsOfScan(x, 0, f, atEof);
    ScanSpells(x, 0);
    assert x[0..] == x;
  }

  /**
   * However the stream is cut, the framer and `data_payload` give the payloads of the reference: while
   * it is open, those of the events a blank line has ended; at its end, the unterminated one too.
   */
  lemma PayloadsIgnoreChunking(chunks: seq<string>)
    ensures var (frames, rest) := Feed(chunks);
            && Payloads(frames) == Events(Concat(chunks), [], false)
            && Payloads(Finished(frames, rest)) == Events(Concat(chunks), [], true)
  {
    var (frames, rest) := Feed(chunks);
    assert Concat(chunks) + "" == Concat(chunks) && rest + "" == rest;
    EventsOfFeed(chunks, "", false);
    EventsOfFeed(chunks, "", true);
    EventOfTail(rest, [], false);
    EventOfTail(rest, [], true);
    PayloadsOfTail(rest);
    PayloadsAppend(frames, if rest == "" then [] else [rest]);
  }

  lemma {:induction false} PayloadsOfTail(rest: string)
    ensures Payloads(if rest == "" then [] else [rest]) == Listed(Emit([] + DataOfLines(SplitLines(rest))))
  {
    hide Emit, SplitLines;
    PayloadIs(rest);
    if rest == "" {
      NothingToEmit();
      NoLines([]);
    } else {
      PayloadsCons(rest, []);
      assert [rest] + [] == [rest];
      assert Listed(PayloadOf(rest)) + Payloads([]) == Listed(PayloadOf(rest));
    }
  }
}
