/**
 * Events written out the way servers write them (section 9.2.6 of the WHATWG HTML Living Standard), and what is read
 * back: the other direction of `crates/libsubby/src/proxy/sse.rs:14-133`.
 */
module SseRoundTrip {
  import opened Prelude
  import opened SseFramer
  import opened SsePayload
  import opened Text

  /** One event: its name, and the lines of its data. */
  datatype Event = Event(name: string, lines: seq<string>) {
    function Payload(): string { Join(lines, "\n") }
  }

  predicate BreaksNowhere(line: string) { forall i :: 0 <= i < |line| ==> line[i] != '\r' && line[i] != '\n' }

  /** No line terminator, and nothing the reader trims off its front. */
  predicate IsLine(line: string) {
    && BreaksNowhere(line)
    && (line != "" ==> !IsSpace(line[0]))
  }

  /** An event that can be written a line at a time and whose data trimming leaves alone. */
  predicate Writable(e: Event) {
    && IsLine(e.name) && (forall i :: 0 <= i < |e.lines| ==> IsLine(e.lines[i]))
    && e.Payload() != "" && !IsSpace(e.Payload()[0]) && !IsSpace(e.Payload()[|e.Payload()| - 1])
  }

  predicate IsEol(eol: string) { eol == "\n" || eol == "\r" || eol == "\r\n" }

  function DataLines(lines: seq<string>, eol: string): string {
    if lines == [] then "" else "data: " + (lines[0] + (eol + DataLines(lines[1..], eol)))
  }

  /** The event's name, its data line by line, and a blank line. */
  function Written(e: Event, eol: string): string { "event: " + (e.name + (eol + (DataLines(e.lines, eol) + eol))) }

  function WrittenAll(events: seq<Event>, eol: string): string {
    if events == [] then "" else Written(events[0], eol) + WrittenAll(events[1..], eol)
  }

  /** What of these events reaches the code: all but the end marker. */
  function Told(events: seq<Event>): seq<string> {
    if events == [] then []
    else (if events[0].Payload() == "[DONE]" then [] else [events[0].Payload()]) + Told(events[1..])
  }

  /** A line, its end, and what follows; a lone carriage return must not be followed by a line feed. */
  lemma LineRead(line: string, eol: string, rest: string, data: seq<string>, atEof: bool)
    requires IsEol(eol) && (eol == "\r" ==> rest == "" || rest[0] != '\n')
    requires line != "" && BreaksNowhere(line)
    ensures Events(line + (eol + rest), data, atEof) == Events(rest, data + DataOf(line), atEof)
  {
    hide Emit, DataOf, BreaksNowhere, IsEol, FirstBreak;
    LineSplits(line, eol, rest);
  }

  lemma LineSplits(line: string, eol: string, rest: string)
    requires IsEol(eol) && (eol == "\r" ==> rest == "" || rest[0] != '\n')
    requires line != "" && BreaksNowhere(line)
    ensures var s := line + (eol + rest);
            FirstBreak(s) == |line| < |s| && s[..|line|] == line && AfterLine(s) == rest
  {
    hide FirstBreak;
    var s := line + (eol + rest);
    EolIs(eol, rest);
    assert s[|line|] == (eol + rest)[0];
    assert forall i :: 0 <= i < |line| ==> s[i] == line[i];
    FirstBreakIs(s, |line|);
    BreakLater(line, eol + rest);
    assert s[|line| + |eol|..] == (eol + rest)[|eol|..];
  }

  lemma BreakLater(line: string, more: string)
    requires more != ""
    ensures LineBreakAt(line + more, |line|) == LineBreakAt(more, 0)
  {
    assert (line + more)[|line|] == more[0];
    assert |more| > 1 ==> (line + more)[|line| + 1] == more[1];
  }

  lemma EolIs(eol: string, rest: string)
    requires IsEol(eol) && (eol == "\r" ==> rest == "" || rest[0] != '\n')
    ensures LineBreakAt(eol + rest, 0) == |eol| && (eol + rest)[|eol|..] == rest
  {
  }

  lemma BlankRead(eol: string, rest: string, data: seq<string>, atEof: bool)
    requires IsEol(eol) && (eol == "\r" ==> rest == "" || rest[0] != '\n')
    ensures Events(eol + rest, data, atEof) == Listed(Emit(data)) + Events(rest, [], atEof)
  {
    hide Emit, Events;
    EolIs(eol, rest);
    BlankLine(eol + rest, data, atEof);
  }

  lemma DataLineSays(line: string)
    requires IsLine(line)
    ensures DataOf("data: " + line) == [line]
    ensures "data: " + line != "" && BreaksNowhere("data: " + line)
  {
    hide IsSpace, TrimStart;
    var s := "data: " + line;
    assert s[..5] == DATA && s[5..] == " " + line;
    SpaceTrimmed(line);
  }

  lemma SpaceTrimmed(line: string)
    requires line != "" ==> !IsSpace(line[0])
    ensures TrimStart(" " + line) == line
  {
    assert (" " + line)[1..] == line;
  }

  lemma NameSaysNothing(name: string)
    requires IsLine(name)
    ensures DataOf("event: " + name) == []
    ensures "event: " + name != "" && BreaksNowhere("event: " + name)
  {
    assert ("event: " + name)[0] == 'e';
  }

  lemma {:induction false} DataLinesRead(lines: seq<string>, eol: string, rest: string, data: seq<string>, atEof: bool)
    requires IsEol(eol) && (eol == "\r" ==> rest == "" || rest[0] != '\n')
    requires forall i :: 0 <= i < |lines| ==> IsLine(lines[i])
    ensures Events(DataLines(lines, eol) + rest, data, atEof) == Events(rest, data + lines, atEof)
    decreases |lines|
  {
    hide Events, DataOf, IsLine;
    if lines == [] {
      assert DataLines(lines, eol) + rest == rest && data + lines == data;
    } else {
      var (line, more) := (lines[0], DataLines(lines[1..], eol) + rest);
      DataLineSays(line);
      NotLineFeed(lines[1..], eol, rest);
      Regroup("data: ", line, eol, DataLines(lines[1..], eol), rest);
      LineRead("data: " + line, eol, more, data, atEof);
      DataLinesRead(lines[1..], eol, rest, data + [line], atEof);
      assert data + [line] + lines[1..] == data + lines;
    }
  }

  lemma Regroup(a: string, b: string, c: string, d: string, e: string)
    ensures a + (b + (c + d)) + e == (a + b) + (c + (d + e))
  {
  }

  lemma NotLineFeed(lines: seq<string>, eol: string, rest: string)
    requires eol == "\r" ==> rest == "" || rest[0] != '\n'
    ensures var text := DataLines(lines, eol) + rest;
            eol == "\r" ==> text == "" || text[0] != '\n'
  {
  }

  lemma EmitsPayload(e: Event)
    requires Writable(e)
    ensures Listed(Emit(e.lines)) == Told([e])
  {
    hide Join, Trim, IsLine;
    TrimKept(e.Payload());
    ToldOne(e);
  }

  lemma ToldOne(e: Event)
    ensures Told([e]) == if e.Payload() == "[DONE]" then [] else [e.Payload()]
  {
    hide Join;
    assert [e][1..] == [] && Told([]) == [];
  }

  lemma EventRead(e: Event, eol: string, rest: string, atEof: bool)
    requires Writable(e) && IsEol(eol) && (eol == "\r" ==> rest == "" || rest[0] != '\n')
    ensures Events(Written(e, eol) + rest, [], atEof) == Told([e]) + Events(rest, [], atEof)
  {
    hide Events, DataOf, Emit, IsLine, Told;
    var lines := DataLines(e.lines, eol);
    NameSaysNothing(e.name);
    Regroup("event: ", e.name, eol, lines + eol, rest);
    assert lines + eol + rest == lines + (eol + rest);
    EolStarts(eol, rest);
    NotLineFeed(e.lines, eol, eol + rest);
    LineRead("event: " + e.name, eol, lines + (eol + rest), [], atEof);
    assert [] + DataOf("event: " + e.name) == [];
    DataLinesRead(e.lines, eol, eol + rest, [], atEof);
    assert [] + e.lines == e.lines;
    BlankRead(eol, rest, e.lines, atEof);
    EmitsPayload(e);
  }

  lemma EolStarts(eol: string, rest: string)
    requires IsEol(eol)
    ensures eol == "\r" ==> (eol + rest)[0] != '\n'
  {
  }

  lemma {:induction false} AllRead(events: seq<Event>, eol: string, atEof: bool)
    requires IsEol(eol) && forall i :: 0 <= i < |events| ==> Writable(events[i])
    ensures Events(WrittenAll(events, eol), [], atEof) == Told(events)
  {
    hide Events, Writable, Written;
    if events == [] {
      NothingRead(atEof);
    } else {
      var more := WrittenAll(events[1..], eol);
      AllRead(events[1..], eol, atEof);
      NoLineFeedAhead(events[1..], eol);
      EventRead(events[0], eol, more, atEof);
      ToldStep(events);
    }
  }

  lemma ToldStep(events: seq<Event>)
    requires events != []
    ensures Told(events) == Told([events[0]]) + Told(events[1..])
  {
    assert [events[0]][1..] == [];
  }

  lemma NoLineFeedAhead(events: seq<Event>, eol: string)
    ensures WrittenAll(events, eol) == "" || WrittenAll(events, eol)[0] != '\n'
  {
  }

  lemma NothingRead(atEof: bool)
    ensures Events("", [], atEof) == []
  {
    assert DataOf("") == [];
    NothingToEmit();
  }

  /**
   * Events written with any of the three line ends and cut into chunks anywhere come out of the framer as the
   * payloads they were written from, in order and each once; the end marker alone is not passed on.
   */
  lemma WrittenIsRead(events: seq<Event>, eol: string, chunks: seq<string>)
    requires IsEol(eol) && forall i :: 0 <= i < |events| ==> Writable(events[i])
    requires Concat(chunks) == WrittenAll(events, eol)
    ensures Payloads(Feed(chunks).0) == Told(events)
    ensures Payloads(Finished(Feed(chunks).0, Feed(chunks).1)) == Told(events)
  {
    hide Events, Writable, WrittenAll, Feed, Payloads, Concat, Told;
    PayloadsIgnoreChunking(chunks);
    AllRead(events, eol, false);
    AllRead(events, eol, true);
  }
}
