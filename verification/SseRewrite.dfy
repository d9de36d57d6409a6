/** `rewrite_previous_response_id`, and the stream made of rewritten frames. */
module SseRewrite {
  import opened Prelude
  import opened Json
  import opened SseFramer
  import opened SsePayload
  import opened Text

  const PREVIOUS: string := "previous_response_id"

  // ---- What is assumed of the JSON text ----

  /** One line of text that trimming leaves alone and that is not the end marker. */
  predicate IsPayloadText(t: string) {
    && t != "" && t != "[DONE]"
    && Trim(t) == t
    && forall i :: 0 <= i < |t| ==> !IsBreakChar(t[i])
  }

  /** Compact JSON reads back as the value it was written from, and is one line. */
  ghost predicate Lawful(codec: Codec) {
    && (forall v :: WellFormed(v) ==> codec.parse(codec.serialize(v)) == Some(v) && IsPayloadText(codec.serialize(v)))
    && forall t :: codec.parse(t).Some? ==> WellFormed(codec.parse(t).value)
  }

  lemma {:induction false} InsertKeepsWellFormed(fields: seq<(string, Json)>, key: string, value: Json)
    requires WellFormed(Obj(fields)) && WellFormed(value)
    ensures WellFormed(Obj(Insert(fields, key, value)))
    ensures forall p :: p in Insert(fields, key, value) ==> p == (key, value) || p in fields
  {
    if fields != [] && fields[0].0 != key {
      var rest := fields[1..];
      assert forall i :: 0 <= i < |rest| ==> rest[i] == fields[i + 1];
      InsertKeepsWellFormed(rest, key, value);
      var r := Insert(rest, key, value);
      forall j | 0 <= j < |r|
        ensures r[j].0 != fields[0].0
      {
        assert r[j] in r;
      }
    }
  }

  lemma {:induction false} LookupWellFormed(fields: seq<(string, Json)>, key: string)
    requires WellFormed(Obj(fields))
    ensures Lookup(fields, key).Some? ==> WellFormed(Lookup(fields, key).value)
  {
    if fields != [] && fields[0].0 != key {
      assert forall i :: 0 <= i < |fields[1..]| ==> fields[1..][i] == fields[i + 1];
      LookupWellFormed(fields[1..], key);
    }
  }

  // ---- Rewriting ----

  /** The event with the client's id put back into its response, when it has a response object. */
  function Reattached(event: Json, id: string): Option<Json> {
    match event.Get("response")
    case Some(Obj(fields)) => Some(event.With("response", Obj(fields).With(PREVIOUS, Str(id))))
    case _ => None
  }

  function ReattachedPayload(codec: Codec, payload: Option<string>, id: string): Option<Json> {
    if payload.None? then None
    else
      match codec.parse(payload.value)
      case Some(event) => Reattached(event, id)
      case None => None
  }

  /** The first data line becomes `line`, later data lines go, all others stay. */
  function RewriteLines(lines: seq<string>, line: string, replaced: bool): seq<string> {
    if lines == [] then []
    else if !IsData(lines[0]) then [lines[0]] + RewriteLines(lines[1..], line, replaced)
    else if replaced then RewriteLines(lines[1..], line, true)
    else [line] + RewriteLines(lines[1..], line, true)
  }

  function DataLine(codec: Codec, event: Json): string { "data: " + codec.serialize(event) }

  function Rewritten(codec: Codec, frame: string, id: string): string {
    match ReattachedPayload(codec, PayloadOf(frame), id)
    case Some(event) => Join(RewriteLines(SplitLines(frame), DataLine(codec, event), false), "\n")
    case None => frame
  }

  method RewriteFrame(codec: Codec, frame: string, id: string) returns (result: string)
    ensures result == Rewritten(codec, frame, id)
  {
    hide SplitLines, PayloadOf, Join, RewriteLines, Lookup, Insert, IsData;
    var payload := DataPayload(frame);
    if payload == None {
      return frame;
    }
    var parsed := codec.parse(payload.value);
    if parsed == None {
      return frame;
    }
    var event := parsed.value;
    var response := event.Get("response");
    if response == None || !response.value.Obj? {
      return frame;
    }
    var line := DataLine(codec, event.With("response", response.value.With(PREVIOUS, Str(id))));
    var replaced := false;
    var out: seq<string> := [];
    var rest := frame;
    assert RewriteLines(SplitLines(frame), line, false) == [] + RewriteLines(SplitLines(frame), line, false);
    while rest != ""
      invariant RewriteLines(SplitLines(frame), line, false) == out + RewriteLines(SplitLines(rest), line, replaced)
      decreases |rest|
    {
      var current := rest[..FirstBreak(rest)];
      var more := if FirstBreak(rest) == |rest| then "" else AfterLine(rest);
      RewriteStep(rest, line, replaced);
      Assoc(out, [current], RewriteLines(SplitLines(more), line, replaced));
      Assoc(out, [line], RewriteLines(SplitLines(more), line, true));
      if IsData(current) {
        if !replaced {
          replaced := true;
          out := out + [line];
        }
      } else {
        out := out + [current];
      }
      rest := more;
    }
    RewriteNoLines(out, line, replaced);
    result := Join(out, "\n");
  }

  lemma RewriteNoLines(out: seq<string>, line: string, replaced: bool)
    ensures out + RewriteLines(SplitLines(""), line, replaced) == out
  {
  }

  lemma RewriteStep(s: string, line: string, replaced: bool)
    requires s != ""
    ensures var current := s[..FirstBreak(s)];
            var more := if FirstBreak(s) == |s| then "" else AfterLine(s);
            RewriteLines(SplitLines(s), line, replaced)
              == if !IsData(current) then [current] + RewriteLines(SplitLines(more), line, replaced)
                 else if replaced then RewriteLines(SplitLines(more), line, true)
                 else [line] + RewriteLines(SplitLines(more), line, true)
  {
    hide IsData;
    var current := s[..FirstBreak(s)];
    var more := if FirstBreak(s) == |s| then "" else AfterLine(s);
    assert SplitLines(s) == [current] + SplitLines(more) by {
      if FirstBreak(s) == |s| {
        assert current == s;
      }
    }
    assert ([current] + SplitLines(more))[1..] == SplitLines(more);
  }

  // ---- Lines of a frame ----

  predicate BreakFree(line: string) { forall i :: 0 <= i < |line| ==> !IsBreakChar(line[i]) }

  /** What the lines of a frame look like: one line each, none blank but perhaps the first. */
  ghost predicate GoodLines(lines: seq<string>) {
    && (forall i :: 0 <= i < |lines| ==> BreakFree(lines[i]))
    && (forall i :: 1 <= i < |lines| ==> lines[i] != "")
  }

  ghost predicate Complete(lines: seq<string>) {
    GoodLines(lines) && lines != [] && lines[|lines| - 1] != ""
  }

  ghost predicate NoneEmpty(lines: seq<string>) { forall i :: 0 <= i < |lines| ==> lines[i] != "" }

  lemma GoodCons(line: string, rest: seq<string>)
    requires BreakFree(line) && GoodLines(rest) && NoneEmpty(rest)
    ensures GoodLines([line] + rest)
    ensures line != "" ==> NoneEmpty([line] + rest)
  {
    hide BreakFree;
    var lines := [line] + rest;
    assert lines[0] == line && forall i :: 1 <= i < |lines| ==> lines[i] == rest[i - 1];
  }

  lemma {:induction false} LinesOfFrame(frame: string)
    requires SeparatorFree(frame)
    ensures GoodLines(SplitLines(frame))
    ensures FirstBreak(frame) > 0 ==> NoneEmpty(SplitLines(frame))
    decreases |frame|
  {
    hide *;
    SplitStep(frame);
    NoneGood();
    if frame != "" {
      FirstLineIsFree(frame);
      var line := frame[..FirstBreak(frame)];
      if FirstBreak(frame) < |frame| {
        var more := AfterLine(frame);
        TailAfterLine(frame);
        LinesOfFrame(more);
        SplitStep(more);
        GoodCons(line, SplitLines(more));
      } else {
        GoodCons(line, []);
        assert [line] + [] == [line];
      }
    }
  }

  lemma NoneGood()
    ensures GoodLines([]) && NoneEmpty([])
  {
  }

  lemma {:induction false} SplitStep(s: string)
    ensures s == "" ==> SplitLines(s) == []
    ensures s != "" ==>
              SplitLines(s) == [s[..FirstBreak(s)]] + (if FirstBreak(s) == |s| then [] else SplitLines(AfterLine(s)))
  {
    hide AfterLine;
    assert FirstBreak(s) == |s| ==> s[..FirstBreak(s)] == s;
  }

  lemma FirstLineIsFree(s: string)
    ensures BreakFree(s[..FirstBreak(s)])
  {
  }

  lemma JoinCons(line: string, lines: seq<string>)
    requires lines != []
    ensures Join([line] + lines, "\n") == line + "\n" + Join(lines, "\n")
  {
    assert ([line] + lines)[1..] == lines;
  }

  /** Lines joined by `\n` split back into the same lines. */
  lemma {:induction false} SplitOfJoin(lines: seq<string>)
    requires Complete(lines)
    ensures SplitLines(Join(lines, "\n")) == lines
    ensures Join(lines, "\n") != ""
    decreases |lines|
  {
    var s := Join(lines, "\n");
    if |lines| == 1 {
      FirstBreakIs(s, |s|);
    } else {
      var more := lines[1..];
      assert lines == [lines[0]] + more;
      forall i | 0 <= i < |more|
        ensures more[i] == lines[i + 1]
      {
      }
      SplitOfJoin(more);
      JoinCons(lines[0], more);
      FirstBreakIs(s, |lines[0]|);
      assert s[..|lines[0]|] == lines[0];
      assert AfterLine(s) == Join(more, "\n");
    }
  }

  predicate HasData(lines: seq<string>) { exists i :: 0 <= i < |lines| && IsData(lines[i]) }

  /** Rewriting keeps one line a line, and ends with a line that is not blank. */
  lemma {:induction false} RewrittenLines(lines: seq<string>, line: string, replaced: bool)
    requires forall i :: 0 <= i < |lines| ==> BreakFree(lines[i])
    requires BreakFree(line) && IsData(line) && line != ""
    ensures var r := RewriteLines(lines, line, replaced);
            && (forall i :: 0 <= i < |r| ==> BreakFree(r[i]))
            && ((forall i :: 0 <= i < |lines| ==> lines[i] != "") ==> forall i :: 0 <= i < |r| ==> r[i] != "")
            && (!replaced && HasData(lines) ==> r != [])
    decreases |lines|
  {
    if lines != [] {
      var more := lines[1..];
      assert forall i :: 0 <= i < |more| ==> more[i] == lines[i + 1];
      RewrittenLines(more, line, replaced || IsData(lines[0]));
      if HasData(lines) && !IsData(lines[0]) {
        var i :| 0 <= i < |lines| && IsData(lines[i]);
        assert IsData(more[i - 1]);
      }
    }
  }

  lemma RewrittenWhole(lines: seq<string>, line: string)
    requires GoodLines(lines) && HasData(lines)
    requires BreakFree(line) && IsData(line) && line != ""
    ensures Complete(RewriteLines(lines, line, false))
  {
    hide RewriteLines, IsData, BreakFree;
    var more := lines[1..];
    RewriteCons(lines, line);
    assert forall i :: 0 <= i < |more| ==> more[i] == lines[i + 1];
    assert forall i :: 0 <= i < |more| ==> more[i] != "";
    assert forall i :: 0 <= i < |more| ==> BreakFree(more[i]);
    RewrittenLines(more, line, IsData(lines[0]));
    var tail := RewriteLines(more, line, IsData(lines[0]));
    assert forall i :: 0 <= i < |tail| ==> BreakFree(tail[i]);
    assert forall i :: 0 <= i < |tail| ==> tail[i] != "";
    if !IsData(lines[0]) {
      var i :| 0 <= i < |lines| && IsData(lines[i]);
      assert IsData(more[i - 1]);
      CompleteCons(lines[0], tail);
    } else {
      CompleteCons(line, tail);
    }
  }

  lemma RewriteCons(lines: seq<string>, line: string)
    requires lines != []
    ensures RewriteLines(lines, line, false)
         == [if IsData(lines[0]) then line else lines[0]] + RewriteLines(lines[1..], line, IsData(lines[0]))
  {
  }

  lemma CompleteCons(first: string, tail: seq<string>)
    requires BreakFree(first) && (tail == [] ==> first != "")
    requires forall i :: 0 <= i < |tail| ==> BreakFree(tail[i]) && tail[i] != ""
    ensures Complete([first] + tail)
  {
    var all := [first] + tail;
    assert forall i :: 1 <= i < |all| ==> all[i] == tail[i - 1];
  }

  /** The lines that carry no data, in order. */
  function NonData(lines: seq<string>): seq<string> {
    if lines == [] then []
    else (if IsData(lines[0]) then [] else [lines[0]]) + NonData(lines[1..])
  }

  /** Rewriting leaves one data line, keeps every other line in order, and changes nothing a second time. */
  lemma {:induction false} RewriteEffect(lines: seq<string>, line: string, replaced: bool)
    requires IsData(line)
    ensures var r := RewriteLines(lines, line, replaced);
            && NonData(r) == NonData(lines)
            && DataOfLines(r) == (if !replaced && HasData(lines) then DataOf(line) else [])
            && (!replaced ==> RewriteLines(r, line, false) == r)
            && (replaced ==> forall i :: 0 <= i < |r| ==> !IsData(r[i]))
    decreases |lines|
  {
    hide IsData, DataOf;
    if lines != [] {
      var more := lines[1..];
      assert forall i :: 0 <= i < |more| ==> more[i] == lines[i + 1];
      var tail := RewriteLines(more, line, replaced || IsData(lines[0]));
      RewriteEffect(more, line, replaced || IsData(lines[0]));
      DataOfNonData(lines[0]);
      if HasData(lines) && !IsData(lines[0]) {
        var i :| 0 <= i < |lines| && IsData(lines[i]);
        assert IsData(more[i - 1]);
      }
      if HasData(more) {
        var i :| 0 <= i < |more| && IsData(more[i]);
        assert IsData(lines[i + 1]);
      }
      if !IsData(lines[0]) {
        assert ([lines[0]] + tail)[1..] == tail;
      } else if !replaced {
        assert ([line] + tail)[1..] == tail;
        WithoutData(tail, line);
      }
    }
  }

  lemma DataOfNonData(line: string)
    ensures !IsData(line) ==> DataOf(line) == []
  {
  }

  lemma {:induction false} WithoutData(lines: seq<string>, line: string)
    requires forall i :: 0 <= i < |lines| ==> !IsData(lines[i])
    ensures RewriteLines(lines, line, true) == lines
  {
    hide IsData;
    if lines != [] {
      var rest := lines[1..];
      assert lines == [lines[0]] + rest;
      assert forall i :: 0 <= i < |rest| ==> rest[i] == lines[i + 1];
      WithoutData(rest, line);
      assert !IsData(lines[0]);
    }
  }

  lemma {:induction false} PayloadNeedsData(lines: seq<string>)
    ensures DataOfLines(lines) != [] ==> HasData(lines)
  {
    if lines != [] {
      PayloadNeedsData(lines[1..]);
      if DataOfLines(lines[1..]) != [] {
        var i :| 0 <= i < |lines[1..]| && IsData(lines[1..][i]);
        assert IsData(lines[i + 1]);
      }
    }
  }

  // ---- What rewriting a frame does ----

  lemma DataLineIs(codec: Codec, event: Json)
    requires Lawful(codec) && WellFormed(event)
    ensures var line := DataLine(codec, event);
            && line != "" && IsData(line) && BreakFree(line)
            && DataOf(line) == [codec.serialize(event)]
            && Emit(DataOf(line)) == Some(codec.serialize(event))
  {
    hide Trim, Emit;
    var t := codec.serialize(event);
    assert IsPayloadText(t);
    EmitText(t);
    LineOfText(t);
  }

  lemma LineOfText(t: string)
    requires IsPayloadText(t)
    ensures var line := "data: " + t;
            line != "" && IsData(line) && BreakFree(line) && DataOf(line) == [t]
  {
    var line := "data: " + t;
    assert line[|DATA|..] == " " + t;
    TrimmedStart(t);
  }

  lemma EmitText(t: string)
    requires IsPayloadText(t)
    ensures Emit([t]) == Some(t)
  {
  }

  lemma TrimmedStart(t: string)
    requires t != "" && Trim(t) == t
    ensures TrimStart(t) == t && TrimStart(" " + t) == t
  {
    assert (" " + t)[1..] == t;
  }

  lemma ReattachedWellFormed(codec: Codec, payload: Option<string>, id: string)
    requires Lawful(codec)
    ensures ReattachedPayload(codec, payload, id).Some? ==> WellFormed(ReattachedPayload(codec, payload, id).value)
  {
    if ReattachedPayload(codec, payload, id).Some? {
      var event := codec.parse(payload.value).value;
      assert WellFormed(event);
      LookupWellFormed(event.fields, "response");
      var response := event.Get("response").value;
      InsertKeepsWellFormed(response.fields, PREVIOUS, Str(id));
      InsertKeepsWellFormed(event.fields, "response", response.With(PREVIOUS, Str(id)));
    }
  }

  /** Putting the id back a second time changes nothing, and nothing but the id was changed at first. */
  lemma ReattachedOnce(event: Json, id: string, key: string)
    requires Reattached(event, id).Some?
    ensures var after := Reattached(event, id).value;
            && Reattached(after, id) == Some(after)
            && (key != "response" ==> after.Get(key) == event.Get(key))
            && after.Get("response").Some? && after.Get("response").value.Obj?
            && after.Get("response").value.Get(PREVIOUS) == Some(Str(id))
            && (key != PREVIOUS ==> after.Get("response").value.Get(key) == event.Get("response").value.Get(key))
  {
    var response := event.Get("response").value;
    var response1 := response.With(PREVIOUS, Str(id));
    InsertThenLookup(response.fields, PREVIOUS, Str(id), key);
    InsertThenLookup(response.fields, PREVIOUS, Str(id), PREVIOUS);
    InsertThenLookup(event.fields, "response", response1, key);
    InsertThenLookup(event.fields, "response", response1, "response");
  }

  /**
   * On a frame without a separator in it: the payload becomes the event with the id put back, or stays as
   * it was; lines without data stay, in order; and a second rewrite changes nothing.
   */
  lemma RewrittenFrame(codec: Codec, frame: string, id: string)
    requires Lawful(codec) && SeparatorFree(frame)
    ensures var result := Rewritten(codec, frame, id);
            var event := ReattachedPayload(codec, PayloadOf(frame), id);
            && PayloadOf(result) == (if event.Some? then Some(codec.serialize(event.value)) else PayloadOf(frame))
            && NonData(SplitLines(result)) == NonData(SplitLines(frame))
            && Rewritten(codec, result, id) == result
            && (event.Some? ==> Complete(SplitLines(result)) && result == Join(SplitLines(result), "\n"))
  {
    hide PayloadOf, SplitLines, RewriteLines, Join, DataLine, Emit, Lawful, Reattached;
    var event := ReattachedPayload(codec, PayloadOf(frame), id);
    if event.Some? {
      ReattachedWellFormed(codec, PayloadOf(frame), id);
      var line := DataLine(codec, event.value);
      DataLineIs(codec, event.value);
      var lines := SplitLines(frame);
      LinesOfFrame(frame);
      PayloadHasData(frame);
      RewriteEffect(lines, line, false);
      RewrittenWhole(lines, line);
      var r := RewriteLines(lines, line, false);
      SplitOfJoin(r);
      PayloadFromLines(Join(r, "\n"));
      SecondTime(codec, PayloadOf(frame), id);
    }
  }

  lemma PayloadHasData(frame: string)
    requires PayloadOf(frame).Some?
    ensures HasData(SplitLines(frame))
  {
    hide SplitLines;
    NothingToEmit();
    PayloadNeedsData(SplitLines(frame));
  }

  lemma PayloadFromLines(frame: string)
    ensures PayloadOf(frame) == Emit(DataOfLines(SplitLines(frame)))
  {
  }

  lemma {:induction false} SecondTime(codec: Codec, payload: Option<string>, id: string)
    requires Lawful(codec) && ReattachedPayload(codec, payload, id).Some?
    ensures var event := ReattachedPayload(codec, payload, id).value;
            ReattachedPayload(codec, Some(codec.serialize(event)), id) == Some(event)
  {
    ReattachedWellFormed(codec, payload, id);
    ReattachedOnce(codec.parse(payload.value).value, id, "");
  }

  // ---- The rewritten stream ----

  /** A frame as the framer gives it: no separator in it, and no line terminator at its end. */
  ghost predicate FramerFrame(frame: string) {
    SeparatorFree(frame) && (frame != "" ==> !IsBreakChar(frame[|frame| - 1]))
  }

  lemma {:induction false} FramesAreFramed(buf: string, m: nat)
    requires m <= |buf|
    ensures forall i :: 0 <= i < |ScanFrom(buf, m).frames| ==> FramerFrame(ScanFrom(buf, m).frames[i])
    decreases |buf| - m
  {
    hide ScanFrom, SeparatorAt, FirstSeparator, FramerFrame;
    var k := FirstSeparator(buf, m);
    if k == |buf| {
      ScanEnd(buf, m);
    } else {
      ScanStep(buf, m, k);
      NoneBefore(buf, m);
      FramesAreFramed(buf, k + SeparatorAt(buf, k));
      FrameIsFramed(buf, m, k);
    }
  }

  lemma FrameIsFramed(buf: string, m: nat, k: nat)
    requires m <= k < |buf| && SeparatorAt(buf, k) > 0
    requires forall j :: m <= j < k ==> SeparatorAt(buf, j) == 0
    ensures FramerFrame(buf[m..k])
  {
    var frame := buf[m..k];
    if m < k {
      NoBreakBefore(buf, k);
    }
    forall i | 0 <= i < |frame|
      ensures SeparatorAt(frame, i) == 0
    {
      InsideFrame(buf, m, k, i);
    }
  }

  lemma NoBreakBefore(buf: string, k: nat)
    requires 0 < k < |buf| && SeparatorAt(buf, k) > 0 && SeparatorAt(buf, k - 1) == 0
    ensures !IsBreakChar(buf[k - 1])
  {
  }

  lemma InsideFrame(buf: string, m: nat, k: nat, i: nat)
    requires m + i < k < |buf| && SeparatorAt(buf, m + i) == 0
    requires !IsBreakChar(buf[k - 1])
    ensures SeparatorAt(buf[m..k], i) == 0
  {
    var frame := buf[m..k];
    assert forall j :: 0 <= j < |frame| ==> frame[j] == buf[m + j];
  }

  /** Every frame followed by a blank line. */
  function Emitted(frames: seq<string>): string {
    if frames == [] then "" else frames[0] + "\n\n" + Emitted(frames[1..])
  }

  lemma ClosesFrame(frame: string, rest: string)
    requires FramerFrame(frame)
    ensures var s := frame + "\n\n" + rest;
            && FirstSeparator(s, 0) == |frame|
            && SeparatorAt(s, |frame|) == 2
  {
    var s := frame + "\n\n" + rest;
    assert s[|frame|] == '\n' && s[|frame| + 1] == '\n';
    forall j | 0 <= j < |frame|
      ensures SeparatorAt(s, j) == 0
    {
      BeforeBlankLine(frame, rest, j);
    }
    FirstSeparatorIs(s, 0, |frame|);
  }

  lemma BeforeBlankLine(frame: string, rest: string, j: nat)
    requires j < |frame| && !IsBreakChar(frame[|frame| - 1]) && SeparatorAt(frame, j) == 0
    ensures SeparatorAt(frame + "\n\n" + rest, j) == 0
  {
    var s := frame + "\n\n" + rest;
    assert forall i :: 0 <= i < |frame| ==> s[i] == frame[i];
  }

  /** A stream of framed frames splits back into the same frames, with the tail left over. */
  lemma {:induction false} EmittedSplitsBack(frames: seq<string>, tail: string)
    requires forall i :: 0 <= i < |frames| ==> FramerFrame(frames[i])
    requires SeparatorFree(tail)
    ensures Scan(Emitted(frames) + tail).frames == frames
    ensures Scan(Emitted(frames) + tail).rest == tail
  {
    hide ScanFrom, SeparatorAt, FirstSeparator, FramerFrame;
    if frames == [] {
      assert Emitted(frames) + tail == tail;
      FirstSeparatorIs(tail, 0, |tail|);
      ScanEnd(tail, 0);
    } else {
      var f := frames[0];
      var more := Emitted(frames[1..]) + tail;
      var s := f + "\n\n" + more;
      assert Emitted(frames) + tail == s;
      ClosesFrame(f, more);
      ScanStep(s, 0, |f|);
      ScanShift(s, |f| + 2, 0);
      assert s[|f| + 2..] == more && s[0..|f|] == f;
      forall i | 0 <= i < |frames[1..]|
        ensures FramerFrame(frames[1..][i])
      {
        assert frames[1..][i] == frames[i + 1];
      }
      EmittedSplitsBack(frames[1..], tail);
    }
  }

  lemma {:induction false} JoinOfLinesIsFramed(lines: seq<string>)
    requires Complete(lines)
    ensures FramerFrame(Join(lines, "\n"))
    ensures lines[0] != "" ==> !IsBreakChar(Join(lines, "\n")[0])
    ensures Join(lines, "\n") != ""
    decreases |lines|
  {
    hide SeparatorAt;
    var s := Join(lines, "\n");
    if |lines| == 1 {
      forall i | 0 <= i < |s|
        ensures SeparatorAt(s, i) == 0
      {
        NotABreak(s, i);
      }
    } else {
      var more := lines[1..];
      forall i | 0 <= i < |more|
        ensures more[i] == lines[i + 1]
      {
      }
      JoinOfLinesIsFramed(more);
      assert lines == [lines[0]] + more;
      JoinCons(lines[0], more);
      var t := Join(more, "\n");
      forall i | 0 <= i < |s|
        ensures SeparatorAt(s, i) == 0
      {
        LineThenText(lines[0], t, i);
      }
    }
  }

  lemma NotABreak(s: string, i: nat)
    requires i < |s| && !IsBreakChar(s[i])
    ensures SeparatorAt(s, i) == 0
  {
  }

  lemma LineThenText(line: string, t: string, i: nat)
    requires BreakFree(line) && t != "" && !IsBreakChar(t[0]) && SeparatorFree(t)
    requires i < |line| + 1 + |t|
    ensures SeparatorAt(line + "\n" + t, i) == 0
  {
    var s := line + "\n" + t;
    if i < |line| {
      NotABreak(s, i);
    } else if i == |line| {
      assert s[i] == '\n' && s[i + 1] == t[0];
    } else {
      assert s[|line| + 1..] == t;
      SeparatorShift(s, |line| + 1, i - |line| - 1);
    }
  }

  lemma RewrittenIsFramed(codec: Codec, frame: string, id: string)
    requires Lawful(codec) && SeparatorFree(frame)
    ensures SeparatorFree(Rewritten(codec, frame, id))
    ensures FramerFrame(frame) ==> FramerFrame(Rewritten(codec, frame, id))
  {
    hide PayloadOf, SplitLines, RewriteLines, Join, SeparatorAt, Lawful;
    RewrittenFrame(codec, frame, id);
    if ReattachedPayload(codec, PayloadOf(frame), id).Some? {
      JoinOfLinesIsFramed(SplitLines(Rewritten(codec, frame, id)));
    }
  }

  function RewrittenAll(codec: Codec, frames: seq<string>, id: string): (r: seq<string>)
    ensures |r| == |frames|
    ensures forall i :: 0 <= i < |r| ==> r[i] == Rewritten(codec, frames[i], id)
  {
    if frames == [] then [] else [Rewritten(codec, frames[0], id)] + RewrittenAll(codec, frames[1..], id)
  }

  lemma {:induction false} FedFramesAreFramed(chunks: seq<string>)
    ensures forall i :: 0 <= i < |Feed(chunks).0| ==> FramerFrame(Feed(chunks).0[i])
    decreases |chunks|
  {
    hide FramerFrame, ScanFrom;
    if chunks != [] {
      var before := Feed(chunks[..|chunks| - 1]);
      FedFramesAreFramed(chunks[..|chunks| - 1]);
      FramesAreFramed(before.1 + chunks[|chunks| - 1], 0);
    }
  }

  /**
   * However upstream was cut, the rewritten frames, each followed by a blank line, and the rewritten
   * tail are what the framer finds in the stream the client is sent.
   */
  lemma RewrittenStreamSplitsBack(codec: Codec, chunks: seq<string>, id: string)
    requires Lawful(codec)
    ensures var (frames, rest) := Feed(chunks);
            var sent := Emitted(RewrittenAll(codec, frames, id));
            && Scan(sent).frames == RewrittenAll(codec, frames, id)
            && Scan(sent).rest == ""
            && Scan(sent + Rewritten(codec, rest, id)).frames == RewrittenAll(codec, frames, id)
            && Scan(sent + Rewritten(codec, rest, id)).rest == Rewritten(codec, rest, id)
  {
    hide FramerFrame, Scan, Rewritten, Lawful;
    var (frames, rest) := Feed(chunks);
    var sent := RewrittenAll(codec, frames, id);
    FedFramesAreFramed(chunks);
    forall i | 0 <= i < |sent|
      ensures FramerFrame(sent[i])
    {
      FramedIsFree(frames[i]);
      RewrittenIsFramed(codec, frames[i], id);
    }
    EventsOfFeed(chunks, "", true);
    RewrittenIsFramed(codec, rest, id);
    EmittedSplitsBack(sent, Rewritten(codec, rest, id));
    EmittedSplitsBack(sent, "");
    assert Emitted(sent) + "" == Emitted(sent);
  }

  lemma FramedIsFree(frame: string)
    requires FramerFrame(frame)
    ensures SeparatorFree(frame)
  {
  }
}
