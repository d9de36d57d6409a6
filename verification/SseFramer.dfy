/** The incremental frame splitter of `crates/libsubby/src/proxy/sse.rs`. Bytes are characters. */
module SseFramer {
  import opened Prelude

  const MAX_SEPARATOR_LEN: nat := 4

  predicate IsBreakChar(c: char) { c == '\r' || c == '\n' }

  /** The length of the line terminator starting at `i`, the longest first; 0 when there is none. */
  function LineBreakAt(buf: string, i: nat): (n: nat)
    requires i <= |buf|
    ensures n <= 2 && i + n <= |buf|
    ensures n > 0 <==> i < |buf| && IsBreakChar(buf[i])
  {
    if i + 1 < |buf| && buf[i] == '\r' && buf[i + 1] == '\n' then 2
    else if i < |buf| && IsBreakChar(buf[i]) then 1
    else 0
  }

  /** The length of the two line terminators starting at `i`, taken greedily; 0 when there are not two. */
  function SeparatorAt(buf: string, i: nat): (n: nat)
    requires i <= |buf|
    ensures n <= MAX_SEPARATOR_LEN && i + n <= |buf|
  {
    var first := LineBreakAt(buf, i);
    if first == 0 then 0
    else
      var second := LineBreakAt(buf, i + first);
      if second == 0 then 0 else first + second
  }

  /** No separator begins anywhere in `buf`. */
  ghost predicate SeparatorFree(buf: string) {
    forall i :: 0 <= i < |buf| ==> SeparatorAt(buf, i) == 0
  }

  /** Where the first separator at or after `i` begins, or `|buf|`. */
  function FirstSeparator(buf: string, i: nat): (k: nat)
    requires i <= |buf|
    ensures i <= k <= |buf|
    ensures k < |buf| ==> SeparatorAt(buf, k) > 0
    decreases |buf| - i
  {
    if i == |buf| then i
    else if SeparatorAt(buf, i) > 0 then i
    else FirstSeparator(buf, i + 1)
  }

  /** The whole frames, the separator that closed each, and the bytes left over. */
  datatype Scanned = Scanned(frames: seq<string>, separators: seq<string>, rest: string)

  /** What scanning `buf` from position `m` finds. */
  function ScanFrom(buf: string, m: nat): Scanned
    requires m <= |buf|
    decreases |buf| - m
  {
    var k := FirstSeparator(buf, m);
    if k == |buf| then Scanned([], [], buf[m..])
    else
      var n := SeparatorAt(buf, k);
      var tail := ScanFrom(buf, k + n);
      Scanned([buf[m..k]] + tail.frames, [buf[k..k + n]] + tail.separators, tail.rest)
  }

  /** What rescanning the whole of `buf` finds: the framer without its `scan_from`. */
  function Scan(buf: string): Scanned { ScanFrom(buf, 0) }

  /** One step of the scan, at a place where the next separator is known. */
  lemma ScanStep(buf: string, m: nat, k: nat)
    requires m <= k < |buf| && FirstSeparator(buf, m) == k
    ensures SeparatorAt(buf, k) > 0
    ensures var n := SeparatorAt(buf, k);
            var tail := ScanFrom(buf, k + n);
            ScanFrom(buf, m) == Scanned([buf[m..k]] + tail.frames, [buf[k..k + n]] + tail.separators, tail.rest)
  {
  }

  lemma ScanEnd(buf: string, m: nat)
    requires m <= |buf| && FirstSeparator(buf, m) == |buf|
    ensures ScanFrom(buf, m) == Scanned([], [], buf[m..])
  {
  }

  function Tail(rest: string): Option<string> {
    if rest == "" then None else Some(rest)
  }

  /** The framer, keeping the position before which no separator can begin. */
  class Framer {
    var buf: string
    var scanFrom: nat

    ghost predicate Valid()
      reads this
    {
      && SeparatorFree(buf)
      && (scanFrom == 0 || scanFrom + MAX_SEPARATOR_LEN - 1 <= |buf|)
    }

    constructor ()
      ensures Valid() && buf == ""
    {
      buf, scanFrom := "", 0;
    }

    /** Resuming the scan at `scanFrom` finds what rescanning everything finds. */
    method Push(chunk: string) returns (frames: seq<string>)
      requires Valid()
      modifies this
      ensures Valid()
      ensures frames == Scan(old(buf) + chunk).frames
      ensures buf == Scan(old(buf) + chunk).rest
    {
      hide ScanFrom;
      hide SeparatorAt;
      hide FirstSeparator;
      forall k | 0 <= k < scanFrom
        ensures SeparatorAt(buf + chunk, k) == 0
      {
        DecidedByFourBytes(buf, chunk, k);
      }
      var bytes := buf + chunk;
      frames := [];
      var frameStart := 0;
      var i := scanFrom;
      while i < |bytes|
        invariant frameStart <= i <= |bytes|
        invariant forall k :: frameStart <= k < i ==> SeparatorAt(bytes, k) == 0
        invariant Scan(bytes).frames == frames + ScanFrom(bytes, frameStart).frames
        invariant Scan(bytes).rest == ScanFrom(bytes, frameStart).rest
      {
        var n := SeparatorAt(bytes, i);
        if n > 0 {
          FirstSeparatorIs(bytes, frameStart, i);
          ScanStep(bytes, frameStart, i);
          frames := frames + [bytes[frameStart..i]];
          i := i + n;
          frameStart := i;
        } else {
          i := i + 1;
        }
      }
      FirstSeparatorIs(bytes, frameStart, |bytes|);
      ScanEnd(bytes, frameStart);
      RestIsFree(bytes, frameStart);
      buf := bytes[frameStart..];
      scanFrom := if |buf| < MAX_SEPARATOR_LEN - 1 then 0 else |buf| - (MAX_SEPARATOR_LEN - 1);
    }

    /** The unterminated last frame. */
    method Flush() returns (frame: Option<string>)
      requires Valid()
      modifies this
      ensures Valid() && buf == ""
      ensures frame == Tail(old(buf))
    {
      scanFrom := 0;
      if buf == "" {
        return None;
      }
      frame := Some(buf);
      buf := "";
    }
  }

  // ---- The scan ----

  /** Four bytes decide whether a separator begins at `k`, so later bytes cannot change the answer. */
  lemma DecidedByFourBytes(a: string, b: string, k: nat)
    requires k + MAX_SEPARATOR_LEN <= |a|
    ensures SeparatorAt(a + b, k) == SeparatorAt(a, k)
  {
  }

  lemma {:induction false} NoneBefore(buf: string, m: nat)
    requires m <= |buf|
    ensures forall j :: m <= j < FirstSeparator(buf, m) ==> SeparatorAt(buf, j) == 0
    decreases |buf| - m
  {
    if m < |buf| && SeparatorAt(buf, m) == 0 {
      NoneBefore(buf, m + 1);
    }
  }

  lemma {:induction false} FirstSeparatorIs(buf: string, m: nat, k: nat)
    requires m <= k <= |buf|
    requires k < |buf| ==> SeparatorAt(buf, k) > 0
    requires forall j :: m <= j < k ==> SeparatorAt(buf, j) == 0
    ensures FirstSeparator(buf, m) == k
    decreases k - m
  {
    if m < k {
      FirstSeparatorIs(buf, m + 1, k);
    }
  }

  lemma SeparatorShift(buf: string, m: nat, i: nat)
    requires m + i <= |buf|
    ensures SeparatorAt(buf[m..], i) == SeparatorAt(buf, m + i)
    ensures LineBreakAt(buf[m..], i) == LineBreakAt(buf, m + i)
  {
  }

  lemma RestIsFree(buf: string, m: nat)
    requires m <= |buf|
    requires forall j :: m <= j < |buf| ==> SeparatorAt(buf, j) == 0
    ensures SeparatorFree(buf[m..])
  {
    forall i | 0 <= i < |buf| - m
      ensures SeparatorAt(buf[m..], i) == 0
    {
      SeparatorShift(buf, m, i);
    }
  }

  lemma {:induction false} FirstSeparatorShift(buf: string, m: nat, i: nat)
    requires m + i <= |buf|
    ensures FirstSeparator(buf[m..], i) == FirstSeparator(buf, m + i) - m
    decreases |buf| - i
  {
    SeparatorShift(buf, m, i);
    if m + i < |buf| && SeparatorAt(buf, m + i) == 0 {
      FirstSeparatorShift(buf, m, i + 1);
    }
  }

  /** Dropping bytes that are already framed changes nothing in what is found after them. */
  lemma {:induction false} ScanShift(buf: string, m: nat, i: nat)
    requires m + i <= |buf|
    ensures ScanFrom(buf[m..], i) == ScanFrom(buf, m + i)
    decreases |buf| - i
  {
    hide ScanFrom;
    hide SeparatorAt;
    hide FirstSeparator;
    FirstSeparatorShift(buf, m, i);
    var k := FirstSeparator(buf, m + i);
    if k < |buf| {
      var n := SeparatorAt(buf, k);
      SeparatorShift(buf, m, k - m);
      ScanStep(buf[m..], i, k - m);
      ScanStep(buf, m + i, k);
      ScanShift(buf, m, k - m + n);
      assert buf[m..][i..k - m] == buf[m + i..k];
      assert buf[m..][k - m..k - m + n] == buf[k..k + n];
    } else {
      ScanEnd(buf[m..], i);
      ScanEnd(buf, m + i);
      assert buf[m..][i..] == buf[m + i..];
    }
  }

  /** The parts of a scan are exactly the bytes scanned, and every part is what it claims to be. */
  function Spelled(frames: seq<string>, separators: seq<string>): string
    requires |frames| == |separators|
  {
    if frames == [] then "" else frames[0] + separators[0] + Spelled(frames[1..], separators[1..])
  }

  /** The separator is two line terminators, and none begins inside the frame. */
  ghost predicate WellCut(frame: string, separator: string) {
    var s := frame + separator;
    && |separator| > 0
    && SeparatorAt(s, |frame|) == |separator|
    && forall i :: 0 <= i < |frame| ==> SeparatorAt(s, i) == 0
  }

  lemma {:induction false} ScanSpells(buf: string, m: nat)
    requires m <= |buf|
    ensures var r := ScanFrom(buf, m);
            && |r.frames| == |r.separators|
            && Spelled(r.frames, r.separators) + r.rest == buf[m..]
            && SeparatorFree(r.rest)
            && forall i :: 0 <= i < |r.frames| ==> WellCut(r.frames[i], r.separators[i])
    decreases |buf| - m
  {
    hide ScanFrom;
    hide SeparatorAt;
    hide FirstSeparator;
    var k := FirstSeparator(buf, m);
    NoneBefore(buf, m);
    if k == |buf| {
      ScanEnd(buf, m);
      RestIsFree(buf, m);
    } else {
      ScanStep(buf, m, k);
      var n := SeparatorAt(buf, k);
      var tail := ScanFrom(buf, k + n);
      ScanSpells(buf, k + n);
      PieceWellCut(buf, m, k);
      assert buf[m..] == buf[m..k] + buf[k..k + n] + buf[k + n..];
    }
  }

  lemma PieceWellCut(buf: string, m: nat, k: nat)
    requires m <= k < |buf| && SeparatorAt(buf, k) > 0
    requires forall j :: m <= j < k ==> SeparatorAt(buf, j) == 0
    ensures WellCut(buf[m..k], buf[k..k + SeparatorAt(buf, k)])
  {
    var n := SeparatorAt(buf, k);
    assert buf[m..k] + buf[k..k + n] == buf[m..k + n];
    var s := buf[m..k + n];
    forall i | 0 <= i <= k - m
      ensures SeparatorAt(s, i) == SeparatorAt(buf, m + i)
    {
      SeparatorInPiece(buf, m, k, i);
    }
  }

  lemma SeparatorInPiece(buf: string, m: nat, k: nat, i: nat)
    requires m + i <= k < |buf| && SeparatorAt(buf, k) > 0
    requires forall j :: m <= j < k ==> SeparatorAt(buf, j) == 0
    ensures SeparatorAt(buf[m..k + SeparatorAt(buf, k)], i) == SeparatorAt(buf, m + i)
  {
  }

  // ---- Cutting the stream into chunks ----

  predicate EndsCr(x: string) { |x| > 0 && x[|x| - 1] == '\r' }

  predicate StartsLf(x: string) { |x| > 0 && x[0] == '\n' }

  /** The cut separates the `\r` that closed a separator from the `\n` that belongs to it. */
  predicate SplitsSeparator(x: string, y: string) {
    Scan(x).rest == "" && EndsCr(x) && StartsLf(y)
  }

  /** The frames and the remaining buffer after pushing every chunk onto an empty framer. */
  function Feed(chunks: seq<string>): (seq<string>, string) {
    if chunks == [] then ([], "")
    else
      var before := Feed(chunks[..|chunks| - 1]);
      var last := Scan(before.1 + chunks[|chunks| - 1]);
      (before.0 + last.frames, last.rest)
  }

  /** One push after another finds what one push of everything finds, unless the cut splits a separator. */
  lemma {:induction false} ScanContinues(x: string, y: string, m: nat)
    requires m <= |x|
    requires !(ScanFrom(x, m).rest == "" && EndsCr(x) && StartsLf(y))
    ensures var r := ScanFrom(x, m);
            var next := Scan(r.rest + y);
            ScanFrom(x + y, m) == Scanned(r.frames + next.frames, r.separators + next.separators, next.rest)
    decreases |x| - m
  {
    hide ScanFrom;
    hide SeparatorAt;
    hide FirstSeparator;
    var k := FirstSeparator(x, m);
    if k == |x| {
      ScanEnd(x, m);
      ScanShift(x + y, m, 0);
      assert (x + y)[m..] == x[m..] + y;
    } else {
      ScanStep(x, m, k);
      var n := SeparatorAt(x, k);
      if k + n == |x| {
        FirstSeparatorIs(x, k + n, k + n);
        ScanEnd(x, k + n);
      }
      NoneBefore(x, m);
      KeptByMore(x, y, m, k);
      FirstSeparatorIs(x + y, m, k);
      ScanStep(x + y, m, k);
      ScanContinues(x, y, k + n);
      SameSlices(x, y, m, k, n);
    }
  }

  lemma SameSlices(x: string, y: string, m: nat, k: nat, n: nat)
    requires m <= k <= k + n <= |x|
    ensures (x + y)[m..k] == x[m..k] && (x + y)[k..k + n] == x[k..k + n]
  {
  }

  /** More bytes after a whole separator leave every earlier answer as it was. */
  lemma KeptByMore(x: string, y: string, m: nat, k: nat)
    requires m <= k < |x| && SeparatorAt(x, k) > 0
    requires forall j :: m <= j < k ==> SeparatorAt(x, j) == 0
    requires k + SeparatorAt(x, k) == |x| ==> !(EndsCr(x) && StartsLf(y))
    ensures forall j :: m <= j <= k ==> SeparatorAt(x + y, j) == SeparatorAt(x, j)
  {
    forall j | m <= j <= k
      ensures SeparatorAt(x + y, j) == SeparatorAt(x, j)
    {
      BreakKept(x, y, j);
      var first := LineBreakAt(x, j);
      if first > 0 && j + first < |x| {
        BreakKept(x, y, j + first);
      }
    }
  }

  lemma BreakKept(x: string, y: string, j: nat)
    requires j < |x|
    requires !(j + 1 == |x| && EndsCr(x) && StartsLf(y))
    ensures LineBreakAt(x + y, j) == LineBreakAt(x, j)
  {
  }

  ghost predicate CutsKeepSeparators(chunks: seq<string>) {
    forall k :: 0 <= k < |chunks| ==> !SplitsSeparator(Concat(chunks[..k]), chunks[k])
  }

  /** The frame list and the leftover do not depend on the chunking. */
  lemma {:induction false} FramesIgnoreChunking(chunks: seq<string>)
    requires CutsKeepSeparators(chunks)
    ensures Feed(chunks) == (Scan(Concat(chunks)).frames, Scan(Concat(chunks)).rest)
  {
    if chunks == [] {
    } else {
      var n := |chunks| - 1;
      var init := chunks[..n];
      forall k | 0 <= k < n
        ensures !SplitsSeparator(Concat(init[..k]), init[k])
      {
        assert init[..k] == chunks[..k];
      }
      FramesIgnoreChunking(init);
      ConcatLast(chunks);
      ScanContinues(Concat(init), chunks[n], 0);
    }
  }

  lemma {:induction false} ConcatLast(chunks: seq<string>)
    requires chunks != []
    ensures Concat(chunks) == Concat(chunks[..|chunks| - 1]) + chunks[|chunks| - 1]
  {
    var last := [chunks[|chunks| - 1]];
    assert chunks == chunks[..|chunks| - 1] + last;
    ConcatAppend(chunks[..|chunks| - 1], last);
    assert Concat(last) == last[0];
  }

  /** Every frame of a stream, the unterminated last one included. */
  function Whole(buf: string): seq<string> { Finished(Scan(buf).frames, Scan(buf).rest) }

  function Finished(frames: seq<string>, rest: string): seq<string> {
    frames + (if rest == "" then [] else [rest])
  }

  lemma FinishedAfter(head: seq<string>, z: string)
    ensures Finished(head + Scan(z).frames, Scan(z).rest) == head + Whole(z)
  {
  }

  lemma SplitAtEnd(x: string, y: string)
    requires SplitsSeparator(x, y)
    ensures Whole(x + y) == Scan(x).frames + Whole(y[1..])
    ensures Scan(x).rest + y == y
    ensures LineBreakAt(y, 0) == 1
  {
    hide ScanFrom;
    SplitLosesNewline(x, y, 0);
    FinishedAfter(Scan(x).frames, y[1..]);
  }

  /** The uncut stream gives the `\n` to the separator, so the frames after it start one byte later. */
  lemma {:induction false} SplitLosesNewline(x: string, y: string, m: nat)
    requires m <= |x| && ScanFrom(x, m).rest == "" && EndsCr(x) && StartsLf(y) && m < |x|
    ensures ScanFrom(x + y, m).frames == ScanFrom(x, m).frames + Scan(y[1..]).frames
    ensures ScanFrom(x + y, m).rest == Scan(y[1..]).rest
    decreases |x| - m
  {
    hide ScanFrom;
    hide SeparatorAt;
    hide FirstSeparator;
    var k := FirstSeparator(x, m);
    NoneBefore(x, m);
    if k == |x| {
      ScanEnd(x, m);
      assert false;
    } else {
      ScanStep(x, m, k);
      var n := SeparatorAt(x, k);
      SameSlices(x, y, m, k, n);
      if k + n < |x| {
        KeptByMore(x, y, m, k);
        FirstSeparatorIs(x + y, m, k);
        ScanStep(x + y, m, k);
        SplitLosesNewline(x, y, k + n);
      } else {
        FirstSeparatorIs(x, k + n, k + n);
        ScanEnd(x, k + n);
        GrownSeparator(x, y, m, k);
        FirstSeparatorIs(x + y, m, k);
        ScanStep(x + y, m, k);
        ScanShift(x + y, |x| + 1, 0);
        assert (x + y)[|x| + 1..] == y[1..];
      }
    }
  }

  lemma GrownSeparator(x: string, y: string, m: nat, k: nat)
    requires m <= k < |x| && SeparatorAt(x, k) > 0 && k + SeparatorAt(x, k) == |x|
    requires forall j :: m <= j < k ==> SeparatorAt(x, j) == 0
    requires EndsCr(x) && StartsLf(y)
    ensures SeparatorAt(x + y, k) == SeparatorAt(x, k) + 1
    ensures forall j :: m <= j < k ==> SeparatorAt(x + y, j) == 0
  {
    forall j | m <= j < k
      ensures SeparatorAt(x + y, j) == 0
    {
      assert SeparatorAt(x, j) == 0;
      BreakKept(x, y, j);
    }
    BreakKept(x, y, k);
  }

  /** A separator is a line terminator and the line terminator that follows it. */
  lemma SeparatorParts(s: string)
    requires LineBreakAt(s, 0) > 0
    ensures var w := s[LineBreakAt(s, 0)..];
            && SeparatorAt(s, 0) == (if LineBreakAt(w, 0) > 0 then LineBreakAt(s, 0) + LineBreakAt(w, 0) else 0)
            && (LineBreakAt(w, 0) > 0 ==> s[SeparatorAt(s, 0)..] == w[LineBreakAt(w, 0)..])
  {
    SeparatorShift(s, LineBreakAt(s, 0), 0);
  }

  lemma FirstFrame(s: string)
    ensures s == "" ==> Whole(s) == []
    ensures s != "" && SeparatorAt(s, 0) > 0 ==> Whole(s) == [""] + Whole(s[SeparatorAt(s, 0)..])
    ensures s != "" && SeparatorAt(s, 0) == 0 ==> |Whole(s)| > 0 && Whole(s)[0] != "" && Whole(s)[0][0] == s[0]
  {
    hide ScanFrom;
    hide SeparatorAt;
    var k := FirstSeparator(s, 0);
    if k < |s| {
      ScanStep(s, 0, k);
      ScanShift(s, k + SeparatorAt(s, k), 0);
    } else {
      ScanEnd(s, 0);
    }
  }

  // ---- Every cut that splits a separator shows ----

  /** How many line terminators a text begins with. */
  function LeadingBreaks(s: string): nat
    decreases |s|
  {
    var n := LineBreakAt(s, 0);
    if n == 0 then 0 else 1 + LeadingBreaks(s[n..])
  }

  /** The same number, read off a frame list: two for each empty frame in front, one for a break after them. */
  function Lead(frames: seq<string>): nat {
    if frames == [] then 0
    else if frames[0] == "" then 2 + Lead(frames[1..])
    else if IsBreakChar(frames[0][0]) then 1
    else 0
  }

  lemma LeadingPair(s: string)
    ensures SeparatorAt(s, 0) > 0 ==> LeadingBreaks(s) == 2 + LeadingBreaks(s[SeparatorAt(s, 0)..])
    ensures SeparatorAt(s, 0) == 0 ==> LeadingBreaks(s) == if s != "" && IsBreakChar(s[0]) then 1 else 0
  {
    hide SeparatorAt;
    if LineBreakAt(s, 0) > 0 {
      SeparatorParts(s);
    } else {
      NoBreakNoSeparator(s);
    }
  }

  lemma NoBreakNoSeparator(s: string)
    requires LineBreakAt(s, 0) == 0
    ensures SeparatorAt(s, 0) == 0
  {
  }

  /** What scanning finds first. */
  lemma ScanHead(s: string)
    ensures var (r, n) := (Scan(s), SeparatorAt(s, 0));
            && (n > 0 ==> r.frames == [""] + Scan(s[n..]).frames && r.rest == Scan(s[n..]).rest)
            && (n == 0 && r.frames == [] ==> r.rest == s)
            && (n == 0 && r.frames != [] ==> |s| > 2 && r.frames[0] != "" && r.frames[0][0] == s[0])
  {
    hide ScanFrom, SeparatorAt;
    var k := FirstSeparator(s, 0);
    if k < |s| {
      ScanStep(s, 0, k);
      ScanShift(s, k + SeparatorAt(s, k), 0);
      TwoBreaks(s, k);
    } else {
      ScanEnd(s, 0);
    }
  }

  lemma TwoBreaks(s: string, k: nat)
    requires k < |s| && SeparatorAt(s, k) > 0
    ensures k + 2 <= |s|
  {
  }

  lemma {:induction false} WholeLead(s: string)
    ensures Lead(Whole(s)) == LeadingBreaks(s)
    decreases |s|
  {
    hide Whole, SeparatorAt, LeadingBreaks;
    FirstFrame(s);
    LeadingPair(s);
    if s != "" && SeparatorAt(s, 0) > 0 {
      var rest := s[SeparatorAt(s, 0)..];
      WholeLead(rest);
      assert ([""] + Whole(rest))[1..] == Whole(rest);
    }
  }

  /** More bytes may let a leading separator grow by the `\n` of its last `\r`, and no more. */
  lemma PairThenMore(x: string, y: string)
    requires SeparatorAt(x, 0) > 0
    ensures LeadingBreaks(x + y) <= 2 + LeadingBreaks(x[SeparatorAt(x, 0)..] + y)
  {
    hide SeparatorAt, LeadingBreaks;
    var n := SeparatorAt(x, 0);
    TwoBreaks(x, 0);
    LeadingPair(x + y);
    if n == |x| && EndsCr(x) && StartsLf(y) {
      GrownSeparator(x, y, 0, 0);
      assert (x + y)[n + 1..] == y[1..] && x[n..] + y == y;
      LeadingNewline(y);
    } else {
      KeptByMore(x, y, 0, 0);
      assert (x + y)[n..] == x[n..] + y;
    }
  }

  lemma LeadingNewline(y: string)
    requires StartsLf(y)
    ensures LeadingBreaks(y) == 1 + LeadingBreaks(y[1..])
  {
  }

  lemma NoPairThenMore(x: string, y: string)
    requires SeparatorAt(x, 0) == 0 && |x| > 2
    ensures SeparatorAt(x + y, 0) == 0
  {
  }

  /** Whatever comes after the frames of a scan, they lead with no fewer line terminators than the bytes. */
  lemma {:induction false} ScanLeads(x: string, more: seq<string>, y: string)
    requires Lead(more) >= LeadingBreaks(Scan(x).rest + y)
    ensures Lead(Scan(x).frames + more) >= LeadingBreaks(x + y)
    decreases |x|
  {
    hide Scan, SeparatorAt, LeadingBreaks;
    ScanHead(x);
    var n := SeparatorAt(x, 0);
    if n > 0 {
      var tail := Scan(x[n..]).frames;
      ScanLeads(x[n..], more, y);
      PairThenMore(x, y);
      assert (Scan(x).frames + more)[1..] == tail + more;
    } else if Scan(x).frames == [] {
      assert [] + more == more;
    } else {
      NoPairThenMore(x, y);
      LeadingPair(x + y);
    }
  }

  /** Pushing chunk after chunk onto a framer that holds `rest`. */
  function FedFrom(rest: string, chunks: seq<string>): seq<string>
    decreases |chunks|
  {
    if chunks == [] then if rest == "" then [] else [rest]
    else
      var next := Scan(rest + chunks[0]);
      next.frames + FedFrom(next.rest, chunks[1..])
  }

  lemma {:induction false} FedLeads(rest: string, chunks: seq<string>)
    requires SeparatorFree(rest)
    ensures Lead(FedFrom(rest, chunks)) >= LeadingBreaks(rest + Concat(chunks))
    decreases |chunks|
  {
    hide Scan, SeparatorAt, LeadingBreaks;
    if chunks == [] {
      assert rest + "" == rest;
      LeadingPair(rest);
      LeadingPair("");
      if rest != "" {
        assert SeparatorAt(rest, 0) == 0;
      } else {
        NoBreakNoSeparator("");
      }
    } else {
      var x, y := rest + chunks[0], Concat(chunks[1..]);
      ScanRestFree(x);
      FedLeads(Scan(x).rest, chunks[1..]);
      ScanLeads(x, FedFrom(Scan(x).rest, chunks[1..]), y);
      Assoc(rest, chunks[0], y);
    }
  }

  lemma ScanRestFree(x: string)
    ensures SeparatorFree(Scan(x).rest)
  {
    hide SeparatorFree;
    ScanSpells(x, 0);
  }

  /** The frames of the first `k` chunks, then those of the others. */
  lemma {:induction false} FedInTwo(chunks: seq<string>, k: nat)
    requires k <= |chunks|
    ensures Finished(Feed(chunks).0, Feed(chunks).1)
         == Feed(chunks[..k]).0 + FedFrom(Feed(chunks[..k]).1, chunks[k..])
    decreases |chunks| - k
  {
    hide Scan;
    if k == |chunks| {
      assert chunks[..k] == chunks;
    } else {
      FedInTwo(chunks, k + 1);
      assert chunks[..k + 1][..k] == chunks[..k] && chunks[k..][1..] == chunks[k + 1..];
      var before := Feed(chunks[..k]);
      var next := Scan(before.1 + chunks[k]);
      Assoc(before.0, next.frames, FedFrom(next.rest, chunks[k + 1..]));
    }
  }

  lemma {:induction false} FirstSplit(chunks: seq<string>) returns (k: nat)
    requires !CutsKeepSeparators(chunks)
    ensures k < |chunks| && SplitsSeparator(Concat(chunks[..k]), chunks[k]) && CutsKeepSeparators(chunks[..k])
    decreases |chunks|
  {
    hide SplitsSeparator;
    var n := |chunks| - 1;
    var init := chunks[..n];
    assert forall i :: 0 <= i < n ==> init[..i] == chunks[..i] && init[i] == chunks[i];
    if CutsKeepSeparators(init) {
      k := n;
    } else {
      k := FirstSplit(init);
      assert init[..k] == chunks[..k];
    }
  }

  /** However a stream is cut, its frame list is that of the uncut stream exactly when no cut splits a separator. */
  lemma {:induction false} CutsShow(chunks: seq<string>)
    ensures Finished(Feed(chunks).0, Feed(chunks).1) == Whole(Concat(chunks)) <==> CutsKeepSeparators(chunks)
  {
    hide Scan, Feed, CutsKeepSeparators, SplitsSeparator, FedFrom, LeadingBreaks, Concat, Lead;
    if CutsKeepSeparators(chunks) {
      FramesIgnoreChunking(chunks);
    } else {
      var k := FirstSplit(chunks);
      FramesIgnoreChunking(chunks[..k]);
      FedInTwo(chunks, k);
      SplitShows(chunks, k);
    }
  }

  lemma {:induction false} SplitShows(chunks: seq<string>, k: nat)
    requires k < |chunks| && SplitsSeparator(Concat(chunks[..k]), chunks[k])
    ensures Scan(Concat(chunks[..k])).frames + FedFrom("", chunks[k..]) != Whole(Concat(chunks))
    ensures Scan(Concat(chunks[..k])).rest == ""
  {
    hide Scan, FedFrom, LeadingBreaks, Lead, Whole;
    var x, y := Concat(chunks[..k]), Concat(chunks[k..]);
    assert chunks[..k] + chunks[k..] == chunks;
    ConcatAppend(chunks[..k], chunks[k..]);
    assert StartsLf(y) && "" + y == y;
    SplitAtEnd(x, y);
    FedLeads("", chunks[k..]);
    LeadingNewline(y);
    WholeLead(y[1..]);
    var head := Scan(x).frames;
    assert (head + FedFrom("", chunks[k..]))[|head|..] == FedFrom("", chunks[k..]);
    assert (head + Whole(y[1..]))[|head|..] == Whole(y[1..]);
  }
}
