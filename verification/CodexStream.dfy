/**
 * The streamed exchange of `crates/libsubby/src/proxy/codex.rs:791-919`: upstream chunks in, client
 * bytes out, and one turn for the transcript store, which is a list here.
 */
module CodexStream {
  import opened Prelude
  import opened Json
  import opened SseFramer
  import opened SsePayload
  import opened SseAggregate
  import opened SseRewrite

  datatype Turn = Turn(id: string, parent: Option<string>, sub: string, input: seq<Json>, output: seq<Json>)

  /** What goes into the store for this response, if it has both a name and a list of output. */
  function TurnOf(terminal: Json, parent: Option<string>, sub: string, delta: seq<Json>): Option<Turn> {
    match (terminal.GetStr("id"), terminal.Get("output"))
    case (Some(id), Some(Arr(output))) => Some(Turn(id, parent, sub, delta, output))
    case _ => None
  }

  /** The turns a fold leaves in the store: the one of its terminal response, or none. */
  function Turns(codec: Codec, f: Folded, parent: Option<string>, sub: string, delta: seq<Json>): (r: seq<Turn>)
    ensures |r| <= 1
    ensures f.terminal == None ==> r == []
    ensures forall i :: 0 <= i < |r| ==> r[i].parent == parent && r[i].sub == sub && r[i].input == delta
  {
    match Finish(codec, f)
    case Terminal(response) => Listed(TurnOf(response, parent, sub, delta))
    case NoTerminal(_) => []
  }

  datatype Yield = Data(bytes: string) | Failed(error: string)

  class Exchange {
    const codec: Codec
    const inner: seq<Chunk>
    const rewrite: Option<string>
    const sub: string
    const delta: seq<Json>
    const framer: Framer
    const aggregator: Aggregator
    var pos: nat
    var aggregating: bool
    var finished: bool
    var store: seq<Turn>
    ghost const before: seq<Turn>
    ghost var sent: string
    ghost var taken: seq<string>
    ghost var framed: seq<string>
    ghost var ended: bool

    /** Everything folded: the frames so far, and once upstream has ended also the unterminated one. */
    ghost function Fold(): Folded
      reads this`ended, this`framed, this`taken
    {
      FoldFrames(codec, EMPTY, if ended then Finished(framed, Feed(taken).1) else framed)
    }

    /** The store holds exactly what the frames taken so far have earned. */
    ghost predicate Stored()
      reads this`pos, this`aggregating, this`finished, this`store, this`taken, this`framed, this`ended
      reads framer, aggregator
    {
      && framer.Valid()
      && pos <= |Arrived(inner)|
      && taken == Arrived(inner)[..pos]
      && framed == Feed(taken).0
      && (ended ==> finished && pos == |inner|)
      && (!finished ==> framer.buf == Feed(taken).1)
      && (aggregating <==> Fold().terminal == None)
      && (aggregating ==> aggregator.View() == Fold())
      && store == before + Turns(codec, Fold(), rewrite, sub, delta)
    }

    ghost predicate Valid()
      reads this, framer, aggregator
    {
      Stored() && sent == Sent(codec, taken, ended, rewrite)
    }

    /**
     * At every moment: if the bytes the client has been handed contain a terminal event - a complete one, or once
     * upstream has ended an unterminated one - its response is the one folded here but for the id put back, and if
     * it has an id, that id's turn is in the store already, once, with this request's parent and input, and with
     * the output handed on, or if that is empty the items collected, in index order.
     */
    lemma StoredBeforeSent(atEof: bool)
      requires Valid() && (rewrite.Some? ==> Lawful(codec)) && (atEof ==> ended)
      ensures store == before + Turns(codec, Fold(), rewrite, sub, delta)
      ensures Fold() == Folds(codec, Concat(taken), ended)
      ensures var handed := Folds(codec, sent, atEof).terminal;
              handed.Some? ==>
                && SameButId(handed, Fold().terminal)
                && (handed.value.GetStr("id").Some? ==>
                      && |store| == |before| + 1
                      && store[|before|].id == handed.value.GetStr("id").value
                      && store[|before|].parent == rewrite
                      && store[|before|].sub == sub
                      && store[|before|].input == delta
                      && IsOutput(handed.value, Fold().items, store[|before|].output))
    {
      hide Feed, FoldFrames, Folds, Turns, Finished, Sent, SameButId, IsOutput;
      FoldsOfFeed(codec, taken, ended);
      TerminalSent(codec, taken, ended, rewrite, atEof);
      FoldOnlyGrows(codec, taken);
      SameIsSome(Folds(codec, sent, atEof).terminal, Folds(codec, Concat(taken), atEof).terminal);
      if Folds(codec, sent, atEof).terminal.Some? {
        SameId(Folds(codec, sent, atEof).terminal, Fold().terminal);
        SameOutput(Folds(codec, sent, atEof).terminal, Fold().terminal);
        TurnIffNamed(codec, Concat(taken), ended, rewrite, sub, delta);
      }
    }

    constructor (codec: Codec, inner: seq<Chunk>, rewrite: Option<string>, sub: string, delta: seq<Json>,
                 store: seq<Turn>)
      ensures Valid() && fresh(framer) && fresh(aggregator)
      ensures this.codec == codec && this.inner == inner && this.rewrite == rewrite
      ensures this.sub == sub && this.delta == delta
      ensures before == store && sent == "" && !finished
    {
      this.codec, this.inner, this.rewrite, this.sub, this.delta := codec, inner, rewrite, sub, delta;
      framer := new Framer();
      aggregator := new Aggregator();
      pos, aggregating, finished, this.store := 0, true, false, store;
      before, sent, taken, framed, ended := store, "", [], [], false;
      new;
      hide FoldFrames, Turns, Sent, Feed;
      NothingYet(codec, []);
      SentNothing(codec, rewrite);
    }

    /** Each frame goes into the fold; a terminal response is stored there and then. */
    method Absorb(frames: seq<string>)
      requires aggregating ==> aggregator.terminal == None
      modifies this`aggregating, this`store, aggregator
      ensures var f := aggregator.View();
              && (!old(aggregating) ==> !aggregating && store == old(store))
              && (old(aggregating) ==>
                    var after := FoldFrames(codec, old(aggregator.View()), frames);
                    && (aggregating <==> after.terminal == None)
                    && (aggregating ==> aggregator.View() == after)
                    && store == old(store) + Turns(codec, after, rewrite, sub, delta))
    {
      hide AbsorbAll, Parsed, Payloads, PayloadOf, Finish, FoldFrames;
      ghost var start := aggregator.View();
      var i := 0;
      FoldNone(codec, start);
      assert frames[..0] == [];
      while i < |frames|
        invariant i <= |frames|
        invariant !old(aggregating) ==> !aggregating && store == old(store)
        invariant old(aggregating) ==> FoldFrames(codec, start, frames[..i]).terminal.Some? == !aggregating
        invariant aggregating ==> aggregator.View() == FoldFrames(codec, start, frames[..i])
        invariant old(aggregating) ==>
                    store == old(store) + Turns(codec, FoldFrames(codec, start, frames[..i]), rewrite, sub, delta)
      {
        ghost var f := FoldFrames(codec, start, frames[..i]);
        assert frames[..i] + [frames[i]] == frames[..i + 1];
        FoldFramesFrom(codec, start, frames[..i], [frames[i]]);
        if aggregating {
          aggregator.Consume(codec, frames[i]);
          FoldOneFrame(codec, f, frames[i]);
          if aggregator.terminal.Some? {
            var done := Finish(codec, Folded(aggregator.terminal, aggregator.error, aggregator.items, aggregator.next));
            aggregating := false;
            TerminalFinishes(codec, aggregator.View());
            var turn := TurnOf(done.response, rewrite, sub, delta);
            if turn.Some? {
              store := store + [turn.value];
            }
          }
        } else if old(aggregating) {
          FoldStays(codec, f, [frames[i]]);
        }
        i := i + 1;
      }
      assert frames[..i] == frames;
    }

    /** One poll of the client's stream. */
    method Next() returns (item: Option<Yield>)
      requires Valid()
      modifies this`pos, this`aggregating, this`finished, this`store, this`sent, this`taken, this`framed, this`ended,
               framer, aggregator
      ensures Valid()
      ensures old(sent) <= sent
      ensures item.Some? && item.value.Data? ==> sent == old(sent) + item.value.bytes
      ensures item.None? || item.value.Failed? ==> sent == old(sent) && finished
      ensures item.None? && !old(finished) ==> ended
    {
      hide Feed, FoldFrames, Turns, Sent, Finished;
      if finished {
        return None;
      }
      while pos < |inner|
        invariant Valid() && !finished && sent == old(sent)
        decreases |inner| - pos
      {
        if inner[pos].Broken? {
          finished := true;
          return Some(Failed(inner[pos].error));
        }
        item := Take(inner[pos].bytes);
        if item.Some? {
          return;
        }
      }
      item := End();
    }

    /** One chunk: its frames are absorbed before a byte of it is handed on. */
    method Take(chunk: string) returns (item: Option<Yield>)
      requires Valid() && !finished && pos < |inner| && inner[pos] == Bytes(chunk)
      modifies this`pos, this`aggregating, this`store, this`sent, this`taken, this`framed, framer, aggregator
      ensures Valid() && pos == old(pos) + 1
      ensures item.Some? ==> item.value.Data? && sent == old(sent) + item.value.bytes
      ensures item.None? ==> sent == old(sent)
    {
      hide Feed, Stored, Sent, Scan, Emitted, Rewritten, RewrittenAll;
      PosTaken();
      SentStep(codec, Arrived(inner), pos, rewrite);
      var frames := AbsorbChunk(chunk);
      match rewrite {
        case None =>
          sent := sent + chunk;
          item := Some(Data(chunk));
        case Some(id) =>
          if frames == [] {
            NothingEmitted(codec, id);
            item := None;
          } else {
            var out := EmitRewritten(codec, frames, id);
            sent := sent + out;
            item := Some(Data(out));
          }
      }
    }

    lemma PosTaken()
      requires Stored() && !finished && pos < |inner| && inner[pos].Bytes?
      ensures pos < |Arrived(inner)| && Arrived(inner)[pos] == inner[pos].bytes
      ensures taken == Arrived(inner)[..pos] && !ended
    {
      hide Feed, FoldFrames, Turns, Finished;
    }

    method AbsorbChunk(chunk: string) returns (frames: seq<string>)
      requires Stored() && !finished && pos < |inner| && inner[pos] == Bytes(chunk)
      modifies this`pos, this`aggregating, this`store, this`taken, this`framed, framer, aggregator
      ensures Stored() && pos == old(pos) + 1 && pos <= |Arrived(inner)|
      ensures taken == Arrived(inner)[..pos] && !ended
      ensures frames == Scan(Feed(old(taken)).1 + chunk).frames
    {
      hide Feed, FoldFrames, Turns, Finished, Scan, Arrived, Sent, SeparatorFree;
      ghost var open := FoldFrames(codec, EMPTY, framed);
      TakeStep(inner, pos);
      frames := framer.Push(chunk);
      Absorb(frames);
      FoldFramesAppend(codec, framed, frames);
      if open.terminal.Some? {
        FoldStays(codec, open, frames);
      }
      framed := framed + frames;
      taken := taken + [chunk];
      pos := pos + 1;
    }

    /** Upstream has ended: the unterminated frame is absorbed, then handed on if it is rewritten. */
    method End() returns (item: Option<Yield>)
      requires Valid() && !finished && pos == |inner|
      modifies this`aggregating, this`finished, this`store, this`sent, this`ended, framer, aggregator
      ensures Valid() && finished && ended
      ensures item.Some? ==> item.value.Data? && sent == old(sent) + item.value.bytes
      ensures item.None? ==> sent == old(sent)
    {
      hide Feed, FoldFrames, Turns, Sent, Finished, Rewritten, Arrived, SeparatorFree;
      finished := true;
      ghost var open := FoldFrames(codec, EMPTY, framed);
      ghost var rest := framer.buf;
      var tail := framer.Flush();
      FinishedWith(framed, rest);
      SentAtEnd(codec, taken, rewrite);
      ended := true;
      if tail.None? {
        return None;
      }
      Absorb([tail.value]);
      FoldFramesAppend(codec, framed, [rest]);
      if open.terminal.Some? {
        FoldStays(codec, open, [rest]);
      }
      if rewrite.Some? {
        var out := RewriteFrame(codec, tail.value, rewrite.value);
        sent := sent + out;
        return Some(Data(out));
      }
      return None;
    }
  }

  lemma TakeStep(inner: seq<Chunk>, pos: nat)
    requires pos <= |Arrived(inner)| && pos < |inner| && inner[pos].Bytes?
    ensures pos < |Arrived(inner)| && Arrived(inner)[pos] == inner[pos].bytes
    ensures Arrived(inner)[..pos + 1] == Arrived(inner)[..pos] + [inner[pos].bytes]
    ensures var fed := Feed(Arrived(inner)[..pos]);
            var scanned := Scan(fed.1 + inner[pos].bytes);
            Feed(Arrived(inner)[..pos + 1]) == (fed.0 + scanned.frames, scanned.rest)
  {
    hide Scan, Feed;
    FeedStep(Arrived(inner), pos);
  }

  lemma SentNothing(codec: Codec, rewrite: Option<string>)
    ensures Sent(codec, [], false, rewrite) == ""
  {
  }

  /** The bytes the client has been handed after these chunks, and at the end of the stream. */
  ghost function Sent(codec: Codec, taken: seq<string>, ended: bool, rewrite: Option<string>): string {
    match rewrite
    case None => Concat(taken)
    case Some(id) =>
      var (frames, rest) := Feed(taken);
      Emitted(RewrittenAll(codec, frames, id)) + (if ended && rest != "" then Rewritten(codec, rest, id) else "")
  }

  method EmitRewritten(codec: Codec, frames: seq<string>, id: string) returns (out: string)
    ensures out == Emitted(RewrittenAll(codec, frames, id))
  {
    hide Rewritten, RewrittenAll, Emitted;
    out := "";
    var i := 0;
    assert frames[0..] == frames;
    NothingEmitted(codec, id);
    while i < |frames|
      invariant i <= |frames|
      invariant out + Emitted(RewrittenAll(codec, frames[i..], id)) == Emitted(RewrittenAll(codec, frames, id))
    {
      var frame := RewriteFrame(codec, frames[i], id);
      assert frames[i..][1..] == frames[i + 1..];
      var rest := frames[i + 1..];
      assert frames[i..] == [frames[i]] + rest;
      RewrittenAllCons(codec, frames[i], rest, id);
      EmittedCons(frame, RewrittenAll(codec, rest, id));
      Assoc(out, frame + "\n\n", Emitted(RewrittenAll(codec, rest, id)));
      Assoc(out, frame, "\n\n");
      out := out + frame + "\n\n";
      i := i + 1;
    }
    assert frames[i..] == [];
  }

  lemma RewrittenAllCons(codec: Codec, frame: string, rest: seq<string>, id: string)
    ensures RewrittenAll(codec, [frame] + rest, id) == [Rewritten(codec, frame, id)] + RewrittenAll(codec, rest, id)
  {
    hide Rewritten;
    assert ([frame] + rest)[1..] == rest;
  }

  lemma EmittedCons(frame: string, frames: seq<string>)
    ensures Emitted([frame] + frames) == frame + "\n\n" + Emitted(frames)
  {
    assert ([frame] + frames)[1..] == frames;
  }

  lemma {:induction false} EmittedAppend(a: seq<string>, b: seq<string>)
    ensures Emitted(a + b) == Emitted(a) + Emitted(b)
  {
    if a == [] {
      assert a + b == b;
    } else {
      assert (a + b)[1..] == a[1..] + b;
      EmittedAppend(a[1..], b);
    }
  }

  lemma RewrittenAllAppend(codec: Codec, a: seq<string>, b: seq<string>, id: string)
    ensures RewrittenAll(codec, a + b, id) == RewrittenAll(codec, a, id) + RewrittenAll(codec, b, id)
  {
    hide RewrittenAll, Rewritten;
    var left, right := RewrittenAll(codec, a, id), RewrittenAll(codec, b, id);
    var all := RewrittenAll(codec, a + b, id);
    forall i | 0 <= i < |a + b|
      ensures all[i] == (left + right)[i]
    {
    }
  }

  lemma NothingEmitted(codec: Codec, id: string)
    ensures Emitted(RewrittenAll(codec, [], id)) == ""
  {
  }

  lemma FoldNone(codec: Codec, f: Folded)
    ensures FoldFrames(codec, f, []) == f
  {
  }

  lemma FoldFramesFrom(codec: Codec, f: Folded, a: seq<string>, b: seq<string>)
    ensures FoldFrames(codec, f, a + b) == FoldFrames(codec, FoldFrames(codec, f, a), b)
  {
    hide AbsorbAll, Parsed, Payloads;
    PayloadsAppend(a, b);
    ParsedAppend(codec, Payloads(a), Payloads(b));
    AbsorbAppend(f, Parsed(codec, Payloads(a)), Parsed(codec, Payloads(b)));
  }

  lemma FoldStays(codec: Codec, f: Folded, frames: seq<string>)
    requires f.terminal.Some?
    ensures FoldFrames(codec, f, frames) == f
  {
    StaysTerminal(f, Parsed(codec, Payloads(frames)));
  }

  lemma TerminalFinishes(codec: Codec, f: Folded)
    requires f.terminal.Some?
    ensures Finish(codec, f).Terminal?
  {
  }

  lemma FinishedWith(frames: seq<string>, rest: string)
    ensures Finished(frames, rest) == if rest == "" then frames else frames + [rest]
  {
    assert frames + [] == frames;
  }

  lemma SentAtEnd(codec: Codec, taken: seq<string>, rewrite: Option<string>)
    ensures rewrite.None? || Feed(taken).1 == "" ==>
              Sent(codec, taken, true, rewrite) == Sent(codec, taken, false, rewrite)
    ensures rewrite.Some? && Feed(taken).1 != "" ==>
              Sent(codec, taken, true, rewrite)
              == Sent(codec, taken, false, rewrite) + Rewritten(codec, Feed(taken).1, rewrite.value)
  {
    hide Emitted, RewrittenAll, Rewritten, Feed;
  }

  lemma SentStep(codec: Codec, chunks: seq<string>, n: nat, rewrite: Option<string>)
    requires n < |chunks|
    ensures var frames := Scan(Feed(chunks[..n]).1 + chunks[n]).frames;
            var more := if rewrite.None? then chunks[n] else Emitted(RewrittenAll(codec, frames, rewrite.value));
            Sent(codec, chunks[..n + 1], false, rewrite) == Sent(codec, chunks[..n], false, rewrite) + more
  {
    hide Emitted, RewrittenAll, Feed, Scan, Rewritten;
    FeedStep(chunks, n);
    assert chunks[..n + 1][..n] == chunks[..n];
    ConcatLast(chunks[..n + 1]);
    if rewrite.Some? {
      var frames := Scan(Feed(chunks[..n]).1 + chunks[n]).frames;
      RewrittenAllAppend(codec, Feed(chunks[..n]).0, frames, rewrite.value);
      EmittedAppend(RewrittenAll(codec, Feed(chunks[..n]).0, rewrite.value),
                    RewrittenAll(codec, frames, rewrite.value));
    }
  }

  // ---- What the client's bytes say ----

  /** One payload of the rewritten stream. */
  function PayloadSent(codec: Codec, payload: string, id: string): string {
    match ReattachedPayload(codec, Some(payload), id)
    case Some(event) => codec.serialize(event)
    case None => payload
  }

  function PayloadsSent(codec: Codec, payloads: seq<string>, id: string): (r: seq<string>)
    ensures |r| == |payloads|
    ensures forall i :: 0 <= i < |r| ==> r[i] == PayloadSent(codec, payloads[i], id)
  {
    if payloads == [] then [] else [PayloadSent(codec, payloads[0], id)] + PayloadsSent(codec, payloads[1..], id)
  }

  lemma PayloadsSentAppend(codec: Codec, a: seq<string>, b: seq<string>, id: string)
    ensures PayloadsSent(codec, a + b, id) == PayloadsSent(codec, a, id) + PayloadsSent(codec, b, id)
  {
  }

  lemma {:induction false} PayloadsOfRewritten(codec: Codec, frames: seq<string>, id: string)
    requires Lawful(codec)
    requires forall i :: 0 <= i < |frames| ==> SeparatorFree(frames[i])
    ensures Payloads(RewrittenAll(codec, frames, id)) == PayloadsSent(codec, Payloads(frames), id)
  {
    hide PayloadOf, Rewritten, Lawful, SplitLines, SeparatorAt;
    if frames != [] {
      RewrittenFrame(codec, frames[0], id);
      forall i | 0 <= i < |frames[1..]|
        ensures SeparatorFree(frames[1..][i])
      {
        assert frames[1..][i] == frames[i + 1];
      }
      PayloadsOfRewritten(codec, frames[1..], id);
      PayloadsCons(Rewritten(codec, frames[0], id), RewrittenAll(codec, frames[1..], id));
      PayloadsSentAppend(codec, Listed(PayloadOf(frames[0])), Payloads(frames[1..]), id);
      OnePayloadSent(codec, PayloadOf(frames[0]), id);
    }
  }

  lemma OnePayloadSent(codec: Codec, payload: Option<string>, id: string)
    ensures PayloadsSent(codec, Listed(payload), id)
         == match ReattachedPayload(codec, payload, id)
            case Some(event) => [codec.serialize(event)]
            case None => Listed(payload)
  {
  }

  lemma {:induction false} WholePayloads(x: string)
    ensures Payloads(Scan(x).frames) == Events(x, [], false)
    ensures Payloads(Finished(Scan(x).frames, Scan(x).rest)) == Events(x, [], true)
  {
    hide Scan, Payloads, Events, Finished;
    PayloadsIgnoreChunking([x]);
    assert Feed([x]) == (Scan(x).frames, Scan(x).rest) by {
      assert [x][..0] == [] && "" + x == x && [] + Scan(x).frames == Scan(x).frames;
      assert Feed([]) == ([], "");
    }
    assert Concat([x]) == x by {
      assert [x][1..] == [] && x + "" == x;
    }
  }

  lemma TailPayloads(tail: string)
    ensures Payloads(if tail == "" then [] else [tail]) == Listed(PayloadOf(tail))
  {
    hide PayloadOf;
    if tail == "" {
      EmptyHasNoPayload();
    } else {
      assert [tail][1..] == [] && Payloads([]) == [];
    }
  }

  lemma EmptyHasNoPayload()
    ensures PayloadOf("") == None
  {
  }

  /**
   * The rewritten stream holds the payloads of upstream's, each with only the client's id put back: while it is
   * open, and once upstream has ended with the unterminated one too.
   */
  lemma EventsSent(codec: Codec, taken: seq<string>, ended: bool, id: string, atEof: bool)
    requires Lawful(codec) && (atEof ==> ended)
    ensures Events(Sent(codec, taken, ended, Some(id)), [], atEof)
         == PayloadsSent(codec, Events(Concat(taken), [], atEof), id)
  {
    hide Lawful, Rewritten, Scan, Events, SeparatorFree, Payloads, PayloadsSent, PayloadOf, RewrittenAll, Emitted, Feed;
    var (frames, rest) := Feed(taken);
    var out := RewrittenAll(codec, frames, id);
    var sent := Sent(codec, taken, ended, Some(id));
    var tail := if ended && rest != "" then Rewritten(codec, rest, id) else "";
    PayloadsIgnoreChunking(taken);
    RewrittenStreamSplitsBack(codec, taken, id);
    FeedIsFree(taken);
    PayloadsOfRewritten(codec, frames, id);
    assert Emitted(out) + "" == Emitted(out);
    WholePayloads(sent);
    if atEof {
      TailPayloads(tail);
      TailPayloads(rest);
      PayloadsAppend(out, if tail == "" then [] else [tail]);
      PayloadsAppend(frames, if rest == "" then [] else [rest]);
      PayloadsSentAppend(codec, Payloads(frames), Listed(PayloadOf(rest)), id);
      TailSent(codec, rest, id);
    }
  }

  lemma FeedIsFree(taken: seq<string>)
    ensures forall i :: 0 <= i < |Feed(taken).0| ==> SeparatorFree(Feed(taken).0[i])
    ensures SeparatorFree(Feed(taken).1)
  {
    hide SeparatorFree, Feed;
    FedFramesAreFramed(taken);
    EventsOfFeed(taken, "", false);
  }

  lemma {:induction false} TailSent(codec: Codec, rest: string, id: string)
    requires Lawful(codec) && SeparatorFree(rest)
    ensures Listed(PayloadOf(if rest != "" then Rewritten(codec, rest, id) else ""))
         == PayloadsSent(codec, Listed(PayloadOf(rest)), id)
  {
    hide Lawful, Rewritten, PayloadOf, PayloadsSent, SeparatorFree;
    RewrittenFrame(codec, rest, id);
    OnePayloadSent(codec, PayloadOf(rest), id);
    EmptyHasNoPayload();
    NothingParsed(codec, id);
  }

  lemma NothingParsed(codec: Codec, id: string)
    ensures ReattachedPayload(codec, None, id) == None
  {
  }

  // ---- The response the client is handed is the one stored ----

  /** The response of the first terminal event. */
  function FirstTerminal(events: seq<Json>): (r: Option<Json>)
    ensures r.Some? ==> r.value.Obj?
  {
    if events == [] then None
    else if TerminalOf(events[0]).Some? then TerminalOf(events[0])
    else FirstTerminal(events[1..])
  }

  /** Both or neither, and then responses that differ at most in the id put back. */
  ghost predicate SameButId(a: Option<Json>, b: Option<Json>) {
    && (a.Some? <==> b.Some?)
    && (a.Some? ==> forall key :: key != PREVIOUS ==> a.value.Get(key) == b.value.Get(key))
  }

  lemma {:induction false} FirstTerminalAppend(a: seq<Json>, b: seq<Json>)
    ensures FirstTerminal(a + b) == if FirstTerminal(a).Some? then FirstTerminal(a) else FirstTerminal(b)
  {
    if a == [] {
      assert a + b == b;
    } else {
      assert (a + b)[1..] == a[1..] + b;
      FirstTerminalAppend(a[1..], b);
    }
  }

  lemma {:induction false} FoldsToFirst(f: Folded, events: seq<Json>)
    ensures AbsorbAll(f, events).terminal == if f.terminal.Some? then f.terminal else FirstTerminal(events)
    decreases |events|
  {
    hide Absorb, TerminalOf;
    if events != [] {
      AbsorbTerminal(f, events[0]);
      FoldsToFirst(Absorb(f, events[0]), events[1..]);
    }
  }

  lemma AbsorbTerminal(f: Folded, event: Json)
    ensures Absorb(f, event).terminal == if f.terminal.Some? then f.terminal else TerminalOf(event)
  {
  }

  /** Putting an id back makes no event terminal, no terminal event something else, and no response another. */
  lemma ReattachedTerminal(event: Json, id: string)
    requires Reattached(event, id).Some?
    ensures SameButId(TerminalOf(Reattached(event, id).value), TerminalOf(event))
  {
    ReattachedOnce(event, id, "type");
    forall key | key != PREVIOUS
      ensures Reattached(event, id).value.Get("response").value.Get(key) == event.Get("response").value.Get(key)
    {
      ReattachedOnce(event, id, key);
    }
  }

  lemma {:induction false} FirstSent(codec: Codec, payloads: seq<string>, id: string)
    requires Lawful(codec)
    ensures SameButId(FirstTerminal(Parsed(codec, PayloadsSent(codec, payloads, id))),
                      FirstTerminal(Parsed(codec, payloads)))
  {
    hide Lawful, FirstTerminal, SameButId, PayloadSent;
    if payloads == [] {
      SameAsItself(FirstTerminal([]));
    } else {
      var p := payloads[0];
      var sent := PayloadsSent(codec, payloads[1..], id);
      FirstSent(codec, payloads[1..], id);
      OneSent(codec, p, id);
      FirstTerminalAppend(Listed(codec.parse(p)), Parsed(codec, payloads[1..]));
      FirstTerminalAppend(Listed(codec.parse(PayloadSent(codec, p, id))), Parsed(codec, sent));
      assert ([PayloadSent(codec, p, id)] + sent)[1..] == sent;
      SameIsSome(FirstTerminal(Listed(codec.parse(PayloadSent(codec, p, id)))), FirstTerminal(Listed(codec.parse(p))));
    }
  }

  lemma SameAsItself(a: Option<Json>)
    ensures SameButId(a, a)
  {
  }

  lemma SameIsSome(a: Option<Json>, b: Option<Json>)
    requires SameButId(a, b)
    ensures a.Some? <==> b.Some?
  {
  }

  lemma SameId(a: Option<Json>, b: Option<Json>)
    requires SameButId(a, b) && a.Some?
    ensures a.value.GetStr("id") == b.value.GetStr("id")
  {
    assert "id" != PREVIOUS;
  }

  lemma SameOutput(a: Option<Json>, b: Option<Json>)
    requires SameButId(a, b) && a.Some?
    ensures forall items, output :: IsOutput(a.value, items, output) <==> IsOutput(b.value, items, output)
  {
    hide InIndexOrder;
    assert "output" != PREVIOUS;
    assert a.value.Get("output") == b.value.Get("output");
  }

  lemma FirstOfOne(event: Option<Json>)
    ensures FirstTerminal(Listed(event)) == if event.Some? then TerminalOf(event.value) else None
  {
    hide TerminalOf;
    if event.Some? {
      assert [event.value][1..] == [] && FirstTerminal([]) == None;
    }
  }

  lemma {:induction false} OneSent(codec: Codec, payload: string, id: string)
    requires Lawful(codec)
    ensures SameButId(FirstTerminal(Listed(codec.parse(PayloadSent(codec, payload, id)))),
                      FirstTerminal(Listed(codec.parse(payload))))
  {
    hide FirstTerminal, SameButId, Reattached;
    var event := ReattachedPayload(codec, Some(payload), id);
    FirstOfOne(codec.parse(payload));
    FirstOfOne(codec.parse(PayloadSent(codec, payload, id)));
    if event.Some? {
      ReattachedWellFormed(codec, Some(payload), id);
      assert codec.parse(codec.serialize(event.value)) == event;
      ReattachedTerminal(codec.parse(payload).value, id);
    } else {
      SameAsItself(FirstTerminal(Listed(codec.parse(payload))));
    }
  }

  /** The client's stream and upstream's end with the same response, but for the id put back. */
  lemma TerminalSent(codec: Codec, taken: seq<string>, ended: bool, rewrite: Option<string>, atEof: bool)
    requires (rewrite.Some? ==> Lawful(codec)) && (atEof ==> ended)
    ensures SameButId(Folds(codec, Sent(codec, taken, ended, rewrite), atEof).terminal,
                      Folds(codec, Concat(taken), atEof).terminal)
  {
    hide Lawful, Events, Parsed, Absorb, SameButId, FirstTerminal, AbsorbAll;
    FoldsToFirst(EMPTY, Parsed(codec, Events(Sent(codec, taken, ended, rewrite), [], atEof)));
    FoldsToFirst(EMPTY, Parsed(codec, Events(Concat(taken), [], atEof)));
    if rewrite.Some? {
      EventsSent(codec, taken, ended, rewrite.value, atEof);
      FirstSent(codec, Events(Concat(taken), [], atEof), rewrite.value);
    } else {
      SameAsItself(Folds(codec, Concat(taken), atEof).terminal);
    }
  }

  /** The end of the stream can only add to what the open stream folds to. */
  lemma FoldOnlyGrows(codec: Codec, taken: seq<string>)
    ensures Folds(codec, Concat(taken), false).terminal.Some? ==>
              Folds(codec, Concat(taken), true) == Folds(codec, Concat(taken), false)
  {
    hide Feed, FoldFrames, Folds;
    FoldsOfFeed(codec, taken, false);
    FoldsOfFeed(codec, taken, true);
    var (frames, rest) := Feed(taken);
    if FoldFrames(codec, EMPTY, frames).terminal.Some? {
      assert frames <= Finished(frames, rest);
      TerminalPrefix(codec, frames, Finished(frames, rest));
    }
  }

  /** A terminal response makes a turn exactly when it has an id, and the turn has its output. */
  lemma TurnIffNamed(codec: Codec, stream: string, atEof: bool, parent: Option<string>, sub: string, delta: seq<Json>)
    ensures var f := Folds(codec, stream, atEof);
            var turns := Turns(codec, f, parent, sub, delta);
            f.terminal.Some? ==>
              && f.terminal.value.Obj?
              && (|turns| == 1 <==> f.terminal.value.GetStr("id").Some?)
              && (f.terminal.value.GetStr("id").Some? ==>
                    && turns[0].id == f.terminal.value.GetStr("id").value
                    && turns[0].parent == parent && turns[0].sub == sub && turns[0].input == delta
                    && IsOutput(f.terminal.value, f.items, turns[0].output))
  {
    hide Events, Parsed, Finish, IsOutput, AbsorbAll;
    var f := Folds(codec, stream, atEof);
    FoldsToFirst(EMPTY, Parsed(codec, Events(stream, [], atEof)));
    if f.terminal.Some? {
      FinishMeans(codec, f);
      assert Finish(codec, f).response.Get("id") == f.terminal.value.Get("id");
    }
  }
}
