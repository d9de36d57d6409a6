/** JSON values as the proxy handles them; reading and writing their text is a parameter of the model. */
module Json {
  import opened Prelude

  /** serde_json's three kinds of number; a float is a finite 64-bit one. */
  datatype Number = Unsigned(n: nat) | Negative(i: int) | Float(r: real)

  datatype Json =
    | Null
    | Bool(b: bool)
    | Num(number: Number)
    | Str(text: string)
    | Arr(items: seq<Json>)
    | Obj(fields: seq<(string, Json)>)
  {
    function Get(key: string): Option<Json> {
      if Obj? then Lookup(fields, key) else None
    }

    /** The string under `key`, or nothing. */
    function GetStr(key: string): Option<string> {
      match Get(key)
      case Some(Str(text)) => Some(text)
      case _ => None
    }

    /** `Map::insert`: an existing key keeps its place. */
    function With(key: string, value: Json): Json
      requires Obj?
    {
      Obj(Insert(fields, key, value))
    }
  }

  function Lookup(fields: seq<(string, Json)>, key: string): Option<Json> {
    if fields == [] then None
    else if fields[0].0 == key then Some(fields[0].1)
    else Lookup(fields[1..], key)
  }

  function Insert(fields: seq<(string, Json)>, key: string, value: Json): seq<(string, Json)> {
    if fields == [] then [(key, value)]
    else if fields[0].0 == key then [(key, value)] + fields[1..]
    else [fields[0]] + Insert(fields[1..], key, value)
  }

  lemma {:induction false} InsertThenLookup(fields: seq<(string, Json)>, key: string, value: Json, other: string)
    ensures Lookup(Insert(fields, key, value), other) == if other == key then Some(value) else Lookup(fields, other)
    ensures Insert(Insert(fields, key, value), key, value) == Insert(fields, key, value)
  {
    if fields == [] {
    } else if fields[0].0 != key {
      InsertThenLookup(fields[1..], key, value, other);
      assert ([fields[0]] + Insert(fields[1..], key, value))[1..] == Insert(fields[1..], key, value);
    } else {
      assert ([(key, value)] + fields[1..])[1..] == fields[1..];
    }
  }

  // ---- The values serde_json can hold ----

  function Pow2(e: int): real
    decreases if e < 0 then -e else e
  {
    if e == 0 then 1.0 else if e > 0 then 2.0 * Pow2(e - 1) else Pow2(e + 1) / 2.0
  }

  function Scaled(m: int, e: int): real { m as real * Pow2(e) }

  /** A finite binary64: a 53-bit integer times a power of two in range (section 3.4 of IEEE 754-2019). */
  ghost predicate IsBinary64(r: real) {
    exists m: int, e: int :: -0x20_0000_0000_0000 < m < 0x20_0000_0000_0000 && -1074 <= e <= 971 && r == Scaled(m, e)
  }

  predicate UniqueKeys(fields: seq<(string, Json)>) {
    forall i, j :: 0 <= i < j < |fields| ==> fields[i].0 != fields[j].0
  }

  /** No repeated keys, integers of 64 bits, floats of 64 bits. */
  ghost predicate WellFormed(v: Json) {
    match v
    case Num(Unsigned(n)) => n <= U64_MAX
    case Num(Negative(i)) => -0x8000_0000_0000_0000 <= i < 0
    case Num(Float(r)) => IsBinary64(r)
    case Arr(items) => forall i :: 0 <= i < |items| ==> WellFormed(items[i])
    case Obj(fields) => UniqueKeys(fields) && forall i :: 0 <= i < |fields| ==> WellFormed(fields[i].1)
    case _ => true
  }

  datatype Codec = Codec(parse: string -> Option<Json>, serialize: Json -> string)
}

/** The fold of a Codex stream to one response, `crates/libsubby/src/proxy/sse.rs:149-259`. */
module SseAggregate {
  import opened Prelude
  import opened Json
  import opened SseFramer
  import opened SsePayload

  const ERROR_DETAIL_LIMIT: nat := 300

  datatype Aggregated = Terminal(response: Json) | NoTerminal(detail: Option<string>)

  /** What an aggregator holds. */
  datatype Folded = Folded(terminal: Option<Json>, error: Option<Json>, items: map<nat, Json>, next: nat)

  const EMPTY: Folded := Folded(None, None, map[], 0)

  /** `saturating_add(1)` on 64 bits. */
  function Successor(n: nat): (r: nat)
    ensures r <= U64_MAX
  {
    if n < U64_MAX then n + 1 else U64_MAX
  }

  /** What a number says as an index: whole and not below zero, however it was written, cut to 64 bits. */
  function OutputIndex(value: Option<Json>): (r: Option<nat>)
    ensures r.Some? ==> r.value <= U64_MAX
  {
    match value
    case Some(Num(Unsigned(n))) => if n <= U64_MAX then Some(n) else None
    case Some(Num(Float(r))) =>
      if r >= 0.0 && r == r.Floor as real then Some(if r.Floor <= U64_MAX then r.Floor else U64_MAX) else None
    case _ => None
  }

  function EventType(event: Json): string {
    match event.GetStr("type")
    case Some(t) => t
    case None => ""
  }

  predicate IsTerminalType(t: string) {
    t == "response.completed" || t == "response.incomplete" || t == "response.failed"
  }

  /** The response an event ends the stream with, if it is a terminal event. */
  function TerminalOf(event: Json): Option<Json> {
    match event.Get("response")
    case Some(response) => if IsTerminalType(EventType(event)) && response.Obj? then Some(response) else None
    case None => None
  }

  predicate IsItem(event: Json) { EventType(event) == "response.output_item.done" && event.Get("item").Some? }

  function Absorb(f: Folded, event: Json): Folded {
    if f.terminal.Some? then f
    else
      var index := OutputIndex(event.Get("output_index"));
      var at := if index.Some? then index.value else f.next;
      var f1 :=
        if IsItem(event) then f.(items := f.items[at := event.Get("item").value], next := Max(f.next, Successor(at)))
        else f;
      var f2 := f1.(terminal := TerminalOf(event));
      if EventType(event) == "error" then f2.(error := Some(event)) else f2
  }

  function AbsorbAll(f: Folded, events: seq<Json>): Folded
    decreases |events|
  {
    if events == [] then f else AbsorbAll(Absorb(f, events[0]), events[1..])
  }

  /** The payloads that parse, in order. */
  function Parsed(codec: Codec, payloads: seq<string>): seq<Json> {
    if payloads == [] then []
    else Listed(codec.parse(payloads[0])) + Parsed(codec, payloads[1..])
  }

  function InOrder(keys: set<nat>): (r: seq<nat>)
    ensures forall k :: k in r <==> k in keys
    ensures forall i, j :: 0 <= i < j < |r| ==> r[i] < r[j]
  {
    if keys == {} then []
    else
      var k := LeastKey(keys);
      [k] + InOrder(keys - {k})
  }

  function LeastKey(keys: set<nat>): (k: nat)
    requires keys != {}
    ensures k in keys && forall j :: j in keys ==> k <= j
  {
    LeastExists(keys);
    var k :| k in keys && forall j :: j in keys ==> k <= j;
    k
  }

  lemma LeastExists(keys: set<nat>)
    requires keys != {}
    ensures exists k :: k in keys && forall j :: j in keys ==> k <= j
  {
    var k := LeastOf(keys);
  }

  lemma {:induction false} LeastOf(keys: set<nat>) returns (k: nat)
    requires keys != {}
    ensures k in keys && forall j :: j in keys ==> k <= j
  {
    var x :| x in keys;
    var rest := keys - {x};
    k := x;
    if rest != {} {
      var y := LeastOf(rest);
      k := if x < y then x else y;
    }
    forall j | j in keys
      ensures k <= j
    {
      assert j == x || j in rest;
    }
  }

  /** The collected items in index order. */
  function ItemsInOrder(m: map<nat, Json>): (r: seq<Json>)
    ensures |r| == |InOrder(m.Keys)|
    ensures forall i :: 0 <= i < |r| ==> r[i] == m[InOrder(m.Keys)[i]]
  {
    var keys := InOrder(m.Keys);
    seq(|keys|, i requires 0 <= i < |keys| => m[keys[i]])
  }

  function Truncate(text: string): string { if |text| <= ERROR_DETAIL_LIMIT then text else text[..ERROR_DETAIL_LIMIT] }

  predicate HasOutput(response: Json) {
    match response.Get("output")
    case Some(Arr(items)) => items != []
    case _ => false
  }

  /** A terminal response without output of its own is given the collected items. */
  function Finish(codec: Codec, f: Folded): Aggregated {
    match f.terminal
    case None => NoTerminal(if f.error.Some? then Some(Truncate(codec.serialize(f.error.value))) else None)
    case Some(response) =>
      if response.Obj? && !HasOutput(response) then Terminal(response.With("output", Arr(ItemsInOrder(f.items))))
      else Terminal(response)
  }

  // ---- What a finished fold says ----

  ghost predicate Ascending(keys: seq<nat>, items: map<nat, Json>) {
    && (forall i, j :: 0 <= i < j < |keys| ==> keys[i] < keys[j])
    && forall k :: k in keys <==> k in items
  }

  /** These are all the items, by ascending index. */
  ghost predicate InIndexOrder(items: map<nat, Json>, list: seq<Json>) {
    exists keys :: Ascending(keys, items) && |list| == |keys|
                   && forall i :: 0 <= i < |keys| ==> list[i] == items[keys[i]]
  }

  /** The output of a response: its own list unless that is missing or empty, else the items collected. */
  ghost predicate IsOutput(response: Json, items: map<nat, Json>, output: seq<Json>) {
    var own := response.Get("output");
    if own.Some? && own.value.Arr? && own.value.items != [] then output == own.value.items
    else InIndexOrder(items, output)
  }

  /** The response with its output filled in, and otherwise as upstream sent it. */
  ghost predicate Completed(response: Json, items: map<nat, Json>, result: Json) {
    && result.Obj?
    && result.Get("output").Some? && result.Get("output").value.Arr?
    && IsOutput(response, items, result.Get("output").value.items)
    && forall key :: key != "output" ==> result.Get(key) == response.Get(key)
  }

  /** The first 300 characters, or all if there are no more. */
  predicate Shortened(text: string, short: string) { short <= text && |short| == if |text| < 300 then |text| else 300 }

  /**
   * A terminal response comes out with its output filled in from the items, in index order, unless it has one of
   * its own; without a terminal event there is none, and the last error is quoted.
   */
  lemma FinishMeans(codec: Codec, f: Folded)
    requires f.terminal.Some? ==> f.terminal.value.Obj?
    ensures var result := Finish(codec, f);
            && (f.terminal.Some? ==> result.Terminal? && Completed(f.terminal.value, f.items, result.response))
            && (f.terminal.None? ==>
                  && result.NoTerminal?
                  && (result.detail.Some? <==> f.error.Some?)
                  && (f.error.Some? ==> Shortened(codec.serialize(f.error.value), result.detail.value)))
  {
    hide InIndexOrder, ItemsInOrder, Lookup, Insert;
    if f.terminal.Some? {
      ItemsAscend(f.items);
      OutputPut(f.terminal.value, ItemsInOrder(f.items));
    }
  }

  lemma OutputPut(response: Json, output: seq<Json>)
    requires response.Obj?
    ensures var result := response.With("output", Arr(output));
            && result.Obj? && result.Get("output") == Some(Arr(output))
            && forall key :: key != "output" ==> result.Get(key) == response.Get(key)
  {
    forall key
      ensures response.With("output", Arr(output)).Get(key)
           == if key == "output" then Some(Arr(output)) else response.Get(key)
    {
      InsertThenLookup(response.fields, "output", Arr(output), key);
    }
  }

  lemma ItemsAscend(items: map<nat, Json>)
    ensures InIndexOrder(items, ItemsInOrder(items))
  {
    assert Ascending(InOrder(items.Keys), items);
  }

  /** A whole float counts as the integer it is; what is negative, not whole, or no number is no index. */
  lemma IndexOfNumber(n: nat, r: real)
    requires n <= U64_MAX
    ensures OutputIndex(Some(Num(Unsigned(n)))) == OutputIndex(Some(Num(Float(n as real)))) == Some(n)
    ensures r < 0.0 || r != r.Floor as real ==> OutputIndex(Some(Num(Float(r)))) == None
    ensures forall v: Option<Json> :: (v.Some? ==> !v.value.Num?) ==> OutputIndex(v) == None
  {
  }

  class Aggregator {
    var terminal: Option<Json>
    var error: Option<Json>
    var items: map<nat, Json>
    var next: nat

    ghost function View(): Folded
      reads this
    {
      Folded(terminal, error, items, next)
    }

    constructor ()
      ensures View() == EMPTY
    {
      terminal, error, items, next := None, None, map[], 0;
    }

    method Consume(codec: Codec, frame: string)
      modifies this
      ensures View() == AbsorbAll(old(View()), Parsed(codec, Listed(PayloadOf(frame))))
    {
      hide PayloadOf;
      ghost var before := View();
      if terminal.Some? {
        StaysTerminal(View(), Parsed(codec, Listed(PayloadOf(frame))));
        return;
      }
      var payload := DataPayload(frame);
      if payload == None {
        return;
      }
      var parsed := codec.parse(payload.value);
      ParsedOne(codec, payload.value);
      if parsed == None {
        return;
      }
      var event := parsed.value;
      AbsorbOne(before, event);
      if EventType(event) == "response.output_item.done" && event.Get("item").Some? {
        var given := OutputIndex(event.Get("output_index"));
        var index := if given.Some? then given.value else next;
        items := items[index := event.Get("item").value];
        next := Max(next, Successor(index));
      }
      if IsTerminalType(EventType(event)) && event.Get("response").Some? && event.Get("response").value.Obj? {
        terminal := event.Get("response");
      }
      if EventType(event) == "error" {
        error := Some(event);
      }
    }
  }

  lemma ParsedOne(codec: Codec, payload: string)
    ensures Parsed(codec, [payload]) == Listed(codec.parse(payload))
  {
    assert Parsed(codec, [payload]) == Listed(codec.parse(payload)) + Parsed(codec, []);
  }

  lemma AbsorbOne(f: Folded, event: Json)
    ensures AbsorbAll(f, [event]) == Absorb(f, event)
  {
    assert [event][1..] == [];
  }

  // ---- After a terminal event ----

  lemma {:induction false} StaysTerminal(f: Folded, events: seq<Json>)
    requires f.terminal.Some?
    ensures AbsorbAll(f, events) == f
  {
    if events != [] {
      StaysTerminal(f, events[1..]);
    }
  }

  lemma {:induction false} AbsorbAppend(f: Folded, a: seq<Json>, b: seq<Json>)
    ensures AbsorbAll(f, a + b) == AbsorbAll(AbsorbAll(f, a), b)
    decreases |a|
  {
    hide Absorb;
    if a == [] {
      assert a + b == b;
    } else {
      assert (a + b)[1..] == a[1..] + b;
      AbsorbAppend(Absorb(f, a[0]), a[1..], b);
    }
  }

  lemma {:induction false} ParsedAppend(codec: Codec, a: seq<string>, b: seq<string>)
    ensures Parsed(codec, a + b) == Parsed(codec, a) + Parsed(codec, b)
  {
    if a == [] {
      assert a + b == b;
    } else {
      assert (a + b)[1..] == a[1..] + b;
      ParsedAppend(codec, a[1..], b);
    }
  }

  // ---- The event that ends a stream ----

  /** A response that is complete, cut short or failed. */
  predicate EndsStream(event: Json) {
    && (|| event.GetStr("type") == Some("response.completed")
        || event.GetStr("type") == Some("response.incomplete")
        || event.GetStr("type") == Some("response.failed"))
    && event.Get("response").Some? && event.Get("response").value.Obj?
  }

  predicate IsError(event: Json) { event.GetStr("type") == Some("error") }

  /** Event `i` is the first to end the stream. */
  predicate FirstEnd(events: seq<Json>, i: nat) {
    i < |events| && EndsStream(events[i]) && forall j :: 0 <= j < i ==> !EndsStream(events[j])
  }

  /** The last event that reports an error. */
  ghost predicate LastError(events: seq<Json>, error: Option<Json>) {
    match error
    case None => forall i :: 0 <= i < |events| ==> !IsError(events[i])
    case Some(event) =>
      exists i :: 0 <= i < |events| && events[i] == event && IsError(event)
                  && forall j :: i < j < |events| ==> !IsError(events[j])
  }

  /** A fold ends with the response of the first event that ends the stream, and the items collected up to it. */
  lemma {:induction false} FoldMeans(events: seq<Json>)
    ensures var f := AbsorbAll(EMPTY, events);
            && (f.terminal.None? <==> forall i :: 0 <= i < |events| ==> !EndsStream(events[i]))
            && (f.terminal.None? ==> LastError(events, f.error))
            && (f.terminal.Some? ==>
                  exists i: nat :: FirstEnd(events, i) && f.terminal == events[i].Get("response")
                              && f.items == AbsorbAll(EMPTY, events[..i]).items)
  {
    hide Absorb, EndsStream, IsError;
    if events != [] {
      var last := |events| - 1;
      var (init, event) := (events[..last], events[last]);
      assert events == init + [event];
      FoldMeans(init);
      AbsorbAppend(EMPTY, init, [event]);
      AbsorbOne(AbsorbAll(EMPTY, init), event);
      AbsorbMeans(AbsorbAll(EMPTY, init), event);
      if AbsorbAll(EMPTY, init).terminal.Some? {
        var i: nat :| FirstEnd(init, i) && AbsorbAll(EMPTY, init).terminal == init[i].Get("response")
                 && AbsorbAll(EMPTY, init).items == AbsorbAll(EMPTY, init[..i]).items;
        assert init[..i] == events[..i] && FirstEnd(events, i);
      } else if EndsStream(event) {
        assert FirstEnd(events, last);
      }
    }
  }

  lemma AbsorbMeans(f: Folded, event: Json)
    ensures var after := Absorb(f, event);
            && (f.terminal.Some? ==> after == f)
            && (f.terminal.None? ==>
                  && after.terminal == (if EndsStream(event) then event.Get("response") else None)
                  && (EndsStream(event) ==> after.items == f.items && event.Get("response").Some?)
                  && after.error == (if IsError(event) then Some(event) else f.error))
  {
  }

  // ---- Items ----

  /** Every key is below the next free index, except that the last 64-bit index has no successor. */
  predicate IndexInv(f: Folded) {
    && f.next <= U64_MAX
    && forall k :: k in f.items ==> k < f.next || (k == U64_MAX && f.next == U64_MAX)
  }

  lemma {:induction false} IndexInvKept(f: Folded, events: seq<Json>)
    requires IndexInv(f)
    ensures IndexInv(AbsorbAll(f, events))
    decreases |events|
  {
    if events != [] {
      IndexInvKept(Absorb(f, events[0]), events[1..]);
    }
  }

  /**
   * After any events, an item without a usable index displaces no earlier item, exactly when no item
   * holds the last 64-bit index.
   */
  lemma UnindexedItemKept(events: seq<Json>, event: Json)
    requires AbsorbAll(EMPTY, events).terminal == None
    requires IsItem(event) && OutputIndex(event.Get("output_index")) == None
    ensures var f := AbsorbAll(EMPTY, events);
            && Absorb(f, event).items == f.items[f.next := event.Get("item").value]
            && (f.next !in f.items <==> U64_MAX !in f.items)
  {
    IndexInvKept(EMPTY, events);
  }

  /** An item at the last index followed by one without an index: the first is lost. */
  lemma LastIndexIsOverwritten(a: Json, b: Json)
    ensures var type_ := ("type", Str("response.output_item.done"));
            var first := Obj([type_, ("output_index", Num(Unsigned(U64_MAX))), ("item", a)]);
            var second := Obj([type_, ("item", b)]);
            AbsorbAll(EMPTY, [first, second]).items == map[U64_MAX := b]
  {
    var type_ := ("type", Str("response.output_item.done"));
    var first := Obj([type_, ("output_index", Num(Unsigned(U64_MAX))), ("item", a)]);
    var second := Obj([type_, ("item", b)]);
    Fields3(type_, ("output_index", Num(Unsigned(U64_MAX))), ("item", a));
    Fields2(type_, ("item", b));
    var f1 := Absorb(EMPTY, first);
    assert f1 == Folded(None, None, map[U64_MAX := a], U64_MAX);
    var f2 := Absorb(f1, second);
    assert f2.items == map[U64_MAX := b];
    assert AbsorbAll(EMPTY, [first, second]) == f2 by {
      AbsorbAppend(EMPTY, [first], [second]);
      assert [first] + [second] == [first, second];
      AbsorbOne(EMPTY, first);
      AbsorbOne(f1, second);
    }
  }

  lemma Fields2(a: (string, Json), b: (string, Json))
    ensures forall k :: Lookup([a, b], k) == if k == a.0 then Some(a.1) else if k == b.0 then Some(b.1) else None
  {
    assert [a, b][1..] == [b] && [b][1..] == [];
    assert forall k :: Lookup([b], k) == if k == b.0 then Some(b.1) else None;
  }

  lemma Fields3(a: (string, Json), b: (string, Json), c: (string, Json))
    ensures forall k :: Lookup([a, b, c], k)
                     == if k == a.0 then Some(a.1)
                        else if k == b.0 then Some(b.1)
                        else if k == c.0 then Some(c.1)
                        else None
  {
    assert [a, b, c][1..] == [b, c];
    Fields2(b, c);
  }

  predicate IsIndexedItem(event: Json) { IsItem(event) && OutputIndex(event.Get("output_index")).Some? }

  function IndexOf(event: Json): nat
    requires IsIndexedItem(event)
  {
    OutputIndex(event.Get("output_index")).value
  }

  function ItemOf(event: Json): Json
    requires IsIndexedItem(event)
  {
    event.Get("item").value
  }

  /** Item events of which no two different ones share an index. */
  ghost predicate DistinctlyIndexed(events: seq<Json>) {
    && (forall e :: e in events ==> IsIndexedItem(e))
    && forall e, g :: e in events && g in events && IndexOf(e) == IndexOf(g) ==> e == g
  }

  /** What distinctly indexed items leave behind, said without their order. */
  ghost predicate Collected(f: Folded, events: seq<Json>, r: Folded)
    requires forall e :: e in events ==> IsIndexedItem(e)
  {
    && r.terminal == f.terminal && r.error == f.error
    && Filled(f.items, events, r.items)
    && f.next <= r.next
    && (forall e :: e in events ==> Successor(IndexOf(e)) <= r.next)
    && (r.next == f.next || exists e :: e in events && r.next == Successor(IndexOf(e)))
  }

  ghost predicate Filled(before: map<nat, Json>, events: seq<Json>, after: map<nat, Json>)
    requires forall e :: e in events ==> IsIndexedItem(e)
  {
    && (forall k :: k in after <==> k in before || exists e :: e in events && IndexOf(e) == k)
    && (forall e :: e in events ==> IndexOf(e) in after && after[IndexOf(e)] == ItemOf(e))
    && forall k :: k in before && (forall e :: e in events ==> IndexOf(e) != k) ==> k in after && after[k] == before[k]
  }

  /** The fold with this item put at its index. */
  function Put(f: Folded, e: Json): Folded
    requires IsIndexedItem(e)
  {
    f.(items := f.items[IndexOf(e) := ItemOf(e)], next := Max(f.next, Successor(IndexOf(e))))
  }

  lemma AbsorbIndexed(f: Folded, e: Json)
    requires f.terminal == None && IsIndexedItem(e)
    ensures Absorb(f, e) == Put(f, e)
  {
  }

  lemma {:induction false} ItemsCollected(f: Folded, events: seq<Json>)
    requires f.terminal == None && DistinctlyIndexed(events)
    ensures Collected(f, events, AbsorbAll(f, events))
    decreases |events|
  {
    hide Absorb, IsIndexedItem, IndexOf, ItemOf, Successor, Collected;
    if events == [] {
      NoneCollected(f);
    } else {
      var e := events[0];
      var rest := events[1..];
      assert events == [e] + rest;
      AbsorbIndexed(f, e);
      ItemsCollected(Absorb(f, e), rest);
      CollectedCons(f, e, rest, AbsorbAll(f, events));
    }
  }

  lemma NoneCollected(f: Folded)
    ensures Collected(f, [], f)
  {
  }

  lemma {:induction false} CollectedCons(f: Folded, e: Json, rest: seq<Json>, r: Folded)
    requires f.terminal == None && DistinctlyIndexed([e] + rest)
    requires IsIndexedItem(e) && (forall g :: g in rest ==> IsIndexedItem(g)) && Collected(Put(f, e), rest, r)
    ensures Collected(f, [e] + rest, r)
  {
    hide IsIndexedItem, IndexOf, ItemOf, Successor, Filled;
    assert forall g :: g in [e] + rest <==> g == e || g in rest;
    FilledCons(f.items, e, rest, r.items);
  }

  lemma FilledCons(before: map<nat, Json>, e: Json, rest: seq<Json>, after: map<nat, Json>)
    requires DistinctlyIndexed([e] + rest)
    requires IsIndexedItem(e) && (forall g :: g in rest ==> IsIndexedItem(g))
    requires Filled(before[IndexOf(e) := ItemOf(e)], rest, after)
    ensures Filled(before, [e] + rest, after)
  {
    hide IsIndexedItem, IndexOf, ItemOf;
    assert forall g :: g in [e] + rest <==> g == e || g in rest;
    var put := before[IndexOf(e) := ItemOf(e)];
    if forall g :: g in rest ==> IndexOf(g) != IndexOf(e) {
      assert after[IndexOf(e)] == put[IndexOf(e)];
    }
  }

  lemma IndexedInAnyOrder(f: Folded, a: seq<Json>, b: seq<Json>)
    requires f.terminal == None && DistinctlyIndexed(a)
    requires forall e :: e in a <==> e in b
    ensures AbsorbAll(f, a) == AbsorbAll(f, b)
  {
    hide IsIndexedItem, IndexOf, ItemOf, Successor, AbsorbAll;
    ItemsCollected(f, a);
    ItemsCollected(f, b);
    CollectedOnce(f, a, b, AbsorbAll(f, a), AbsorbAll(f, b));
  }

  // ---- Items among other events ----

  /** The item events of a run, in order. */
  function ItemsAmong(events: seq<Json>): seq<Json> {
    if events == [] then [] else (if IsItem(events[0]) then [events[0]] else []) + ItemsAmong(events[1..])
  }

  ghost predicate TerminalFree(events: seq<Json>) { forall e :: e in events ==> TerminalOf(e) == None }

  ghost predicate SameItems(f: Folded, g: Folded) {
    f.terminal == None && g.terminal == None && f.items == g.items && f.next == g.next
  }

  lemma AbsorbSame(f: Folded, g: Folded, e: Json)
    requires SameItems(f, g) && TerminalOf(e) == None
    ensures SameItems(Absorb(f, e), if IsItem(e) then Absorb(g, e) else g)
  {
  }

  /** What other events stand between the items does not matter to them. */
  lemma {:induction false} OthersLeaveItems(f: Folded, g: Folded, events: seq<Json>)
    requires SameItems(f, g) && TerminalFree(events)
    ensures SameItems(AbsorbAll(f, events), AbsorbAll(g, ItemsAmong(events)))
    decreases |events|
  {
    hide Absorb, SameItems, TerminalOf, IsItem;
    if events != [] {
      var e, rest := events[0], events[1..];
      var h := if IsItem(e) then Absorb(g, e) else g;
      AbsorbSame(f, g, e);
      assert forall x :: x in rest ==> x in events;
      OthersLeaveItems(Absorb(f, e), h, rest);
      ItemsAmongStep(events);
      if IsItem(e) {
        assert ([e] + ItemsAmong(rest))[1..] == ItemsAmong(rest);
      } else {
        assert [] + ItemsAmong(rest) == ItemsAmong(rest);
      }
    }
  }

  lemma ItemsAmongStep(events: seq<Json>)
    requires events != []
    ensures ItemsAmong(events) == (if IsItem(events[0]) then [events[0]] else []) + ItemsAmong(events[1..])
  {
  }

  /**
   * In any two runs with the same item events among whatever others, the items carrying distinct indices, the order
   * of arrival leaves no trace: the items collected are the same, and so is the response once the stream ends.
   */
  lemma {:induction false} ItemsInAnyOrder(codec: Codec, f: Folded, a: seq<Json>, b: seq<Json>, last: Json)
    requires f.terminal == None && TerminalFree(a) && TerminalFree(b) && TerminalOf(last).Some?
    requires DistinctlyIndexed(ItemsAmong(a)) && forall e :: e in ItemsAmong(a) <==> e in ItemsAmong(b)
    ensures SameItems(AbsorbAll(f, a), AbsorbAll(f, b))
    ensures Finish(codec, AbsorbAll(f, a + [last])) == Finish(codec, AbsorbAll(f, b + [last]))
  {
    hide Absorb, AbsorbAll, TerminalOf, DistinctlyIndexed, TerminalFree, Finish, ItemsAmong;
    OthersLeaveItems(f, f, a);
    OthersLeaveItems(f, f, b);
    IndexedInAnyOrder(f, ItemsAmong(a), ItemsAmong(b));
    AbsorbAppend(f, a, [last]);
    AbsorbAppend(f, b, [last]);
    AbsorbOne(AbsorbAll(f, a), last);
    AbsorbOne(AbsorbAll(f, b), last);
    SameFinish(codec, AbsorbAll(f, a), AbsorbAll(f, b), last);
  }

  lemma SameFinish(codec: Codec, f: Folded, g: Folded, last: Json)
    requires SameItems(f, g) && TerminalOf(last).Some?
    ensures Finish(codec, Absorb(f, last)) == Finish(codec, Absorb(g, last))
  {
  }

  lemma CollectedOnce(f: Folded, a: seq<Json>, b: seq<Json>, r: Folded, q: Folded)
    requires forall e :: e in a ==> IsIndexedItem(e)
    requires forall e :: e in a <==> e in b
    requires Collected(f, a, r) && Collected(f, b, q)
    ensures r == q
  {
    hide IsIndexedItem, IndexOf, ItemOf, Successor;
    forall k | k in r.items
      ensures k in q.items && q.items[k] == r.items[k]
    {
      if e :| e in a && IndexOf(e) == k {
        assert r.items[IndexOf(e)] == ItemOf(e) && q.items[IndexOf(e)] == ItemOf(e);
      }
    }
    assert r.items.Keys == q.items.Keys;
    assert r.items == q.items;
  }

  // ---- The whole stream ----

  datatype Chunk = Bytes(bytes: string) | Broken(error: string)

  /** The bytes that arrive before the first transport error. */
  function Arrived(chunks: seq<Chunk>): (r: seq<string>)
    ensures |r| <= |chunks|
    ensures |r| < |chunks| ==> chunks[|r|].Broken?
    ensures forall i :: 0 <= i < |r| ==> chunks[i] == Bytes(r[i])
  {
    if chunks == [] || chunks[0].Broken? then [] else [chunks[0].bytes] + Arrived(chunks[1..])
  }

  function Folds(codec: Codec, stream: string, atEof: bool): Folded {
    AbsorbAll(EMPTY, Parsed(codec, Events(stream, [], atEof)))
  }

  /** What aggregating a stream means: the events of its bytes, up to the first terminal one. */
  function Outcome(codec: Codec, chunks: seq<Chunk>): Result<Aggregated, string> {
    var stream := Concat(Arrived(chunks));
    if Folds(codec, stream, false).terminal.Some? then Ok(Finish(codec, Folds(codec, stream, false)))
    else if |Arrived(chunks)| < |chunks| then Err(chunks[|Arrived(chunks)|].error)
    else Ok(Finish(codec, Folds(codec, stream, true)))
  }

  /** These events, up to the first that ends a stream, make this answer. */
  ghost predicate Answers(codec: Codec, events: seq<Json>, result: Aggregated) {
    match result
    case Terminal(response) =>
      exists i: nat :: FirstEnd(events, i)
                  && Completed(events[i].Get("response").value, AbsorbAll(EMPTY, events[..i]).items, response)
    case NoTerminal(detail) =>
      && (forall i :: 0 <= i < |events| ==> !EndsStream(events[i]))
      && exists error :: LastError(events, error) && (detail.Some? <==> error.Some?)
                         && (error.Some? ==> Shortened(codec.serialize(error.value), detail.value))
  }

  /**
   * Aggregating answers from the events of the bytes that arrived: those complete if one of them ends the stream;
   * else upstream's error if it broke off; else with the unterminated event too.
   */
  lemma AggregateMeans(codec: Codec, chunks: seq<Chunk>)
    ensures var bytes := Concat(Arrived(chunks));
            var open, all := Parsed(codec, Events(bytes, [], false)), Parsed(codec, Events(bytes, [], true));
            var result := Outcome(codec, chunks);
            if exists i :: 0 <= i < |open| && EndsStream(open[i]) then result.Ok? && Answers(codec, open, result.value)
            else if exists i :: 0 <= i < |chunks| && chunks[i].Broken? then
              exists i :: 0 <= i < |chunks| && chunks[i].Broken? && result == Err(chunks[i].error)
                          && forall j :: 0 <= j < i ==> chunks[j].Bytes?
            else result.Ok? && Answers(codec, all, result.value)
  {
    hide Events, Parsed, AbsorbAll, EndsStream, Finish;
    var bytes := Concat(Arrived(chunks));
    FoldAnswers(codec, Parsed(codec, Events(bytes, [], false)));
    FoldAnswers(codec, Parsed(codec, Events(bytes, [], true)));
  }

  lemma FoldAnswers(codec: Codec, events: seq<Json>)
    ensures Answers(codec, events, Finish(codec, AbsorbAll(EMPTY, events)))
    ensures AbsorbAll(EMPTY, events).terminal.Some? <==> exists i :: 0 <= i < |events| && EndsStream(events[i])
  {
    hide AbsorbAll, Finish, EndsStream, LastError, Completed, Shortened;
    FoldMeans(events);
    var f := AbsorbAll(EMPTY, events);
    if f.terminal.Some? {
      var i: nat :| FirstEnd(events, i) && f.terminal == events[i].Get("response")
               && f.items == AbsorbAll(EMPTY, events[..i]).items;
      assert f.terminal.value.Obj? by { EndHasResponse(events[i]); }
    }
    FinishMeans(codec, f);
  }

  lemma EndHasResponse(event: Json)
    requires EndsStream(event)
    ensures event.Get("response").Some? && event.Get("response").value.Obj?
  {
  }

  function FoldFrames(codec: Codec, f: Folded, frames: seq<string>): Folded {
    AbsorbAll(f, Parsed(codec, Payloads(frames)))
  }

  lemma {:induction false} FoldFramesAppend(codec: Codec, a: seq<string>, b: seq<string>)
    ensures FoldFrames(codec, EMPTY, a + b) == FoldFrames(codec, FoldFrames(codec, EMPTY, a), b)
  {
    hide AbsorbAll, Parsed, Payloads;
    PayloadsAppend(a, b);
    ParsedAppend(codec, Payloads(a), Payloads(b));
    AbsorbAppend(EMPTY, Parsed(codec, Payloads(a)), Parsed(codec, Payloads(b)));
  }

  lemma FoldOneFrame(codec: Codec, f: Folded, frame: string)
    ensures FoldFrames(codec, f, [frame]) == AbsorbAll(f, Parsed(codec, Listed(PayloadOf(frame))))
  {
    hide AbsorbAll, Parsed, PayloadOf;
    PayloadsCons(frame, []);
    assert [frame] + [] == [frame];
    assert Listed(PayloadOf(frame)) + Payloads([]) == Listed(PayloadOf(frame));
  }

  /** The frames of the first chunks come first among the frames of all of them. */
  lemma {:induction false} FeedGrows(chunks: seq<string>, n: nat)
    requires n <= |chunks|
    ensures Feed(chunks[..n]).0 <= Feed(chunks).0
    decreases |chunks|
  {
    if n < |chunks| {
      FeedGrows(chunks[..|chunks| - 1], n);
      assert chunks[..|chunks| - 1][..n] == chunks[..n];
    } else {
      assert chunks[..n] == chunks;
    }
  }

  lemma TerminalPrefix(codec: Codec, a: seq<string>, b: seq<string>)
    requires a <= b && FoldFrames(codec, EMPTY, a).terminal.Some?
    ensures FoldFrames(codec, EMPTY, b) == FoldFrames(codec, EMPTY, a)
  {
    hide AbsorbAll, Parsed, Payloads;
    assert b == a + b[|a|..];
    FoldFramesAppend(codec, a, b[|a|..]);
    StaysTerminal(FoldFrames(codec, EMPTY, a), Parsed(codec, Payloads(b[|a|..])));
  }

  /** The frames these chunks give, once upstream has ended with the unterminated one too. */
  function FramesOf(chunks: seq<string>, ended: bool): seq<string> {
    if ended then Finished(Feed(chunks).0, Feed(chunks).1) else Feed(chunks).0
  }

  /** What the framer's frames fold to is what the bytes fold to. */
  lemma {:induction false} FoldsOfFeed(codec: Codec, chunks: seq<string>, ended: bool)
    ensures FoldFrames(codec, EMPTY, FramesOf(chunks, ended)) == Folds(codec, Concat(chunks), ended)
  {
    hide AbsorbAll, Parsed, Payloads, Events, Feed, Finished;
    PayloadsIgnoreChunking(chunks);
  }

  lemma {:induction false} DoneEarly(codec: Codec, chunks: seq<Chunk>, frames: seq<string>)
    requires frames <= Feed(Arrived(chunks)).0
    requires FoldFrames(codec, EMPTY, frames).terminal.Some?
    ensures Outcome(codec, chunks) == Ok(Finish(codec, FoldFrames(codec, EMPTY, frames)))
  {
    hide AbsorbAll, Feed, Events, Parsed, Payloads, Finish, FoldFrames;
    TerminalPrefix(codec, frames, Feed(Arrived(chunks)).0);
    FoldsOfFeed(codec, Arrived(chunks), false);
  }

  lemma FeedStep(chunks: seq<string>, n: nat)
    requires n < |chunks|
    ensures var before := Feed(chunks[..n]);
            var scanned := Scan(before.1 + chunks[n]);
            Feed(chunks[..n + 1]) == (before.0 + scanned.frames, scanned.rest)
  {
    hide Scan;
    assert chunks[..n + 1][..n] == chunks[..n];
  }

  /** The read loop: stop at the first terminal event, else let the unterminated tail in at the end. */
  method Aggregate(codec: Codec, chunks: seq<Chunk>) returns (result: Result<Aggregated, string>)
    ensures result == Outcome(codec, chunks)
  {
    hide Feed, FoldFrames, Finish, Outcome, Events, Parsed, Payloads, AbsorbAll, Folds, Scan, Finished, PayloadOf;
    var framer := new Framer();
    var aggregator := new Aggregator();
    ghost var oks := Arrived(chunks);
    ghost var seen: seq<string> := [];
    NothingYet(codec, oks);
    var i := 0;
    while i < |chunks|
      invariant i <= |oks|
      invariant framer.Valid() && fresh(framer) && fresh(aggregator)
      invariant Feed(oks[..i]) == (seen, framer.buf)
      invariant aggregator.View() == FoldFrames(codec, EMPTY, seen)
      invariant aggregator.terminal == None
    {
      if chunks[i].Broken? {
        assert i == |oks| && oks[..i] == oks;
        BrokenOutcome(codec, chunks);
        return Err(chunks[i].error);
      }
      var frames := framer.Push(chunks[i].bytes);
      FeedStep(oks, i);
      FeedGrows(oks, i + 1);
      var j := 0;
      assert seen + frames[..0] == seen;
      while j < |frames|
        modifies aggregator
        invariant j <= |frames|
        invariant aggregator.View() == FoldFrames(codec, EMPTY, seen + frames[..j])
        invariant aggregator.terminal == None
      {
        aggregator.Consume(codec, frames[j]);
        FoldOneFrame(codec, FoldFrames(codec, EMPTY, seen + frames[..j]), frames[j]);
        FoldFramesAppend(codec, seen + frames[..j], [frames[j]]);
        assert seen + frames[..j] + [frames[j]] == seen + frames[..j + 1];
        j := j + 1;
        if aggregator.terminal.Some? {
          assert seen + frames[..j] <= seen + frames <= Feed(oks).0;
          DoneEarly(codec, chunks, seen + frames[..j]);
          return Ok(Finish(codec, Folded(aggregator.terminal, aggregator.error, aggregator.items, aggregator.next)));
        }
      }
      assert frames[..j] == frames;
      seen := seen + frames;
      i := i + 1;
    }
    assert oks[..i] == oks && |oks| == |chunks|;
    var tail := framer.Flush();
    if tail.Some? {
      aggregator.Consume(codec, tail.value);
    }
    AtEndOfStream(codec, chunks);
    result := Ok(Finish(codec, Folded(aggregator.terminal, aggregator.error, aggregator.items, aggregator.next)));
  }

  lemma NothingYet(codec: Codec, oks: seq<string>)
    ensures Feed(oks[..0]) == ([], "")
    ensures FoldFrames(codec, EMPTY, []) == EMPTY
  {
  }

  lemma BrokenOutcome(codec: Codec, chunks: seq<Chunk>)
    requires |Arrived(chunks)| < |chunks|
    requires FoldFrames(codec, EMPTY, Feed(Arrived(chunks)).0).terminal == None
    ensures Outcome(codec, chunks) == Err(chunks[|Arrived(chunks)|].error)
  {
    hide AbsorbAll, Feed, Events, Parsed, Payloads, Finish, FoldFrames, Folds;
    FoldsOfFeed(codec, Arrived(chunks), false);
  }

  lemma AtEndOfStream(codec: Codec, chunks: seq<Chunk>)
    requires |Arrived(chunks)| == |chunks|
    requires FoldFrames(codec, EMPTY, Feed(Arrived(chunks)).0).terminal == None
    ensures var (frames, rest) := Feed(Arrived(chunks));
            var f := FoldFrames(codec, EMPTY, frames);
            var last := if rest == "" then f else AbsorbAll(f, Parsed(codec, Listed(PayloadOf(rest))));
            Outcome(codec, chunks) == Ok(Finish(codec, last))
  {
    hide AbsorbAll, Feed, Events, Parsed, Payloads, Finish, FoldFrames, Folds, PayloadOf;
    var (frames, rest) := Feed(Arrived(chunks));
    FoldsOfFeed(codec, Arrived(chunks), false);
    FoldsOfFeed(codec, Arrived(chunks), true);
    if rest == "" {
      assert Finished(frames, rest) == frames;
    } else {
      FoldFramesAppend(codec, frames, [rest]);
      FoldOneFrame(codec, FoldFrames(codec, EMPTY, frames), rest);
    }
  }
}
