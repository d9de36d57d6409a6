/** Setting one dotted key in a parsed configuration, `crates/libsubby/src/config/write.rs:43-139`. */
module ConfigWrite {
  import opened Prelude
  import opened Text

  datatype Value = Str(text: string) | Integer(i: int) | Flag(b: bool) | Null

  datatype Entry = Entry(name: Option<string>, value: Value)

  datatype Node = Node(name: string, entries: seq<Entry>, children: Option<seq<Node>>)

  /** One step down the tree: by name, or to the `sub` node whose first argument is this key. */
  datatype Step = Named(name: string) | Sub(key: string)

  // ---- Keys ----

  /** Where the last dot is, or -1. */
  function LastDot(s: string): (i: int)
    ensures -1 <= i < |s|
    ensures i >= 0 ==> s[i] == '.'
    ensures forall j :: 0 <= i < j < |s| || (i == -1 && 0 <= j < |s|) ==> s[j] != '.'
  {
    if s == "" then -1
    else if s[|s| - 1] == '.' then |s| - 1
    else LastDot(s[..|s| - 1])
  }

  /** How to get to a key: the blocks on the way, and the name of the last node. */
  function SplitKey(key: string): Option<(seq<Step>, string)> {
    if StartsWith(key, "sub.") then
      var rest := key[4..];
      var dot := LastDot(rest);
      if dot == -1 || rest[..dot] == "" || rest[dot + 1..] == "" then None
      else Some(([Sub(rest[..dot])], rest[dot + 1..]))
    else
      var parts := Split(key, ".");
      var last := |parts| - 1;
      if "" in parts then None else Some((AllNamed(parts[..last]), parts[last]))
  }

  function AllNamed(parts: seq<string>): (steps: seq<Step>)
    ensures |steps| == |parts| && forall i :: 0 <= i < |steps| ==> steps[i] == Named(parts[i])
  {
    if parts == [] then [] else [Named(parts[0])] + AllNamed(parts[1..])
  }

  // ---- Walking ----

  function FirstArgOf(entries: seq<Entry>): Option<Value> {
    if entries == [] then None
    else if entries[0].name.None? then Some(entries[0].value)
    else FirstArgOf(entries[1..])
  }

  predicate Matches(node: Node, step: Step) {
    match step
    case Named(name) => node.name == name
    case Sub(key) => node.name == "sub" && FirstArgOf(node.entries) == Some(Str(key))
  }

  /** The first node this step addresses, or how many there are. */
  function Find(nodes: seq<Node>, step: Step): (i: nat)
    ensures i <= |nodes|
    ensures forall j :: 0 <= j < i ==> !Matches(nodes[j], step)
    ensures i < |nodes| ==> Matches(nodes[i], step)
  {
    FirstOf(nodes, (node: Node) => Matches(node, step))
  }

  function ChildrenOf(node: Node): seq<Node> { if node.children.Some? then node.children.value else [] }

  /** Replace the first positional argument, or add one. */
  function WithFirstArg(entries: seq<Entry>, value: Value): seq<Entry> {
    if entries == [] then [Entry(None, value)]
    else if entries[0].name.None? then [entries[0].(value := value)] + entries[1..]
    else [entries[0]] + WithFirstArg(entries[1..], value)
  }

  // ---- Text that becomes a node ----

  /** A character of a KDL identifier (section 3.10 of KDL 2.0.0). */
  predicate IsIdentifierChar(c: char) { c > ' ' && c != '\U{7f}' && c !in "\\/(){};[]\"#=" }

  predicate IsDigit(c: char) { '0' <= c <= '9' }

  /** A number, or the beginning of one. */
  predicate StartsNumber(s: string) {
    var unsigned := if s != "" && (s[0] == '+' || s[0] == '-') then s[1..] else s;
    var digits := if unsigned != "" && unsigned[0] == '.' then unsigned[1..] else unsigned;
    digits != "" && IsDigit(digits[0])
  }

  /** A name that stands for itself, unquoted. */
  predicate IsIdentifier(s: string) {
    && s != "" && (forall i :: 0 <= i < |s| ==> IsIdentifierChar(s[i]))
    && !StartsNumber(s) && s !in ["true", "false", "null", "inf", "-inf", "nan"]
  }

  /** What the KDL parser makes of a name put down as it is, alone or with a value after it; nothing when it refuses. */
  datatype Kdl = Kdl(read: string -> Option<Node>, readWith: (string, Value) -> Option<Node>)

  /** An identifier reads as a node of that name, and no other text does. */
  ghost predicate Lawful(kdl: Kdl) {
    && (forall name :: IsIdentifier(name) ==> kdl.read(name) == Some(Node(name, [], None)))
    && (forall name :: !IsIdentifier(name) && kdl.read(name).Some? ==> kdl.read(name).value.name != name)
    && (forall name, value :: IsIdentifier(name) ==>
         kdl.readWith(name, value) == Some(Node(name, [Entry(None, value)], None)))
    && forall name, value :: !IsIdentifier(name) && kdl.readWith(name, value).Some? ==>
         kdl.readWith(name, value).value.name != name
  }

  lemma SomeKdlIsLawful()
    ensures exists kdl :: Lawful(kdl)
  {
    var kdl := Kdl((name: string) => if IsIdentifier(name) then Some(Node(name, [], None)) else None,
                   (name: string, value: Value) =>
                     if IsIdentifier(name) then Some(Node(name, [Entry(None, value)], None)) else None);
    assert Lawful(kdl);
  }

  /** The node a step should be: a `sub` node quotes its key, so it always is. */
  function NewNode(step: Step): Node {
    match step
    case Named(name) => Node(name, [], None)
    case Sub(key) => Node("sub", [Entry(None, Str(key))], None)
  }

  function Created(kdl: Kdl, step: Step): Option<Node> {
    if step.Named? then kdl.read(step.name) else Some(NewNode(step))
  }

  /** Nothing when the parser refuses a node that must be made, which stops the program. */
  function SetIn(kdl: Kdl, nodes: seq<Node>, steps: seq<Step>, leaf: string, value: Value): Option<seq<Node>>
    decreases |steps|
  {
    if steps == [] then
      var i := Find(nodes, Named(leaf));
      if i < |nodes| then Some(nodes[i := nodes[i].(entries := WithFirstArg(nodes[i].entries, value))])
      else
        match kdl.readWith(leaf, value)
        case Some(node) => Some(nodes + [node])
        case None => None
    else
      var i := Find(nodes, steps[0]);
      var node := if i < |nodes| then Some(nodes[i]) else Created(kdl, steps[0]);
      if node.None? then None
      else
        match SetIn(kdl, ChildrenOf(node.value), steps[1..], leaf, value)
        case None => None
        case Some(inner) =>
          var changed := node.value.(children := Some(inner));
          Some(if i < |nodes| then nodes[i := changed] else nodes + [changed])
  }

  /** Reading by the same walk. */
  function GetIn(nodes: seq<Node>, steps: seq<Step>, leaf: string): Option<Value>
    decreases |steps|
  {
    if steps == [] then
      var i := Find(nodes, Named(leaf));
      if i < |nodes| then FirstArgOf(nodes[i].entries) else None
    else
      var i := Find(nodes, steps[0]);
      if i < |nodes| then GetIn(ChildrenOf(nodes[i]), steps[1..], leaf) else None
  }

  datatype SetError = NotSettable | Refused

  /** A key that is not settable changes nothing. */
  function Set(kdl: Kdl, nodes: seq<Node>, key: string, value: Value): Result<seq<Node>, SetError> {
    match SplitKey(key)
    case None => Err(NotSettable)
    case Some((steps, leaf)) =>
      match SetIn(kdl, nodes, steps, leaf, value)
      case None => Err(Refused)
      case Some(after) => Ok(after)
  }

  function Get(nodes: seq<Node>, key: string): Option<Value> {
    match SplitKey(key)
    case None => None
    case Some((steps, leaf)) => GetIn(nodes, steps, leaf)
  }

  // ---- Finding after a change ----

  lemma FindIs(nodes: seq<Node>, step: Step, i: nat)
    requires i <= |nodes| && (forall j :: 0 <= j < i ==> !Matches(nodes[j], step))
               && (i < |nodes| ==> Matches(nodes[i], step))
    ensures Find(nodes, step) == i
  {
  }

  lemma FindUpdated(nodes: seq<Node>, i: nat, node: Node, step: Step)
    requires i < |nodes| && (Matches(node, step) <==> Matches(nodes[i], step))
    ensures Find(nodes[i := node], step) == Find(nodes, step)
  {
    hide Find, Matches;
    FindIs(nodes[i := node], step, Find(nodes, step));
  }

  lemma FindAppended(nodes: seq<Node>, node: Node, step: Step)
    ensures var i := Find(nodes, step);
            Find(nodes + [node], step) == if i < |nodes| || Matches(node, step) then i else i + 1
  {
    hide Find, Matches;
    var i := Find(nodes, step);
    FindIs(nodes + [node], step, if i < |nodes| || Matches(node, step) then i else i + 1);
  }

  lemma {:induction false} FirstArgSet(entries: seq<Entry>, value: Value, again: Value)
    ensures FirstArgOf(WithFirstArg(entries, value)) == Some(value)
    ensures WithFirstArg(WithFirstArg(entries, value), again) == WithFirstArg(entries, again)
  {
    if entries != [] && entries[0].name.Some? {
      FirstArgSet(entries[1..], value, again);
      assert ([entries[0]] + WithFirstArg(entries[1..], value))[1..] == WithFirstArg(entries[1..], value);
    } else if entries != [] {
      assert ([entries[0].(value := value)] + entries[1..])[1..] == entries[1..];
    }
  }

  lemma NewNodeMatches(step: Step)
    ensures Matches(NewNode(step), step)
  {
  }

  // ---- One path ----

  function Head(steps: seq<Step>, leaf: string): Step { if steps == [] then Named(leaf) else steps[0] }

  /** The node the path starts with, there already or as it should be made. */
  function HeadNode(nodes: seq<Node>, steps: seq<Step>, leaf: string): Node {
    var i := Find(nodes, Head(steps, leaf));
    if i < |nodes| then nodes[i] else NewNode(Head(steps, leaf))
  }

  predicate HeadSpellable(nodes: seq<Node>, steps: seq<Step>, leaf: string) {
    var head := Head(steps, leaf);
    Find(nodes, head) < |nodes| || head.Sub? || IsIdentifier(head.name)
  }

  /** Every part of the path that the document lacks is an identifier. */
  predicate Spellable(nodes: seq<Node>, steps: seq<Step>, leaf: string)
    decreases |steps|
  {
    && HeadSpellable(nodes, steps, leaf)
    && (steps != [] ==> Spellable(ChildrenOf(HeadNode(nodes, steps, leaf)), steps[1..], leaf))
  }

  function ReadAt(node: Node, steps: seq<Step>, leaf: string): Option<Value> {
    if steps == [] then FirstArgOf(node.entries) else GetIn(ChildrenOf(node), steps[1..], leaf)
  }

  /** What setting does to the node the path starts with. */
  function Changed(kdl: Kdl, node: Node, steps: seq<Step>, leaf: string, value: Value): Option<Node> {
    if steps == [] then Some(node.(entries := WithFirstArg(node.entries, value)))
    else
      match SetIn(kdl, ChildrenOf(node), steps[1..], leaf, value)
      case None => None
      case Some(inner) => Some(node.(children := Some(inner)))
  }

  lemma SetStep(kdl: Kdl, nodes: seq<Node>, steps: seq<Step>, leaf: string, value: Value)
    requires Lawful(kdl) && HeadSpellable(nodes, steps, leaf)
    ensures var i := Find(nodes, Head(steps, leaf));
            SetIn(kdl, nodes, steps, leaf, value)
            == match Changed(kdl, HeadNode(nodes, steps, leaf), steps, leaf, value)
               case None => None
               case Some(changed) => Some(if i < |nodes| then nodes[i := changed] else nodes + [changed])
  {
    hide Find, IsIdentifier;
    assert WithFirstArg([], value) == [Entry(None, value)];
  }

  lemma GetStep(nodes: seq<Node>, steps: seq<Step>, leaf: string)
    ensures var i := Find(nodes, Head(steps, leaf));
            GetIn(nodes, steps, leaf) == if i < |nodes| then ReadAt(nodes[i], steps, leaf) else None
  {
    hide Find;
  }

  /** A node on the path still is, however often it is set. */
  lemma StillMatches(kdl: Kdl, node: Node, steps: seq<Step>, leaf: string, value: Value)
    requires Matches(node, Head(steps, leaf)) && Changed(kdl, node, steps, leaf, value).Some?
    ensures Matches(Changed(kdl, node, steps, leaf, value).value, Head(steps, leaf))
  {
    hide WithFirstArg, FirstArgOf, SetIn;
  }

  /** After a set, the walk finds the node that was set. */
  lemma SetFinds(kdl: Kdl, nodes: seq<Node>, steps: seq<Step>, leaf: string, value: Value) returns (i: nat, node: Node)
    requires Lawful(kdl) && HeadSpellable(nodes, steps, leaf)
    ensures i == Find(nodes, Head(steps, leaf)) && node == HeadNode(nodes, steps, leaf)
    ensures SetIn(kdl, nodes, steps, leaf, value).Some? <==> Changed(kdl, node, steps, leaf, value).Some?
    ensures SetIn(kdl, nodes, steps, leaf, value).Some? ==>
              var after := SetIn(kdl, nodes, steps, leaf, value).value;
              && i == Find(after, Head(steps, leaf)) < |after|
              && after[i] == Changed(kdl, node, steps, leaf, value).value
              && after == (if i < |nodes| then nodes[i := after[i]] else nodes + [after[i]])
  {
    hide Find, Matches, SetIn, Changed, Lawful, IsIdentifier;
    var head := Head(steps, leaf);
    i := Find(nodes, head);
    node := HeadNode(nodes, steps, leaf);
    NewNodeMatches(head);
    SetStep(kdl, nodes, steps, leaf, value);
    if Changed(kdl, node, steps, leaf, value).Some? {
      StillMatches(kdl, node, steps, leaf, value);
      var changed := Changed(kdl, node, steps, leaf, value).value;
      if i < |nodes| {
        FindUpdated(nodes, i, changed, head);
      } else {
        FindAppended(nodes, changed, head);
      }
    }
  }

  /** A part that is no identifier is put down as something else, which the walk does not find. */
  lemma MadeButNotFound(kdl: Kdl, nodes: seq<Node>, steps: seq<Step>, leaf: string, value: Value)
    requires Lawful(kdl) && !HeadSpellable(nodes, steps, leaf) && SetIn(kdl, nodes, steps, leaf, value).Some?
    ensures var after := SetIn(kdl, nodes, steps, leaf, value).value;
            |after| == |nodes| + 1 && Find(after, Head(steps, leaf)) == |after|
  {
    hide Find, IsIdentifier;
    var after := SetIn(kdl, nodes, steps, leaf, value).value;
    FindAppended(nodes, after[|nodes|], Head(steps, leaf));
  }

  lemma SpellableStep(nodes: seq<Node>, steps: seq<Step>, leaf: string)
    ensures Spellable(nodes, steps, leaf) <==>
              && HeadSpellable(nodes, steps, leaf)
              && (steps != [] ==> Spellable(ChildrenOf(HeadNode(nodes, steps, leaf)), steps[1..], leaf))
  {
    hide HeadSpellable, HeadNode;
  }

  /** What was set is read, exactly when every part that had to be made is an identifier. */
  lemma {:induction false} GetAfterSet(kdl: Kdl, nodes: seq<Node>, steps: seq<Step>, leaf: string, value: Value)
    requires Lawful(kdl)
    ensures var after := SetIn(kdl, nodes, steps, leaf, value);
            (after.Some? && GetIn(after.value, steps, leaf) == Some(value)) <==> Spellable(nodes, steps, leaf)
    decreases |steps|
  {
    hide Find, Matches, SetIn, GetIn, WithFirstArg, FirstArgOf, Lawful, HeadSpellable, HeadNode, Spellable;
    var after := SetIn(kdl, nodes, steps, leaf, value);
    SpellableStep(nodes, steps, leaf);
    if after.Some? {
      GetStep(after.value, steps, leaf);
    }
    if HeadSpellable(nodes, steps, leaf) {
      var i, node := SetFinds(kdl, nodes, steps, leaf, value);
      if steps == [] {
        FirstArgSet(node.entries, value, value);
      } else {
        GetAfterSet(kdl, ChildrenOf(node), steps[1..], leaf, value);
      }
    } else if after.Some? {
      MadeButNotFound(kdl, nodes, steps, leaf, value);
    }
  }

  /** A second set leaves no trace of the first, exactly when every part that had to be made is an identifier. */
  lemma {:induction false} SecondSetWins(kdl: Kdl, nodes: seq<Node>, steps: seq<Step>, leaf: string, value: Value,
                                         again: Value)
    requires Lawful(kdl)
    ensures var (once, only) := (SetIn(kdl, nodes, steps, leaf, value), SetIn(kdl, nodes, steps, leaf, again));
            (once.Some? && only.Some? && SetIn(kdl, once.value, steps, leaf, again) == only)
            <==> Spellable(nodes, steps, leaf)
    decreases |steps|
  {
    hide Find, Matches, SetIn, WithFirstArg, FirstArgOf, Lawful, HeadSpellable, HeadNode, Spellable;
    var (once, only) := (SetIn(kdl, nodes, steps, leaf, value), SetIn(kdl, nodes, steps, leaf, again));
    SpellableStep(nodes, steps, leaf);
    if HeadSpellable(nodes, steps, leaf) {
      var i, node := SetFinds(kdl, nodes, steps, leaf, value);
      var _, _ := SetFinds(kdl, nodes, steps, leaf, again);
      if steps == [] {
        FirstArgSet(node.entries, value, again);
      } else {
        SecondSetWins(kdl, ChildrenOf(node), steps[1..], leaf, value, again);
      }
      if once.Some? {
        FoundIsSpellable(once.value, steps, leaf);
        SetStep(kdl, once.value, steps, leaf, again);
        var twice := SetIn(kdl, once.value, steps, leaf, again);
        if only.Some? && twice.Some? {
          assert twice == only ==> twice.value[i] == only.value[i];
          assert twice.value[i] == only.value[i] ==> twice.value == only.value;
        }
      }
    } else if once.Some? && only.Some? {
      MadeButNotFound(kdl, nodes, steps, leaf, value);
      MadeButNotFound(kdl, nodes, steps, leaf, again);
      MadeTwice(kdl, once.value, steps, leaf, again);
    }
  }

  lemma FoundIsSpellable(nodes: seq<Node>, steps: seq<Step>, leaf: string)
    requires Find(nodes, Head(steps, leaf)) < |nodes|
    ensures HeadSpellable(nodes, steps, leaf) && HeadNode(nodes, steps, leaf) == nodes[Find(nodes, Head(steps, leaf))]
  {
  }

  lemma MadeTwice(kdl: Kdl, nodes: seq<Node>, steps: seq<Step>, leaf: string, value: Value)
    requires Find(nodes, Head(steps, leaf)) == |nodes|
    ensures SetIn(kdl, nodes, steps, leaf, value).Some? ==> |SetIn(kdl, nodes, steps, leaf, value).value| == |nodes| + 1
  {
    hide Find;
  }

  /** Existing nodes keep their place, their name and, but for the one on the path, everything they hold. */
  lemma NodesKeepOrder(kdl: Kdl, nodes: seq<Node>, steps: seq<Step>, leaf: string, value: Value)
    requires SetIn(kdl, nodes, steps, leaf, value).Some?
    ensures var after := SetIn(kdl, nodes, steps, leaf, value).value;
            var i := Find(nodes, Head(steps, leaf));
            && |after| == (if i < |nodes| then |nodes| else |nodes| + 1)
            && (forall j :: 0 <= j < |nodes| ==> after[j].name == nodes[j].name && (j != i ==> after[j] == nodes[j]))
            && (i < |nodes| && steps != [] ==> after[i].entries == nodes[i].entries)
            && (i < |nodes| && steps == [] ==>
                  && after[i].children == nodes[i].children
                  && Readdressed(nodes[i].entries, after[i].entries, value))
  {
    hide Find, WithFirstArg, Readdressed;
    var i := Find(nodes, Head(steps, leaf));
    if i < |nodes| {
      FirstArgOnly(nodes[i].entries, value);
    }
  }

  /** The first argument is replaced, or one is added last; properties and later arguments stay where they are. */
  ghost predicate Readdressed(entries: seq<Entry>, after: seq<Entry>, value: Value) {
    || ((forall j :: 0 <= j < |entries| ==> entries[j].name.Some?) && after == entries + [Entry(None, value)])
    || (exists i :: 0 <= i < |entries| && entries[i].name.None? && after == entries[i := Entry(None, value)]
                    && forall j :: 0 <= j < i ==> entries[j].name.Some?)
  }

  lemma ReaddressedCons(e: Entry, rest: seq<Entry>, after: seq<Entry>, value: Value)
    requires e.name.Some? && Readdressed(rest, after, value)
    ensures Readdressed([e] + rest, [e] + after, value)
  {
    var entries := [e] + rest;
    if i :| 0 <= i < |rest| && rest[i].name.None? && after == rest[i := Entry(None, value)]
            && forall j :: 0 <= j < i ==> rest[j].name.Some? {
      assert entries[i + 1].name.None? && forall j :: 0 < j < i + 1 ==> entries[j] == rest[j - 1];
      assert [e] + after == entries[i + 1 := Entry(None, value)];
    } else {
      assert forall j :: 0 < j < |entries| ==> entries[j] == rest[j - 1];
      assert [e] + after == entries + [Entry(None, value)];
    }
  }

  lemma {:induction false} FirstArgOnly(entries: seq<Entry>, value: Value)
    ensures Readdressed(entries, WithFirstArg(entries, value), value)
  {
    if entries != [] && entries[0].name.Some? {
      var rest := entries[1..];
      FirstArgOnly(rest, value);
      ReaddressedCons(entries[0], rest, WithFirstArg(rest, value), value);
      assert [entries[0]] + rest == entries;
    } else if entries != [] {
      assert WithFirstArg(entries, value) == entries[0 := Entry(None, value)];
    }
  }

  // ---- Two paths ----

  /** `sub` by its name and `sub` by its key may address the same node. */
  predicate Mixed(a: Step, b: Step) { (a.Sub? && b == Named("sub")) || (b.Sub? && a == Named("sub")) }

  predicate PlainTail(steps: seq<Step>) { forall i :: 1 <= i < |steps| ==> steps[i].Named? }

  lemma MatchesOne(node: Node, p: Step, q: Step)
    requires p != q && !Mixed(p, q) && Matches(node, p)
    ensures !Matches(node, q)
  {
  }

  lemma NothingThere(steps: seq<Step>, leaf: string)
    ensures GetIn([], steps, leaf) == None
    ensures ReadAt(NewNode(Head(steps, leaf)), steps, leaf) == None
  {
  }

  /** Setting one path leaves every other as it was, unless one says `sub` by name and the other by key. */
  lemma OthersUnchanged(kdl: Kdl, nodes: seq<Node>, steps: seq<Step>, leaf: string, value: Value, steps2: seq<Step>,
                        leaf2: string)
    requires Lawful(kdl) && Spellable(nodes, steps, leaf)
    requires (steps, leaf) != (steps2, leaf2) && PlainTail(steps) && PlainTail(steps2)
    requires !Mixed(Head(steps, leaf), Head(steps2, leaf2))
    ensures var after := SetIn(kdl, nodes, steps, leaf, value);
            after.Some? && GetIn(after.value, steps2, leaf2) == GetIn(nodes, steps2, leaf2)
    decreases |steps|, 1
  {
    hide Find, Matches, WithFirstArg, FirstArgOf, SetIn, GetIn, ReadAt, Changed, PlainTail;
    hide Lawful, HeadSpellable, Spellable;
    GetAfterSet(kdl, nodes, steps, leaf, value);
    SpellableStep(nodes, steps, leaf);
    var after := SetIn(kdl, nodes, steps, leaf, value).value;
    var p, q := Head(steps, leaf), Head(steps2, leaf2);
    var i, node := SetFinds(kdl, nodes, steps, leaf, value);
    GetStep(nodes, steps2, leaf2);
    GetStep(after, steps2, leaf2);
    if p == q {
      NothingThere(steps2, leaf2);
      SameHeadUnchanged(kdl, node, steps, leaf, value, steps2, leaf2);
    } else {
      NewNodeMatches(p);
      MatchesOne(node, p, q);
      MatchesOne(after[i], p, q);
      if i < |nodes| {
        FindUpdated(nodes, i, after[i], q);
      } else {
        FindAppended(nodes, after[i], q);
      }
    }
  }

  lemma SameHeadUnchanged(kdl: Kdl, node: Node, steps: seq<Step>, leaf: string, value: Value, steps2: seq<Step>,
                          leaf2: string)
    requires Lawful(kdl) && (steps != [] ==> Spellable(ChildrenOf(node), steps[1..], leaf))
    requires (steps, leaf) != (steps2, leaf2) && PlainTail(steps) && PlainTail(steps2)
    requires Head(steps, leaf) == Head(steps2, leaf2) && Changed(kdl, node, steps, leaf, value).Some?
    ensures ReadAt(Changed(kdl, node, steps, leaf, value).value, steps2, leaf2) == ReadAt(node, steps2, leaf2)
    decreases |steps|, 0
  {
    hide WithFirstArg, FirstArgOf, SetIn, GetIn, Lawful, Spellable;
    if steps != [] && steps2 != [] {
      assert steps == [steps[0]] + steps[1..] && steps2 == [steps2[0]] + steps2[1..];
      OthersUnchanged(kdl, ChildrenOf(node), steps[1..], leaf, value, steps2[1..], leaf2);
    }
  }

  /** A key whose part is no identifier: it is not set, and another is. */
  lemma SpacedPartLeaks(kdl: Kdl, value: Value)
    requires Lawful(kdl)
    requires kdl.readWith("a b", value) == Some(Node("a", [Entry(None, Str("b")), Entry(None, value)], None))
    ensures var after := SetIn(kdl, [], [], "a b", value);
            && after.Some? && GetIn(after.value, [], "a b") == None
            && GetIn([], [], "a") == None && GetIn(after.value, [], "a") == Some(Str("b"))
  {
    var node := Node("a", [Entry(None, Str("b")), Entry(None, value)], None);
    assert [] + [node] == [node];
    assert |"a b"| == 3 && |"a"| == 1;
    FindIs([node], Named("a"), 0);
    FindIs([node], Named("a b"), 1);
  }

  // ---- Keys and paths ----

  predicate Dotless(s: string) { '.' !in s }

  /** The key a path is written as. */
  function Spell(steps: seq<Step>, leaf: string): string {
    if steps == [] then leaf
    else if steps[0].Sub? then "sub." + (steps[0].key + ("." + leaf))
    else steps[0].name + ("." + Spell(steps[1..], leaf))
  }

  lemma {:induction false} LastDotIs(before: string, after: string)
    requires Dotless(after)
    ensures LastDot(before + ("." + after)) == |before|
    ensures (before + ("." + after))[..|before|] == before && (before + ("." + after))[|before| + 1..] == after
  {
    hide LastDot;
    var s := before + ("." + after);
    assert s[|before|] == '.';
    assert forall j :: |before| < j < |s| ==> s[j] == after[j - |before| - 1];
  }

  lemma DotsSplit(part: string, rest: string)
    requires Dotless(part)
    ensures Split(part + ("." + rest), ".") == [part] + Split(rest, ".")
    ensures Split(part, ".") == [part]
  {
    SplitOnceHit(".", rest);
    SplitOnceMiss(part, "." + rest, ".", 0);
    assert part + "" == part;
    SplitOnceMiss(part, "", ".", 0);
    assert SplitOnce("", ".") == None;
  }

  lemma {:induction false} PartsOf(s: string)
    ensures var parts := Split(s, ".");
            && parts != [] && (forall i :: 0 <= i < |parts| ==> Dotless(parts[i]))
            && Spell(AllNamed(parts[..|parts| - 1]), parts[|parts| - 1]) == s
    decreases |s|
  {
    FirstDot(s);
    if SplitOnce(s, ".").Some? {
      var (before, after) := SplitOnce(s, ".").value;
      PartsOf(after);
      var parts, rest := Split(s, "."), Split(after, ".");
      assert parts == [before] + rest;
      assert forall i :: 1 <= i < |parts| ==> parts[i] == rest[i - 1];
      assert parts[..|parts| - 1] == [before] + rest[..|rest| - 1];
      assert AllNamed(parts[..|parts| - 1]) == [Named(before)] + AllNamed(rest[..|rest| - 1]);
    }
  }

  lemma {:induction false} FirstDot(s: string)
    ensures match SplitOnce(s, ".")
            case None => Dotless(s)
            case Some((before, after)) => Dotless(before) && s == before + ("." + after)
  {
    if s != "" {
      assert s == [s[0]] + s[1..];
      assert s[..1] == "." <==> s[0] == '.';
      if !StartsWith(s, ".") {
        FirstDot(s[1..]);
      }
    }
  }

  /** A settable key is spelled by its path, so no two keys share one; only `sub` itself may mix with a `sub.` key. */
  lemma KeyIsSpelled(key: string)
    requires SplitKey(key).Some?
    ensures var (steps, leaf) := SplitKey(key).value;
            && Spell(steps, leaf) == key && PlainTail(steps)
            && (Head(steps, leaf).Sub? <==> StartsWith(key, "sub."))
            && (Head(steps, leaf) == Named("sub") ==> key == "sub")
  {
    hide Split, LastDot;
    if StartsWith(key, "sub.") {
      var rest := key[4..];
      var dot := LastDot(rest);
      assert key == "sub." + (rest[..dot] + ("." + rest[dot + 1..]));
    } else {
      PartsOf(key);
      SubPrefix(Split(key, "."));
    }
  }

  /** A `sub.` key splits back into the sub key and leaf it was made of, dots in the sub key and all. */
  lemma SubKeySplits(sub: string, leaf: string)
    ensures SplitKey("sub." + (sub + ("." + leaf))) == Some(([Sub(sub)], leaf)) <==>
              sub != "" && leaf != "" && Dotless(leaf)
  {
    hide LastDot, Split;
    var rest := sub + ("." + leaf);
    StartsWithHit("sub.", rest);
    if Dotless(leaf) {
      LastDotIs(sub, leaf);
    } else {
      var j :| 0 <= j < |leaf| && leaf[j] == '.';
      assert rest[|sub| + 1 + j] == '.';
      var dot := LastDot(rest);
      assert |rest[dot + 1..]| < |leaf|;
    }
  }

  /** A dotted key splits back into its parts, unless it begins with `sub.`. */
  lemma BlockKeySplits(parts: seq<string>)
    requires parts != [] && forall i :: 0 <= i < |parts| ==> Dotless(parts[i])
    ensures var (steps, leaf) := (AllNamed(parts[..|parts| - 1]), parts[|parts| - 1]);
            SplitKey(Spell(steps, leaf)) == Some((steps, leaf)) <==> "" !in parts && (|parts| == 1 || parts[0] != "sub")
  {
    hide Split, LastDot;
    var (steps, leaf) := (AllNamed(parts[..|parts| - 1]), parts[|parts| - 1]);
    var key := Spell(steps, leaf);
    SplitsBack(parts);
    SubPrefix(parts);
  }

  lemma {:induction false} SplitsBack(parts: seq<string>)
    requires parts != [] && forall i :: 0 <= i < |parts| ==> Dotless(parts[i])
    ensures Split(Spell(AllNamed(parts[..|parts| - 1]), parts[|parts| - 1]), ".") == parts
  {
    hide Split;
    var steps := AllNamed(parts[..|parts| - 1]);
    var leaf := parts[|parts| - 1];
    if |parts| == 1 {
      DotsSplit(leaf, "");
    } else {
      SplitsBack(parts[1..]);
      assert steps[1..] == AllNamed(parts[1..][..|parts| - 2]);
      DotsSplit(parts[0], Spell(steps[1..], leaf));
    }
  }

  lemma SubPrefix(parts: seq<string>)
    requires parts != [] && forall i :: 0 <= i < |parts| ==> Dotless(parts[i])
    ensures StartsWith(Spell(AllNamed(parts[..|parts| - 1]), parts[|parts| - 1]), "sub.") <==>
              |parts| > 1 && parts[0] == "sub"
  {
    var steps := AllNamed(parts[..|parts| - 1]);
    var leaf := parts[|parts| - 1];
    var key := Spell(steps, leaf);
    if |parts| == 1 {
      if |key| >= 4 {
        assert key[..4][3] == key[3];
      }
    } else {
      var rest := "." + Spell(steps[1..], leaf);
      var n := |parts[0]|;
      assert steps[0] == Named(parts[0]) && key == parts[0] + rest && |rest| >= 1;
      if parts[0] == "sub" {
        assert key[..4] == "sub.";
      } else if |key| >= 4 {
        assert key[..4] != "sub." by {
          if n < 3 {
            assert key[..4][n] == key[n] == '.';
          } else if n > 3 {
            assert key[..4][3] == parts[0][3];
          } else {
            assert key[..4][..3] == parts[0];
          }
        }
      }
    }
  }

  ghost predicate KeySpellable(nodes: seq<Node>, key: string) {
    SplitKey(key).Some? && Spellable(nodes, SplitKey(key).value.0, SplitKey(key).value.1)
  }

  /** Setting a key leaves every other key as it reads, unless one is `sub` and the other begins with `sub.`. */
  lemma OtherKeysUnchanged(kdl: Kdl, nodes: seq<Node>, key: string, value: Value, other: string)
    requires Lawful(kdl) && KeySpellable(nodes, key) && other != key
    requires !(key == "sub" && StartsWith(other, "sub.")) && !(other == "sub" && StartsWith(key, "sub."))
    ensures var after := Set(kdl, nodes, key, value);
            after.Ok? && Get(after.value, other) == Get(nodes, other)
  {
    hide SplitKey, SetIn, GetIn, PlainTail, Lawful, Spellable;
    var (steps, leaf) := SplitKey(key).value;
    GetAfterSet(kdl, nodes, steps, leaf, value);
    if SplitKey(other).Some? {
      KeyIsSpelled(key);
      KeyIsSpelled(other);
      var (steps2, leaf2) := SplitKey(other).value;
      OthersUnchanged(kdl, nodes, steps, leaf, value, steps2, leaf2);
    }
  }

  // ---- The key `sub` itself ----

  lemma SubPath(sub: string, leaf: string)
    requires sub != "" && leaf != "" && Dotless(leaf)
    ensures SplitKey("sub." + (sub + ("." + leaf))) == Some(([Sub(sub)], leaf))
    ensures SplitKey("sub") == Some(([], "sub"))
  {
    hide SplitKey;
    SubKeySplits(sub, leaf);
    BlockKeySplits(["sub"]);
  }

  lemma SubIsIdentifier()
    ensures IsIdentifier("sub")
  {
    assert "sub"[0] == 's';
    assert forall i :: 0 <= i < 3 ==> "sub"[i] in "sub" && IsIdentifierChar("sub"[i]);
  }

  lemma FirstArgAlone(value: Value)
    ensures FirstArgOf([Entry(None, value)]) == Some(value)
  {
  }

  /** Setting a `sub.` key changes what `sub` reads exactly when it makes the first `sub` node. */
  lemma NamingTheFirstSub(kdl: Kdl, nodes: seq<Node>, sub: string, leaf: string, value: Value)
    requires Lawful(kdl) && sub != "" && leaf != "" && Dotless(leaf)
    ensures var after := Set(kdl, nodes, "sub." + (sub + ("." + leaf)), value);
            after.Ok? ==> (Get(after.value, "sub") == Get(nodes, "sub") <==> Find(nodes, Named("sub")) < |nodes|)
  {
    hide Find, SplitKey, SetIn, GetIn, FirstArgOf, Lawful;
    SubPath(sub, leaf);
    var i, node := SetFinds(kdl, nodes, [Sub(sub)], leaf, value);
    if SetIn(kdl, nodes, [Sub(sub)], leaf, value).Some? {
      var after := SetIn(kdl, nodes, [Sub(sub)], leaf, value).value;
      GetStep(nodes, [], "sub");
      GetStep(after, [], "sub");
      if i < |nodes| {
        FindUpdated(nodes, i, after[i], Named("sub"));
      } else {
        FindAppended(nodes, after[i], Named("sub"));
        FirstArgAlone(Str(sub));
      }
    }
  }

  /**
   * Setting `sub` gives the first `sub` node another address, so what a `sub.` key reads stays the same exactly
   * when that node answered to the sub before and after, or to neither, or the next one reads the same.
   */
  lemma SettingSub(kdl: Kdl, nodes: seq<Node>, value: Value, sub: string, leaf: string)
    requires Lawful(kdl) && sub != "" && leaf != "" && Dotless(leaf)
    ensures var i := Find(nodes, Named("sub"));
            var key := "sub." + (sub + ("." + leaf));
            var after := Set(kdl, nodes, "sub", value);
            && after.Ok?
            && (Get(after.value, key) == Get(nodes, key) <==>
                  || i == |nodes|
                  || (Matches(nodes[i], Sub(sub)) <==> value == Str(sub))
                  || GetIn(ChildrenOf(nodes[i]), [], leaf) == GetIn(nodes[i + 1..], [Sub(sub)], leaf))
  {
    hide Find, SplitKey, SetIn, GetIn, FirstArgOf, WithFirstArg, Lawful, IsIdentifier;
    SubPath(sub, leaf);
    SubIsIdentifier();
    var i, node := SetFinds(kdl, nodes, [], "sub", value);
    var after := SetIn(kdl, nodes, [], "sub", value).value;
    FirstArgSet(node.entries, value, value);
    FromFirstSub(nodes, i, sub, leaf);
    FromFirstSub(after, i, sub, leaf);
    NothingThere([], leaf);
    NothingThere([Sub(sub)], leaf);
    assert after[i + 1..] == if i < |nodes| then nodes[i + 1..] else [];
  }

  lemma FromFirstSub(nodes: seq<Node>, i: nat, sub: string, leaf: string)
    requires i == Find(nodes, Named("sub"))
    ensures GetIn(nodes, [Sub(sub)], leaf)
         == if i == |nodes| then None
            else if Matches(nodes[i], Sub(sub)) then GetIn(ChildrenOf(nodes[i]), [], leaf)
            else GetIn(nodes[i + 1..], [Sub(sub)], leaf)
  {
    hide Find, GetIn, FirstArgOf;
    GetStep(nodes, [Sub(sub)], leaf);
    assert [Sub(sub)][1..] == [];
    if i == |nodes| {
      FindIs(nodes, Sub(sub), |nodes|);
    } else if Matches(nodes[i], Sub(sub)) {
      FindIs(nodes, Sub(sub), i);
    } else {
      var rest := nodes[i + 1..];
      GetStep(rest, [Sub(sub)], leaf);
      FindIs(nodes, Sub(sub), i + 1 + Find(rest, Sub(sub)));
    }
  }
}
