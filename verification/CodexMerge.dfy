/** What merging the provider table promises: it settles the file, once, and keeps every line of it. */
module CodexMerge {
  import opened Prelude
  import opened Text
  import opened ConfigLines
  import opened CodexSetup

  // ---- Lines ----

  /** The first character that is not white space decides what a line can be. */
  function First(line: string): Option<char> {
    var trimmed := TrimStart(line);
    if trimmed == "" then None else Some(trimmed[0])
  }

  lemma {:induction false} TrimEndKeepsStart(s: string)
    requires s != "" && !IsSpace(s[0])
    ensures TrimEnd(s) != "" && TrimEnd(s)[0] == s[0]
  {
    if IsSpace(s[|s| - 1]) {
      TrimEndKeepsStart(s[..|s| - 1]);
    }
  }

  lemma {:induction false} LineKinds(line: string)
    ensures Blank(line) <==> First(line) == None
    ensures OpensTable(line) <==> First(line) == Some('[')
    ensures IsHeader(line) ==> First(line) == Some('[')
  {
    hide TrimStart, TrimEnd;
    var trimmed := TrimStart(line);
    if trimmed == "" {
      assert TrimEnd("") == "";
    } else {
      TrimEndKeepsStart(trimmed);
      assert OpensTable(line) <==> trimmed[..1] == "[";
      assert trimmed[..1] == "[" <==> trimmed[0] == '[';
    }
  }

  lemma AssignsFirst(line: string, key: string)
    requires key != "" && Assigns(line, key)
    ensures First(line) == Some(key[0])
  {
    var trimmed := TrimStart(line);
    assert trimmed[..|key|][0] == key[0];
  }

  predicate GoodKey(key: string) {
    key != "" && !IsSpace(key[0]) && key[0] != '[' && OneLine(key) && '\r' !in key
  }

  /** What stands after the key. */
  function Rest(value: string): string {
    " = \"" + Replace(Replace(value, "\\", "\\\\"), "\"", "\\\"") + "\""
  }

  lemma AssignmentIs(key: string, value: string)
    ensures Assignment(key, value) == key + Rest(value)
  {
    var quoted := Replace(Replace(value, "\\", "\\\\"), "\"", "\\\"");
    Assoc(key, " = \"", quoted);
    Assoc(key, " = \"" + quoted, "\"");
  }

  lemma AssignmentAssigns(key: string, value: string)
    requires GoodKey(key)
    ensures Assigns(Assignment(key, value), key)
    ensures First(Assignment(key, value)) == Some(key[0])
    ensures StripCR(Assignment(key, value)) == Assignment(key, value)
  {
    hide Replace, Assignment, TrimStart, Rest;
    AssignmentIs(key, value);
    RestIs(value);
    var line := Assignment(key, value);
    var rest := Rest(value);
    assert line[0] == key[0];
    TrimStartKept(line);
    StartsWithHit(key, rest);
    assert line[|line| - 1] == rest[|rest| - 1];
  }

  lemma RestIs(value: string)
    ensures StartsWith(TrimStart(Rest(value)), "=")
    ensures Rest(value)[|Rest(value)| - 1] == '"'
  {
    hide Replace, TrimStart;
    var rest := Rest(value);
    TrimStartStep(rest);
    assert rest[1] == '=';
    TrimStartKept(rest[1..]);
    assert rest[1..][..1] == "=";
  }

  // ---- One position ----

  lemma PositionIs(lines: seq<string>, p: string -> bool, i: nat)
    requires i <= |lines| && (forall j :: 0 <= j < i ==> !p(lines[j])) && (i < |lines| ==> p(lines[i]))
    ensures FirstOf(lines, p) == i
  {
  }

  ghost predicate KeySet(body: seq<string>, key: string, value: string) {
    var i := FirstOf(body, AssignsKey(key));
    i < |body| && body[i] == Assignment(key, value)
  }

  lemma WithKeySets(body: seq<string>, key: string, value: string)
    requires GoodKey(key)
    ensures var (next, changes) := WithKey(body, key, value);
            && KeySet(next, key, value)
            && (changes == [] <==> KeySet(body, key, value))
            && (changes == [] ==> next == body)
  {
    hide Assignment, Assigns, FirstOf;
    AssignmentAssigns(key, value);
    var (next, _) := WithKey(body, key, value);
    PositionIs(next, AssignsKey(key), FirstOf(body, AssignsKey(key)));
  }

  /** Setting one key leaves where another is assigned. */
  lemma PositionKept(body: seq<string>, key: string, value: string, other: string)
    requires GoodKey(key) && GoodKey(other) && key[0] != other[0]
    ensures var (next, _) := WithKey(body, key, value);
            var at := FirstOf(body, AssignsKey(other));
            && FirstOf(next, AssignsKey(other)) == (if at < |body| then at else |next|)
            && |next| >= |body|
            && (at < |body| ==> next[at] == body[at])
  {
    hide Assignment, Assigns, FirstOf, First;
    AssignmentAssigns(key, value);
    var (next, _) := WithKey(body, key, value);
    var at := FirstOf(body, AssignsKey(other));
    forall line | Assigns(line, key)
      ensures !Assigns(line, other)
    {
      AssignsFirst(line, key);
      if Assigns(line, other) {
        AssignsFirst(line, other);
      }
    }
    PositionIs(next, AssignsKey(other), if at < |body| then at else |next|);
  }

  // ---- All keys ----

  ghost predicate GoodKeys(keys: seq<(string, string)>) {
    && (forall i :: 0 <= i < |keys| ==> GoodKey(keys[i].0))
    && forall i, j :: 0 <= i < j < |keys| ==> keys[i].0[0] != keys[j].0[0]
  }

  lemma TableKeysGood(table: Table)
    ensures GoodKeys(table.Keys())
  {
    var keys := table.Keys();
    assert keys[0].0 == "name" && keys[1].0 == "base_url" && keys[2].0 == "wire_api";
    assert |keys| > 3 ==> keys[3].0 == "env_key";
  }

  ghost predicate AllSet(body: seq<string>, keys: seq<(string, string)>) {
    forall i :: 0 <= i < |keys| ==> KeySet(body, keys[i].0, keys[i].1)
  }

  /** Another key stays set, or unset, while these are set. */
  lemma OtherKeySet(body: seq<string>, key: string, value: string, other: string, wanted: string)
    requires GoodKey(key) && GoodKey(other) && key[0] != other[0]
    ensures KeySet(WithKey(body, key, value).0, other, wanted) <==> KeySet(body, other, wanted)
  {
    hide Assignment, Assigns, FirstOf, WithKey;
    PositionKept(body, key, value, other);
  }

  lemma {:induction false} OtherKeySetByAll(body: seq<string>, keys: seq<(string, string)>, other: string,
                                            wanted: string)
    requires GoodKeys(keys) && GoodKey(other) && forall i :: 0 <= i < |keys| ==> keys[i].0[0] != other[0]
    ensures KeySet(WithKeys(body, keys).0, other, wanted) <==> KeySet(body, other, wanted)
    decreases |keys|
  {
    hide WithKey, WithKeys, KeySet;
    WithKeysStep(body, keys);
    if keys != [] {
      OtherKeySet(body, keys[0].0, keys[0].1, other, wanted);
      OtherKeySetByAll(WithKey(body, keys[0].0, keys[0].1).0, keys[1..], other, wanted);
    }
  }

  /** What is to be reported of one key: a line added where none assigned it, or the first that did, if it differs. */
  predicate Tells(body: seq<string>, key: string, value: string, change: Change) {
    var i := FirstOf(body, AssignsKey(key));
    if i == |body| then change == LineAdded(Assignment(key, value))
    else body[i] != Assignment(key, value) && change == LineReplaced(Trim(body[i]), Assignment(key, value))
  }

  /** The changes reported are those of the table as it was, key by key, and no others. */
  lemma {:induction false} ChangesTell(body: seq<string>, keys: seq<(string, string)>)
    requires GoodKeys(keys)
    ensures forall change :: change in WithKeys(body, keys).1 <==>
              exists k :: 0 <= k < |keys| && Tells(body, keys[k].0, keys[k].1, change)
    decreases |keys|
  {
    hide WithKey, WithKeys, Tells, GoodKey;
    WithKeysStep(body, keys);
    if keys != [] {
      var (key, value) := keys[0];
      var (next, changes) := WithKey(body, key, value);
      var rest := keys[1..];
      ChangesTell(next, rest);
      OneTells(body, key, value);
      forall change
        ensures change in WithKeys(body, keys).1 <==>
                exists k :: 0 <= k < |keys| && Tells(body, keys[k].0, keys[k].1, change)
      {
        forall k | 0 <= k < |rest|
          ensures Tells(next, rest[k].0, rest[k].1, change) <==> Tells(body, keys[k + 1].0, keys[k + 1].1, change)
        {
          OthersTell(body, key, value, rest[k].0, rest[k].1, change);
        }
        if k :| 0 <= k < |keys| && Tells(body, keys[k].0, keys[k].1, change) {
          if k > 0 {
            assert Tells(next, rest[k - 1].0, rest[k - 1].1, change);
          }
        }
      }
    }
  }

  lemma OneTells(body: seq<string>, key: string, value: string)
    ensures forall change :: change in WithKey(body, key, value).1 <==> Tells(body, key, value, change)
  {
    hide Assignment, Assigns, Trim;
  }

  lemma OthersTell(body: seq<string>, key: string, value: string, other: string, wanted: string, change: Change)
    requires GoodKey(key) && GoodKey(other) && key[0] != other[0]
    ensures Tells(WithKey(body, key, value).0, other, wanted, change) <==> Tells(body, other, wanted, change)
  {
    hide Assignment, Assigns, Trim, WithKey, FirstOf;
    PositionKept(body, key, value, other);
  }

  /** Every key ends up set; nothing is reported, and nothing changes, exactly when all of them already were. */
  lemma {:induction false} WithKeysSets(body: seq<string>, keys: seq<(string, string)>)
    requires GoodKeys(keys)
    ensures var (next, changes) := WithKeys(body, keys);
            && AllSet(next, keys)
            && (changes == [] <==> AllSet(body, keys))
            && (changes == [] ==> next == body)
    decreases |keys|
  {
    hide WithKey, WithKeys, KeySet;
    WithKeysStep(body, keys);
    if keys != [] {
      var rest := keys[1..];
      var (mid, _) := WithKey(body, keys[0].0, keys[0].1);
      WithKeySets(body, keys[0].0, keys[0].1);
      WithKeysSets(mid, rest);
      OtherKeySetByAll(mid, rest, keys[0].0, keys[0].1);
      forall i | 0 <= i < |rest|
        ensures KeySet(mid, rest[i].0, rest[i].1) <==> KeySet(body, keys[i + 1].0, keys[i + 1].1)
      {
        OtherKeySet(body, keys[0].0, keys[0].1, rest[i].0, rest[i].1);
      }
      SplitAllSet(body, keys);
      SplitAllSet(WithKeys(body, keys).0, keys);
    }
  }

  lemma SplitAllSet(body: seq<string>, keys: seq<(string, string)>)
    requires keys != []
    ensures AllSet(body, keys) <==> KeySet(body, keys[0].0, keys[0].1) && AllSet(body, keys[1..])
  {
    hide KeySet;
    if AllSet(body, keys[1..]) {
      assert forall i :: 1 <= i < |keys| ==> keys[i] == keys[1..][i - 1];
    }
  }

  // ---- What setting the keys does to the lines ----

  ghost predicate Wants(line: string, keys: seq<(string, string)>) {
    exists i :: 0 <= i < |keys| && line == Assignment(keys[i].0, keys[i].1)
  }

  /** Line `j` is the first that assigns one of the keys, and `line` is what was wanted instead. */
  ghost predicate Replaces(body: seq<string>, j: nat, line: string, keys: seq<(string, string)>) {
    exists i :: 0 <= i < |keys| && j == FirstOf(body, AssignsKey(keys[i].0)) && line == Assignment(keys[i].0, keys[i].1)
  }

  /** Every line keeps its place; only first assignments are replaced, and only assignments are added. */
  ghost predicate Grown(body: seq<string>, next: seq<string>, keys: seq<(string, string)>) {
    && |body| <= |next|
    && (forall j :: 0 <= j < |body| ==> next[j] == body[j] || Replaces(body, j, next[j], keys))
    && (forall j :: |body| <= j < |next| ==> Wants(next[j], keys))
  }

  lemma {:induction false} WithKeyGrows(body: seq<string>, key: string, value: string)
    ensures Grown(body, WithKey(body, key, value).0, [(key, value)])
  {
    hide Assignment, FirstOf;
    var keys := [(key, value)];
    assert keys[0].0 == key && keys[0].1 == value;
  }

  lemma {:induction false} WithKeysGrows(body: seq<string>, keys: seq<(string, string)>)
    requires GoodKeys(keys)
    ensures Grown(body, WithKeys(body, keys).0, keys)
    decreases |keys|
  {
    hide WithKey, WithKeys, Grown;
    WithKeysStep(body, keys);
    if keys == [] {
      SameGrows(body, keys);
    } else {
      var mid := WithKey(body, keys[0].0, keys[0].1).0;
      WithKeyGrows(body, keys[0].0, keys[0].1);
      WithKeysGrows(mid, keys[1..]);
      GrownTwice(body, mid, WithKeys(mid, keys[1..]).0, keys);
    }
  }

  lemma SameGrows(body: seq<string>, keys: seq<(string, string)>)
    ensures Grown(body, body, keys)
  {
    hide Assignment, FirstOf;
  }

  lemma GrownTwice(body: seq<string>, mid: seq<string>, next: seq<string>, keys: seq<(string, string)>)
    requires keys != [] && GoodKeys(keys) && mid == WithKey(body, keys[0].0, keys[0].1).0
    requires Grown(body, mid, [keys[0]]) && Grown(mid, next, keys[1..])
    ensures Grown(body, next, keys)
  {
    hide WithKey, Wants, Replaces, GoodKeys;
    forall j | 0 <= j < |body|
      ensures next[j] == body[j] || Replaces(body, j, next[j], keys)
    {
      if next[j] != mid[j] {
        LaterReplaces(body, j, next[j], keys);
      } else if mid[j] != body[j] {
        FirstReplaces(body, j, next[j], keys);
      }
    }
    forall j | |body| <= j < |next|
      ensures Wants(next[j], keys)
    {
      if j < |mid| && next[j] == mid[j] {
        FirstWants(next[j], keys);
      } else if j < |mid| {
        ReplacesWants(mid, j, next[j], keys[1..]);
        LaterWants(next[j], keys);
      } else {
        LaterWants(next[j], keys);
      }
    }
  }

  lemma LaterReplaces(body: seq<string>, j: nat, line: string, keys: seq<(string, string)>)
    requires keys != [] && GoodKeys(keys) && j < |body|
    requires Replaces(WithKey(body, keys[0].0, keys[0].1).0, j, line, keys[1..])
    ensures Replaces(body, j, line, keys)
  {
    hide Assignment, FirstOf, WithKey, GoodKey;
    var mid := WithKey(body, keys[0].0, keys[0].1).0;
    var i :| 0 <= i < |keys| - 1 && j == FirstOf(mid, AssignsKey(keys[1..][i].0))
      && line == Assignment(keys[1..][i].0, keys[1..][i].1);
    PositionKept(body, keys[0].0, keys[0].1, keys[i + 1].0);
    assert keys[i + 1] == keys[1..][i];
  }

  lemma FirstReplaces(body: seq<string>, j: nat, line: string, keys: seq<(string, string)>)
    requires keys != [] && Replaces(body, j, line, [keys[0]])
    ensures Replaces(body, j, line, keys)
  {
    hide Assignment, FirstOf;
  }

  lemma FirstWants(line: string, keys: seq<(string, string)>)
    requires keys != [] && Wants(line, [keys[0]])
    ensures Wants(line, keys)
  {
    hide Assignment;
  }

  lemma LaterWants(line: string, keys: seq<(string, string)>)
    requires keys != [] && Wants(line, keys[1..])
    ensures Wants(line, keys)
  {
    hide Assignment;
    var i :| 0 <= i < |keys| - 1 && line == Assignment(keys[1..][i].0, keys[1..][i].1);
    assert keys[i + 1] == keys[1..][i];
  }

  lemma ReplacesWants(body: seq<string>, j: nat, line: string, keys: seq<(string, string)>)
    requires Replaces(body, j, line, keys)
    ensures Wants(line, keys)
  {
    hide Assignment, FirstOf;
  }

  // ---- The table's range ----

  /** The table's lines are `start..end`; `limit` is where the next table opens. */
  ghost predicate RangeAt(lines: seq<string>, start: nat, end: nat, limit: nat) {
    && start < end <= limit <= |lines|
    && IsHeader(lines[start])
    && (forall j :: 0 <= j < start ==> !IsHeader(lines[j]))
    && (forall j :: start < j < limit ==> !OpensTable(lines[j]))
    && (forall j :: end <= j < limit ==> Blank(lines[j]))
    && (end == start + 1 || !Blank(lines[end - 1]))
    && (limit < |lines| ==> OpensTable(lines[limit]))
  }

  lemma {:induction false} BlanksStop(lines: seq<string>, low: nat, end: nat)
    requires low <= end <= |lines|
    ensures var r := WithoutBlanks(lines, low, end);
            && (r == low || !Blank(lines[r - 1]))
            && (forall j :: r <= j < end ==> Blank(lines[j]))
    decreases end
  {
    hide Blank;
    if end > low && Blank(lines[end - 1]) {
      BlanksStop(lines, low, end - 1);
    }
  }

  lemma RangeHere(lines: seq<string>) returns (limit: nat)
    requires TableRange(lines).Some?
    ensures RangeAt(lines, TableRange(lines).value.0, TableRange(lines).value.1, limit)
  {
    hide FirstOf, Blank, IsHeader, OpensTable, WithoutBlanks;
    var start := FirstOf(lines, IsHeader);
    var rest := lines[start + 1..];
    limit := start + 1 + FirstOf(rest, OpensTable);
    BlanksStop(lines, start + 1, limit);
    forall j | start < j < limit
      ensures !OpensTable(lines[j])
    {
      assert lines[j] == rest[j - start - 1];
    }
  }

  lemma RangeUnique(lines: seq<string>, start: nat, end: nat, limit: nat)
    requires RangeAt(lines, start, end, limit)
    ensures TableRange(lines) == Some((start, end))
  {
    hide FirstOf, Blank, IsHeader, OpensTable, WithoutBlanks;
    PositionIs(lines, IsHeader, start);
    var rest := lines[start + 1..];
    PositionIs(rest, OpensTable, limit - start - 1);
    BlanksStop(lines, start + 1, limit);
  }

  // ---- Merging the table ----

  ghost predicate TableSettled(lines: seq<string>, keys: seq<(string, string)>) {
    && TableRange(lines).Some?
    && AllSet(lines[TableRange(lines).value.0..TableRange(lines).value.1], keys)
  }

  lemma WantKind(line: string, keys: seq<(string, string)>)
    requires GoodKeys(keys) && Wants(line, keys)
    ensures !Blank(line) && !OpensTable(line) && !IsHeader(line)
  {
    hide Assignment, First;
    var i :| 0 <= i < |keys| && line == Assignment(keys[i].0, keys[i].1);
    AssignmentAssigns(keys[i].0, keys[i].1);
    LineKinds(line);
  }

  /** A line that is replaced assigned a key, so it opened no table. */
  lemma ReplacedKind(body: seq<string>, j: nat, line: string, keys: seq<(string, string)>)
    requires GoodKeys(keys) && j < |body| && Replaces(body, j, line, keys)
    ensures !OpensTable(body[j]) && !IsHeader(body[j]) && Wants(line, keys)
  {
    hide Assignment, First, Assigns;
    var i :| 0 <= i < |keys| && j == FirstOf(body, AssignsKey(keys[i].0)) && line == Assignment(keys[i].0, keys[i].1);
    AssignsFirst(body[j], keys[i].0);
    LineKinds(body[j]);
  }

  lemma GrownLines(body: seq<string>, next: seq<string>, keys: seq<(string, string)>)
    requires GoodKeys(keys) && Grown(body, next, keys) && body != [] && IsHeader(body[0])
    requires forall j :: 1 <= j < |body| ==> !OpensTable(body[j])
    ensures next[0] == body[0]
    ensures forall j :: 1 <= j < |next| ==> !OpensTable(next[j])
    ensures |next| == 1 || (|body| > 1 && Blank(body[|body| - 1])) || !Blank(next[|next| - 1])
  {
    hide Wants, Replaces, GoodKeys, IsHeader, OpensTable, Blank;
    forall j | 0 <= j < |next|
      ensures (j < |body| && next[j] == body[j]) || (j > 0 && !OpensTable(next[j]) && !Blank(next[j]))
    {
      if j < |body| && next[j] != body[j] {
        ReplacedKind(body, j, next[j], keys);
        WantKind(next[j], keys);
      } else if j >= |body| {
        WantKind(next[j], keys);
      }
    }
  }

  /** Growing the table's lines moves what follows, and nothing else. */
  lemma RangeGrows(before: seq<string>, body: seq<string>, next: seq<string>, after: seq<string>, limit: nat,
                   keys: seq<(string, string)>)
    requires GoodKeys(keys) && Grown(body, next, keys)
    requires RangeAt(before + body + after, |before|, |before| + |body|, limit)
    ensures limit >= |body|
    ensures RangeAt(before + next + after, |before|, |before| + |next|, limit + |next| - |body|)
  {
    hide Wants, Replaces, GoodKeys, IsHeader, OpensTable, Blank, Grown;
    var lines, grown := before + body + after, before + next + after;
    assert |body| <= |next| by { GrownLonger(body, next, keys); }
    assert forall j :: 0 <= j < |body| ==> body[j] == lines[|before| + j];
    assert body == lines[|before|..|before| + |body|];
    GrownLines(body, next, keys);
    assert forall j :: 0 <= j < |next| ==> grown[|before| + j] == next[j];
    assert forall j :: 0 <= j < |before| ==> grown[j] == lines[j];
    var shift := |next| - |body|;
    assert forall j :: |before| + |next| <= j < |grown| ==> grown[j] == lines[j - shift];
  }

  lemma GrownLonger(body: seq<string>, next: seq<string>, keys: seq<(string, string)>)
    requires Grown(body, next, keys)
    ensures |body| <= |next|
  {
  }

  lemma SettledHere(before: seq<string>, body: seq<string>, after: seq<string>, limit: nat, keys: seq<(string, string)>)
    requires RangeAt(before + body + after, |before|, |before| + |body|, limit)
    ensures TableSettled(before + body + after, keys) <==> AllSet(body, keys)
  {
    hide RangeAt, AllSet, TableRange;
    RangeUnique(before + body + after, |before|, |before| + |body|, limit);
    assert (before + body + after)[|before|..|before| + |body|] == body;
  }

  /** In a body that assigns none of the keys, setting them appends their assignments. */
  lemma {:induction false} AllAppended(body: seq<string>, keys: seq<(string, string)>)
    requires GoodKeys(keys)
    requires forall j, i :: 0 <= j < |body| && 0 <= i < |keys| ==> First(body[j]) != Some(keys[i].0[0])
    ensures WithKeys(body, keys).0 == body + Assignments(keys)
    decreases |keys|
  {
    hide WithKeys, Assignment, First, Assigns, FirstOf;
    WithKeysStep(body, keys);
    if keys == [] {
      assert body + [] == body;
    } else {
      var want := Assignment(keys[0].0, keys[0].1);
      AssignmentAssigns(keys[0].0, keys[0].1);
      forall j | 0 <= j < |body|
        ensures !Assigns(body[j], keys[0].0)
      {
        if Assigns(body[j], keys[0].0) {
          AssignsFirst(body[j], keys[0].0);
        }
      }
      PositionIs(body, AssignsKey(keys[0].0), |body|);
      AllAppended(body + [want], keys[1..]);
      assert body + [want] + Assignments(keys[1..]) == body + ([want] + Assignments(keys[1..]));
    }
  }

  lemma HeaderLine()
    ensures IsHeader(HEADER) && First(HEADER) == Some('[') && !IsHeader("") && OneLine(HEADER)
  {
    TrimStartKept(HEADER);
    assert TrimEnd(HEADER) == HEADER;
    LineKinds("");
  }

  /** The file around the table: what precedes it, its lines, what follows. */
  lemma MergedParts(lines: seq<string>, table: Table)
    returns (before: seq<string>, body: seq<string>, after: seq<string>, limit: nat)
    ensures RangeAt(before + body + after, |before|, |before| + |body|, limit)
    ensures Merged(lines, table).0 == before + WithKeys(body, table.Keys()).0 + after
    ensures if TableRange(lines).Some?
            then before + body + after == lines && Merged(lines, table).1 == WithKeys(body, table.Keys()).1
            else body == [HEADER] && after == [] && Merged(lines, table).1 != []
                 && (before == lines || before == lines + [""])
  {
    hide FirstOf, Blank, IsHeader, OpensTable, WithKeys, Assignments, Trim, GoodKeys, WithoutBlanks, RangeAt, First;
    HeaderLine();
    if TableRange(lines).Some? {
      hide TableRange;
      var (start, end) := TableRange(lines).value;
      before, body, after := lines[..start], lines[start..end], lines[end..];
      assert before + body + after == lines;
      limit := RangeHere(lines);
    } else {
      var gap := if lines != [] && !Blank(lines[|lines| - 1]) then [""] else [];
      before, body, after := lines + gap, [HEADER], [];
      limit := |before| + 1;
      TableKeysGood(table);
      HeaderAssignsNothing(table.Keys());
      AllAppended(body, table.Keys());
      NewRange(lines, gap);
      assert before + body + after == lines + gap + [HEADER];
      assert before + (body + Assignments(table.Keys())) + after
        == lines + gap + ([HEADER] + Assignments(table.Keys()));
    }
  }

  lemma HeaderAssignsNothing(keys: seq<(string, string)>)
    requires GoodKeys(keys)
    ensures forall i :: 0 <= i < |keys| ==> First(HEADER) != Some(keys[i].0[0])
  {
    hide First;
    HeaderLine();
  }

  lemma NewRange(lines: seq<string>, gap: seq<string>)
    requires TableRange(lines).None? && (gap == [] || gap == [""])
    ensures RangeAt(lines + gap + [HEADER], |lines + gap|, |lines + gap| + 1, |lines + gap| + 1)
  {
    hide Blank, IsHeader, OpensTable, WithoutBlanks;
    HeaderLine();
    var all := lines + gap + [HEADER];
    assert FirstOf(lines, IsHeader) == |lines|;
    forall j | 0 <= j < |lines + gap|
      ensures !IsHeader(all[j])
    {
      if j < |lines| {
        assert all[j] == lines[j];
      } else {
        assert all[j] == "";
      }
    }
  }

  /** The merge settles the table, and reports nothing exactly when it was settled. */
  lemma MergeSettles(lines: seq<string>, table: Table)
    ensures TableSettled(Merged(lines, table).0, table.Keys())
    ensures Merged(lines, table).1 == [] <==> TableSettled(lines, table.Keys())
    ensures Merged(lines, table).1 == [] ==> Merged(lines, table).0 == lines
  {
    hide Merged, WithKeys, RangeAt, AllSet, TableSettled, TableRange, Grown, GoodKeys;
    var keys := table.Keys();
    TableKeysGood(table);
    var before, body, after, limit := MergedParts(lines, table);
    var next := WithKeys(body, keys).0;
    WithKeysGrows(body, keys);
    WithKeysSets(body, keys);
    RangeGrows(before, body, next, after, limit, keys);
    SettledHere(before, next, after, limit + |next| - |body|, keys);
    if TableRange(lines).Some? {
      SettledHere(before, body, after, limit, keys);
    } else {
      Unsettled(lines, keys);
    }
  }

  lemma Unsettled(lines: seq<string>, keys: seq<(string, string)>)
    requires TableRange(lines).None?
    ensures !TableSettled(lines, keys)
  {
  }

  // ---- Setting the provider ----

  ghost predicate ProviderSettled(lines: seq<string>) { KeySet(lines[..TopEnd(lines)], MODEL_PROVIDER, PROVIDER) }

  /** No line of `top` opens a table, and `rest`, if there is any, begins with one that does. */
  ghost predicate TopParts(top: seq<string>, rest: seq<string>) {
    && (forall j :: 0 <= j < |top| ==> !OpensTable(top[j]))
    && (rest != [] ==> OpensTable(rest[0]))
  }

  lemma TopEndIs(top: seq<string>, rest: seq<string>)
    requires TopParts(top, rest)
    ensures TopEnd(top + rest) == |top| && (top + rest)[..|top|] == top && (top + rest)[|top|..] == rest
  {
    hide OpensTable, FirstOf;
    PositionIs(top + rest, OpensTable, |top|);
  }

  lemma {:induction false} TopSplits(lines: seq<string>)
    ensures var top := TopEnd(lines);
            top <= |lines| && TopParts(lines[..top], lines[top..]) && lines[..top] + lines[top..] == lines
  {
    hide OpensTable;
  }

  /** A range past the top moves with it. */
  lemma RangeAfterTop(top: seq<string>, rest: seq<string>, start: nat, end: nat, limit: nat)
    requires TopParts(top, rest)
    ensures RangeAt(top + rest, |top| + start, |top| + end, |top| + limit) <==> RangeAt(rest, start, end, limit)
  {
    hide Blank, IsHeader, OpensTable;
    var lines := top + rest;
    forall j | 0 <= j < |top|
      ensures !IsHeader(lines[j]) && lines[j] == top[j]
    {
      LineKinds(top[j]);
    }
    assert forall j :: 0 <= j < |rest| ==> lines[|top| + j] == rest[j];
    assert forall j :: |top| <= j < |lines| ==> lines[j] == rest[j - |top|];
  }

  /** What precedes the first table has no part in whether ours is settled. */
  lemma TableSettledAfterTop(top: seq<string>, rest: seq<string>, keys: seq<(string, string)>)
    requires TopParts(top, rest)
    ensures TableSettled(top + rest, keys) <==> TableSettled(rest, keys)
  {
    hide RangeAt, AllSet, TopParts, TableRange;
    if TableRange(rest).Some? {
      var (start, end) := TableRange(rest).value;
      var limit := RangeHere(rest);
      RangeAfterTop(top, rest, start, end, limit);
      RangeUnique(top + rest, |top| + start, |top| + end, |top| + limit);
      assert (top + rest)[|top| + start..|top| + end] == rest[start..end];
    } else if TableRange(top + rest).Some? {
      var (start, end) := TableRange(top + rest).value;
      var limit := RangeHere(top + rest);
      RangeBeyondTop(top, rest, start, end, limit);
      RangeAfterTop(top, rest, start - |top|, end - |top|, limit - |top|);
      RangeUnique(rest, start - |top|, end - |top|, limit - |top|);
    }
  }

  lemma RangeBeyondTop(top: seq<string>, rest: seq<string>, start: nat, end: nat, limit: nat)
    requires TopParts(top, rest) && RangeAt(top + rest, start, end, limit)
    ensures |top| <= start < end <= limit
  {
    hide Blank, IsHeader, OpensTable;
    LineKinds((top + rest)[start]);
  }

  lemma WantedLine()
    ensures GoodKey(MODEL_PROVIDER)
    ensures Assigns(Wanted(), MODEL_PROVIDER) && First(Wanted()) == Some('m') && !OpensTable(Wanted())
  {
    hide Assignment, Assigns, First, OpensTable;
    assert MODEL_PROVIDER[0] == 'm';
    AssignmentAssigns(MODEL_PROVIDER, PROVIDER);
    LineKinds(Wanted());
  }

  lemma SignpostLine(was: string)
    ensures First(Signpost(was)) == Some('#') && !Assigns(Signpost(was), MODEL_PROVIDER) && !OpensTable(Signpost(was))
  {
    hide Assigns;
    TrimStartKept(Signpost(was));
    LineKinds(Signpost(was));
    if Assigns(Signpost(was), MODEL_PROVIDER) {
      AssignsFirst(Signpost(was), MODEL_PROVIDER);
    }
  }

  lemma BlankLine()
    ensures !Assigns("", MODEL_PROVIDER) && !OpensTable("")
  {
  }

  /** What `ProviderSet` makes of the lines above the first table. */
  function TopSet(lines: seq<string>): seq<string> {
    var top := TopEnd(lines);
    var i := FirstOf(lines[..top], AssignsKey(MODEL_PROVIDER));
    if i < top then
      if lines[i] == Wanted() then lines[..top] else lines[..i] + [Signpost(lines[i]), Wanted()] + lines[i + 1..top]
    else lines[..top] + Spaced(lines, top)
  }

  lemma OnlyTopChanges(lines: seq<string>)
    ensures ProviderSet(lines).0 == TopSet(lines) + lines[TopEnd(lines)..]
    ensures ProviderSet(lines).1 == [] <==> ProviderSettled(lines)
    ensures ProviderSet(lines).1 == [] ==> ProviderSet(lines).0 == lines
  {
    hide FirstOf, Assigns, OpensTable, Spaced, Signpost, Wanted, ProviderSet, Trim, ProviderSettled;
    var top := TopEnd(lines);
    var i := FirstOf(lines[..top], AssignsKey(MODEL_PROVIDER));
    ProviderSetStep(lines);
    ProviderSettledIs(lines);
    if i < top && lines[i] != Wanted() {
      RestSplits(lines, i + 1, top);
      Assoc(lines[..i] + [Signpost(lines[i]), Wanted()], lines[i + 1..top], lines[top..]);
    } else if i < top {
      RestSplits(lines, 0, top);
    }
  }

  lemma ProviderSettledIs(lines: seq<string>)
    ensures var i := FirstOf(lines[..TopEnd(lines)], AssignsKey(MODEL_PROVIDER));
            ProviderSettled(lines) <==> i < TopEnd(lines) && lines[i] == Wanted()
  {
    hide FirstOf, Assigns, OpensTable, Assignment;
  }

  lemma RestSplits(lines: seq<string>, i: nat, top: nat)
    requires i <= top <= |lines|
    ensures lines[i..] == lines[i..top] + lines[top..]
    ensures lines[..top] + lines[top..] == lines
  {
  }

  /** Lines that neither assign the key nor open a table, then the wanted one, then lines that open none. */
  lemma WantedAt(next: seq<string>, i: nat)
    requires i < |next| && next[i] == Wanted()
    requires forall j :: 0 <= j < i ==> !Assigns(next[j], MODEL_PROVIDER)
    ensures KeySet(next, MODEL_PROVIDER, PROVIDER)
  {
    hide FirstOf, Assigns, Assignment;
    WantedLine();
    PositionIs(next, AssignsKey(MODEL_PROVIDER), i);
  }

  lemma ReplacedTop(top: seq<string>, i: nat)
    requires i < |top| && forall j :: 0 <= j < |top| ==> !OpensTable(top[j])
    requires forall j :: 0 <= j < i ==> !Assigns(top[j], MODEL_PROVIDER)
    ensures var next := top[..i] + [Signpost(top[i]), Wanted()] + top[i + 1..];
            KeySet(next, MODEL_PROVIDER, PROVIDER) && forall j :: 0 <= j < |next| ==> !OpensTable(next[j])
  {
    hide Assigns, OpensTable, Signpost, Wanted, KeySet, GoodKey, First;
    WantedLine();
    SignpostLine(top[i]);
    var next := top[..i] + [Signpost(top[i]), Wanted()] + top[i + 1..];
    forall j | 0 <= j < |next|
      ensures next[j] == if j < i then top[j]
                         else if j == i then Signpost(top[i])
                         else if j == i + 1 then Wanted()
                         else top[j - 1]
    {
    }
    WantedAt(next, i + 1);
  }

  lemma ExtendedTop(top: seq<string>, before: seq<string>, after: seq<string>)
    requires forall j :: 0 <= j < |top| ==> !OpensTable(top[j]) && !Assigns(top[j], MODEL_PROVIDER)
    requires (before == [] || before == [""]) && (after == [] || after == [""])
    ensures var next := top + (before + [Wanted()] + after);
            KeySet(next, MODEL_PROVIDER, PROVIDER) && forall j :: 0 <= j < |next| ==> !OpensTable(next[j])
  {
    hide Assigns, OpensTable, Wanted, KeySet, GoodKey, First;
    WantedLine();
    BlankLine();
    var next := top + (before + [Wanted()] + after);
    forall j | 0 <= j < |next|
      ensures next[j] == if j < |top| then top[j] else if j == |top| + |before| then Wanted() else ""
    {
    }
    WantedAt(next, |top| + |before|);
  }

  lemma TopSetSettles(lines: seq<string>)
    ensures KeySet(TopSet(lines), MODEL_PROVIDER, PROVIDER)
    ensures forall j :: 0 <= j < |TopSet(lines)| ==> !OpensTable(TopSet(lines)[j])
  {
    hide FirstOf, Assigns, OpensTable, Signpost, Wanted, Blank, KeySet;
    var top := TopEnd(lines);
    var i := FirstOf(lines[..top], AssignsKey(MODEL_PROVIDER));
    TopSplits(lines);
    if i == top {
      var before := if top > 0 && !Blank(lines[top - 1]) then [""] else [];
      var after := if top < |lines| && !Blank(lines[top]) then [""] else [];
      ExtendedTop(lines[..top], before, after);
    } else if lines[i] == Wanted() {
      WantedAt(lines[..top], i);
    } else {
      ReplacedTop(lines[..top], i);
      assert lines[..top][..i] == lines[..i] && lines[..top][i + 1..] == lines[i + 1..top];
    }
  }

  ghost predicate Settled(lines: seq<string>, table: Table) {
    TableSettled(lines, table.Keys()) && ProviderSettled(lines)
  }

  lemma ProviderSettles(lines: seq<string>, table: Table)
    requires TableSettled(lines, table.Keys())
    ensures Settled(ProviderSet(lines).0, table)
  {
    hide TableSettled, ProviderSet, TopSet, KeySet;
    var top := TopEnd(lines);
    TopSplits(lines);
    OnlyTopChanges(lines);
    TopSetSettles(lines);
    TableSettledAfterTop(lines[..top], lines[top..], table.Keys());
    TableSettledAfterTop(TopSet(lines), lines[top..], table.Keys());
    TopEndIs(TopSet(lines), lines[top..]);
  }

  lemma EditSettles(lines: seq<string>, table: Table)
    ensures Settled(Edited(lines, table), table)
  {
    hide TableSettled, ProviderSet, Merged, Settled;
    MergeSettles(lines, table);
    ProviderSettles(Merged(lines, table).0, table);
  }

  /** A file needs no edit exactly when its table and its top-level key already say what is wanted. */
  lemma NothingToDo(existing: string, table: Table)
    ensures Plan(existing, table) == None <==> Settled(LinesOf(existing), table)
    ensures Plan(existing, table).Some? ==>
              Plan(existing, table).value.text == Join(Edited(LinesOf(existing), table), "\n") + "\n"
  {
    hide TableSettled, ProviderSet, Merged, ProviderSettled, LinesOf, Join;
    var lines := LinesOf(existing);
    MergeSettles(lines, table);
    OnlyTopChanges(Merged(lines, table).0);
  }

  // ---- Writing the file and reading it again ----

  lemma FirstOfStripped(line: string)
    ensures First(StripCR(line)) == First(line)
  {
    hide TrimStart;
    TrimStartOfStripped(line);
  }

  lemma KindsOfStripped(line: string)
    ensures Blank(StripCR(line)) == Blank(line)
    ensures OpensTable(StripCR(line)) == OpensTable(line)
    ensures IsHeader(StripCR(line)) == IsHeader(line)
  {
    hide First, Trim, OpensTable;
    FirstOfStripped(line);
    TrimOfStripped(line);
    LineKinds(line);
    LineKinds(StripCR(line));
  }

  lemma EqualsFirst(s: string)
    ensures StartsWith(TrimStart(s), "=") <==> First(s) == Some('=')
  {
    hide TrimStart;
    var trimmed := TrimStart(s);
    if trimmed != "" {
      assert trimmed[..1] == "=" <==> trimmed[0] == '=';
    }
  }

  lemma PrefixOfStripped(s: string, key: string)
    requires '\r' !in key
    ensures StartsWith(StripCR(s), key) <==> StartsWith(s, key)
    ensures StartsWith(s, key) ==> StripCR(s)[|key|..] == StripCR(s[|key|..])
  {
    if |key| <= |s| {
      if s != "" && |key| == |s| && s[|s| - 1] == '\r' {
        assert s[..|key|] == s && '\r' in s;
      } else {
        assert StripCR(s)[..|key|] == s[..|key|];
      }
    }
  }

  lemma AssignsStripped(line: string, key: string)
    requires '\r' !in key
    ensures Assigns(StripCR(line), key) <==> Assigns(line, key)
  {
    hide TrimStart, StripCR, First, StartsWith;
    var trimmed := TrimStart(line);
    TrimStartOfStripped(line);
    PrefixOfStripped(trimmed, key);
    if StartsWith(trimmed, key) {
      PrefixBound(trimmed, key);
      PrefixBound(StripCR(trimmed), key);
      var rest := trimmed[|key|..];
      FirstOfStripped(rest);
      EqualsFirst(rest);
      EqualsFirst(StripCR(rest));
    }
  }

  lemma PrefixBound(s: string, key: string)
    requires StartsWith(s, key)
    ensures |key| <= |s|
  {
  }

  lemma KeySetStripped(body: seq<string>, key: string, value: string)
    requires GoodKey(key) && KeySet(body, key, value)
    ensures KeySet(StripAll(body), key, value)
  {
    hide FirstOf, Assigns, Assignment, StripCR;
    var i := FirstOf(body, AssignsKey(key));
    forall j | 0 <= j < |body|
      ensures Assigns(StripAll(body)[j], key) <==> Assigns(body[j], key)
    {
      AssignsStripped(body[j], key);
    }
    PositionIs(StripAll(body), AssignsKey(key), i);
    AssignmentAssigns(key, value);
  }

  lemma RangeStripped(lines: seq<string>, start: nat, end: nat, limit: nat)
    requires RangeAt(lines, start, end, limit)
    ensures RangeAt(StripAll(lines), start, end, limit)
  {
    hide Blank, OpensTable, IsHeader, StripCR;
    var stripped := StripAll(lines);
    forall j | 0 <= j < |lines|
      ensures Blank(stripped[j]) == Blank(lines[j]) && OpensTable(stripped[j]) == OpensTable(lines[j])
              && IsHeader(stripped[j]) == IsHeader(lines[j])
    {
      KindsOfStripped(lines[j]);
    }
  }

  lemma SliceStripped(lines: seq<string>, low: nat, high: nat)
    requires low <= high <= |lines|
    ensures StripAll(lines[low..high]) == StripAll(lines)[low..high]
  {
    hide StripCR;
  }

  /** Losing the carriage returns at the ends of its lines unsettles no file. */
  lemma SettledStripped(lines: seq<string>, table: Table)
    requires Settled(lines, table)
    ensures Settled(StripAll(lines), table)
  {
    hide KeySet, RangeAt, TableRange, GoodKey, StripCR, OpensTable;
    var keys := table.Keys();
    var (start, end) := TableRange(lines).value;
    var limit := RangeHere(lines);
    RangeStripped(lines, start, end, limit);
    RangeUnique(StripAll(lines), start, end, limit);
    SliceStripped(lines, start, end);
    TableKeysGood(table);
    forall i | 0 <= i < |keys|
      ensures KeySet(StripAll(lines[start..end]), keys[i].0, keys[i].1)
    {
      KeySetStripped(lines[start..end], keys[i].0, keys[i].1);
    }
    TopStripped(lines);
    SliceStripped(lines, 0, TopEnd(lines));
    WantedLine();
    KeySetStripped(lines[..TopEnd(lines)], MODEL_PROVIDER, PROVIDER);
  }

  lemma TopStripped(lines: seq<string>)
    ensures TopEnd(StripAll(lines)) == TopEnd(lines)
  {
    hide OpensTable, StripCR;
    forall j | 0 <= j < |lines|
      ensures OpensTable(StripAll(lines)[j]) == OpensTable(lines[j])
    {
      KindsOfStripped(lines[j]);
    }
    PositionIs(StripAll(lines), OpensTable, TopEnd(lines));
  }

  // ---- Line feeds ----

  lemma {:induction false} ReplaceOneLine(s: string, pattern: string, put: string)
    requires |pattern| == 1 && OneLine(pattern) && OneLine(put)
    ensures OneLine(Replace(s, pattern, put)) <==> OneLine(s)
  {
    if s != "" {
      ReplaceOneLine(s[1..], pattern, put);
      assert s == [s[0]] + s[1..];
      if StartsWith(s, pattern) {
        assert s[..1] == pattern && s[0] == pattern[0];
      }
    }
  }

  lemma AssignmentOneLine(key: string, value: string)
    requires OneLine(key)
    ensures OneLine(Assignment(key, value)) <==> OneLine(value)
  {
    hide Replace;
    ReplaceOneLine(value, "\\", "\\\\");
    ReplaceOneLine(Replace(value, "\\", "\\\\"), "\"", "\\\"");
  }

  ghost predicate AllOneLine(lines: seq<string>) { forall i :: 0 <= i < |lines| ==> OneLine(lines[i]) }

  lemma WantsOneLine(line: string, table: Table)
    requires OneLine(table.baseUrl) && Wants(line, table.Keys())
    ensures OneLine(line)
  {
    hide Assignment;
    var keys := table.Keys();
    var i :| 0 <= i < |keys| && line == Assignment(keys[i].0, keys[i].1);
    AssignmentOneLine(keys[i].0, keys[i].1);
  }

  lemma MergedOneLine(lines: seq<string>, table: Table)
    requires OneLine(table.baseUrl) && AllOneLine(lines)
    ensures AllOneLine(Merged(lines, table).0)
  {
    hide Merged, RangeAt, GoodKeys, Wants, Replaces, WithKeys, TableRange, AllOneLine;
    TableKeysGood(table);
    var before, body, after, limit := MergedParts(lines, table);
    PartsOneLine(before, body, after);
    NewOneLine(lines);
    BodyOneLine(body, table);
    PartsOneLine(before, WithKeys(body, table.Keys()).0, after);
  }

  lemma BodyOneLine(body: seq<string>, table: Table)
    requires OneLine(table.baseUrl) && AllOneLine(body)
    ensures AllOneLine(WithKeys(body, table.Keys()).0)
  {
    hide GoodKeys, Wants, Replaces, WithKeys, OneLine;
    var keys := table.Keys();
    TableKeysGood(table);
    WithKeysGrows(body, keys);
    var next := WithKeys(body, keys).0;
    forall j | 0 <= j < |next|
      ensures OneLine(next[j])
    {
      if j < |body| && next[j] != body[j] {
        ReplacesWants(body, j, next[j], keys);
        WantsOneLine(next[j], table);
      } else if j >= |body| {
        WantsOneLine(next[j], table);
      }
    }
  }

  lemma NewOneLine(lines: seq<string>)
    requires AllOneLine(lines)
    ensures AllOneLine([HEADER]) && AllOneLine([]) && AllOneLine(lines + [""])
  {
    HeaderLine();
  }

  lemma PartsOneLine(a: seq<string>, b: seq<string>, c: seq<string>)
    ensures AllOneLine(a + b + c) <==> AllOneLine(a) && AllOneLine(b) && AllOneLine(c)
  {
    hide OneLine;
    var all := a + b + c;
    assert forall j :: 0 <= j < |a| ==> all[j] == a[j];
    assert forall j :: 0 <= j < |b| ==> all[|a| + j] == b[j];
    assert forall j :: 0 <= j < |c| ==> all[|a| + |b| + j] == c[j];
  }

  lemma WantedOneLine()
    ensures OneLine(Wanted())
  {
    hide Assignment;
    AssignmentOneLine(MODEL_PROVIDER, PROVIDER);
  }

  lemma SignpostOneLine(was: string)
    requires OneLine(was)
    ensures OneLine(Signpost(was))
  {
  }

  lemma ProviderOneLine(lines: seq<string>)
    requires AllOneLine(lines)
    ensures AllOneLine(ProviderSet(lines).0)
  {
    hide FirstOf, Assigns, OpensTable, Blank, Wanted, Trim, Signpost, OneLine;
    WantedOneLine();
    assert OneLine("") by { BlankOneLine(); }
    var top := TopEnd(lines);
    var i := FirstOf(lines[..top], AssignsKey(MODEL_PROVIDER));
    var next := ProviderSet(lines).0;
    if i < top {
      SignpostOneLine(lines[i]);
    } else {
      var added := Spaced(lines, top);
      assert forall j :: 0 <= j < |added| ==> OneLine(added[j]);
      assert next == lines[..top] + added + lines[top..];
    }
  }

  lemma BlankOneLine()
    ensures OneLine("")
  {
  }

  // ---- Doing it twice ----

  lemma KeySetOneLine(body: seq<string>, key: string, value: string)
    requires AllOneLine(body) && OneLine(key) && KeySet(body, key, value)
    ensures OneLine(value)
  {
    hide Assignment, FirstOf;
    AssignmentOneLine(key, value);
  }

  /** A settled file holds the assignment of the base URL, so one with a line feed in it settles no file. */
  lemma LineFeedNeverSettles(text: string, table: Table)
    requires !OneLine(table.baseUrl)
    ensures !Settled(LinesOf(text), table)
  {
    hide LinesOf, TableRange, KeySet, ProviderSettled;
    var lines := LinesOf(text);
    LinesAreLines(text);
    if Settled(lines, table) {
      var (start, end) := TableRange(lines).value;
      assert table.Keys()[1] == ("base_url", table.baseUrl);
      KeySetOneLine(lines[start..end], table.Keys()[1].0, table.Keys()[1].1);
    }
  }

  lemma EditedOneLine(lines: seq<string>, table: Table)
    requires OneLine(table.baseUrl) && AllOneLine(lines)
    ensures AllOneLine(Edited(lines, table)) && Edited(lines, table) != []
  {
    hide Merged, ProviderSet, Settled;
    MergedOneLine(lines, table);
    ProviderOneLine(Merged(lines, table).0);
    EditSettles(lines, table);
    if Edited(lines, table) == [] {
      NoneSettled(table);
    }
  }

  lemma NoneSettled(table: Table)
    ensures !Settled([], table)
  {
  }

  /** For every file: planning on its own output finds nothing to do, exactly when the base URL is one line. */
  lemma IdempotentIffOneLine(existing: string, table: Table)
    requires Plan(existing, table).Some?
    ensures Plan(Plan(existing, table).value.text, table) == None <==> OneLine(table.baseUrl)
  {
    hide Plan, Settled, Edited, LinesOf, Join, StripAll;
    var text := Plan(existing, table).value.text;
    NothingToDo(existing, table);
    NothingToDo(text, table);
    if OneLine(table.baseUrl) {
      WrittenSettles(existing, table);
    } else {
      LineFeedNeverSettles(text, table);
    }
  }

  lemma WrittenSettles(existing: string, table: Table)
    requires OneLine(table.baseUrl)
    ensures Settled(LinesOf(Join(Edited(LinesOf(existing), table), "\n") + "\n"), table)
  {
    hide Settled, Edited, LinesOf, Join, StripAll;
    var lines := LinesOf(existing);
    LinesAreLines(existing);
    EditedOneLine(lines, table);
    EditSettles(lines, table);
    LinesOfJoin(Edited(lines, table));
    SettledStripped(Edited(lines, table), table);
  }

  // ---- What a reader finds ----

  /** What may not stand unescaped in a TOML basic string, besides quote and backslash ("String" of TOML 1.0). */
  predicate IsControl(c: char) { (c < ' ' && c != '\t') || c == '\U{7f}' }

  predicate Plain(s: string) { forall i :: 0 <= i < |s| ==> !IsControl(s[i]) }

  /** After a value: nothing, or a comment. */
  predicate EndsValue(rest: string) { TrimStart(rest) == "" || TrimStart(rest)[0] == '#' }

  /** The rest of a basic string, up to its closing quote. */
  function Unquote(s: string): Option<string> {
    if s == "" || IsControl(s[0]) then None
    else if s[0] == '"' then if EndsValue(s[1..]) then Some("") else None
    else if s[0] == '\\' then
      if |s| >= 2 && (s[1] == '\\' || s[1] == '"') then Prefixed(s[1], Unquote(s[2..])) else None
    else Prefixed(s[0], Unquote(s[1..]))
  }

  /** The value after a key, past the equals sign. */
  function ValueAfter(rest: string): Option<string>
    requires TrimStart(rest) != ""
  {
    var value := TrimStart(TrimStart(rest)[1..]);
    if StartsWith(value, "\"") then Unquote(value[1..]) else None
  }

  /** What stands after the key. */
  function RestOf(line: string, key: string): string
    requires Assigns(line, key)
    ensures TrimStart(RestOf(line, key)) != ""
  {
    TrimStart(line)[|key|..]
  }

  function ValueOn(line: string, key: string): Option<string>
    requires Assigns(line, key)
  {
    ValueAfter(RestOf(line, key))
  }

  /** The value the first assignment of `key` among these lines gives. */
  function ValueIn(lines: seq<string>, key: string): Option<string> {
    var i := FirstOf(lines, AssignsKey(key));
    if i < |lines| then ValueOn(lines[i], key) else None
  }

  function TableValue(lines: seq<string>, key: string): Option<string> {
    match TableRange(lines)
    case None => None
    case Some((start, end)) => ValueIn(lines[start..end], key)
  }

  function TopValue(lines: seq<string>, key: string): Option<string> {
    ValueIn(lines[..FirstOf(lines, OpensTable)], key)
  }

  lemma {:induction false} QuotedReads(s: string)
    ensures Unquote(Backslashed(s, '"') + "\"") == if Plain(s) then Some(s) else None
  {
    hide IsControl, Unquote;
    if s == "" {
      assert Backslashed(s, '"') + "\"" == "\"";
      UnquoteEnds();
    } else {
      QuotedReads(s[1..]);
      var rest := Backslashed(s[1..], '"') + "\"";
      if s[0] == '\\' || s[0] == '"' {
        assert Backslashed(s, '"') + "\"" == ['\\', s[0]] + rest;
      } else {
        assert Backslashed(s, '"') + "\"" == [s[0]] + rest;
      }
      UnquoteStep(s[0], rest);
      PlainCons(s);
    }
  }

  lemma UnquoteEnds()
    ensures Unquote("\"") == Some("")
  {
    assert "\""[1..] == "";
    QuotesAreNoControls();
  }

  lemma UnquoteStep(c: char, rest: string)
    ensures c == '\\' || c == '"' ==> Unquote(['\\', c] + rest) == Prefixed(c, Unquote(rest)) && !IsControl(c)
    ensures c != '\\' && c != '"' ==> Unquote([c] + rest) == if IsControl(c) then None else Prefixed(c, Unquote(rest))
  {
    hide IsControl, EndsValue;
    QuotesAreNoControls();
    assert (['\\', c] + rest)[2..] == rest && ([c] + rest)[1..] == rest;
  }

  lemma PlainCons(s: string)
    requires s != ""
    ensures Plain(s) <==> !IsControl(s[0]) && Plain(s[1..])
    ensures [s[0]] + s[1..] == s
  {
    hide IsControl;
    if Plain(s[1..]) {
      assert forall i :: 1 <= i < |s| ==> s[i] == s[1..][i - 1];
    }
  }

  lemma QuotesAreNoControls()
    ensures !IsControl('"') && !IsControl('\\')
  {
  }

  /** No control character is ever read. */
  lemma {:induction false} UnquotedIsPlain(s: string)
    ensures Unquote(s).Some? ==> Plain(Unquote(s).value)
    decreases |s|
  {
    hide IsControl, EndsValue;
    QuotesAreNoControls();
    if |s| >= 2 && s[0] == '\\' {
      UnquotedIsPlain(s[2..]);
    } else if s != "" {
      UnquotedIsPlain(s[1..]);
    }
  }

  lemma {:induction false} ValueAfterIsPlain(rest: string)
    requires TrimStart(rest) != ""
    ensures ValueAfter(rest).Some? ==> Plain(ValueAfter(rest).value)
  {
    hide Unquote, Plain, TrimStart;
    var value := TrimStart(TrimStart(rest)[1..]);
    if StartsWith(value, "\"") {
      UnquotedIsPlain(value[1..]);
    }
  }

  lemma {:induction false} ReadIsPlain(lines: seq<string>, key: string)
    ensures TableValue(lines, key).Some? ==> Plain(TableValue(lines, key).value)
  {
    hide TableRange, FirstOf, Assigns, ValueAfter, Plain, RestOf, TrimStart;
    match TableRange(lines) {
      case None =>
      case Some((start, end)) =>
        var body := lines[start..end];
        var i := FirstOf(body, AssignsKey(key));
        if i < |body| {
          ValueAfterIsPlain(RestOf(body[i], key));
        }
    }
  }

  lemma RestReads(value: string)
    ensures TrimStart(Rest(value)) != "" && ValueAfter(Rest(value)) == if Plain(value) then Some(value) else None
  {
    hide Replace, TrimStart, Unquote, Backslashed, Plain;
    ReplaceTwice(value, '"');
    QuotedReads(value);
    var text := Backslashed(value, '"') + "\"";
    var rest := Rest(value);
    assert rest == " " + ("=" + (" " + ("\"" + text)));
    TrimStartStep(rest);
    assert rest[1..] == "=" + (" " + ("\"" + text));
    TrimStartKept("=" + (" " + ("\"" + text)));
    StartsWithHit("=", " " + ("\"" + text));
    TrimStartStep(" " + ("\"" + text));
    StartsWithHit(" ", "\"" + text);
    TrimStartKept("\"" + text);
    StartsWithHit("\"", text);
  }

  lemma AssignmentReads(key: string, value: string)
    requires GoodKey(key)
    ensures Assigns(Assignment(key, value), key)
    ensures ValueOn(Assignment(key, value), key) == if Plain(value) then Some(value) else None
  {
    hide Replace, Assignment, TrimStart, Assigns, First, Rest, ValueAfter, Plain;
    AssignmentIs(key, value);
    AssignmentAssigns(key, value);
    RestReads(value);
    assert Assignment(key, value)[0] == key[0];
    TrimStartKept(Assignment(key, value));
    StartsWithHit(key, Rest(value));
  }

  lemma KeySetReads(body: seq<string>, key: string, value: string)
    requires GoodKey(key) && KeySet(body, key, value)
    ensures ValueIn(body, key) == if Plain(value) then Some(value) else None
  {
    hide Assignment, ValueOn, FirstOf, Assigns, Plain;
    AssignmentReads(key, value);
  }

  /** First-match lookup of every owned key and of the top-level provider gives what Codex needs. */
  ghost predicate AllFound(lines: seq<string>, table: Table) {
    && TableValue(lines, "name") == Some("subbier")
    && TableValue(lines, "base_url") == Some(table.baseUrl)
    && TableValue(lines, "wire_api") == Some("responses")
    && (table.requiresKey ==> TableValue(lines, "env_key") == Some("OPENAI_API_KEY"))
    && TopValue(lines, "model_provider") == Some("subbier")
  }

  lemma KeysAre(table: Table)
    ensures var keys := table.Keys();
            && |keys| >= 3 && keys[0] == ("name", "subbier") && keys[1] == ("base_url", table.baseUrl)
            && keys[2] == ("wire_api", "responses")
            && (table.requiresKey ==> |keys| > 3 && keys[3] == ("env_key", "OPENAI_API_KEY"))
  {
  }

  /** After the command, a TOML reader finds everything wanted, exactly when the base URL holds no control character. */
  lemma ReadersFindWanted(existing: string, table: Table)
    ensures var plan := Plan(existing, table);
            AllFound(LinesOf(if plan.Some? then plan.value.text else existing), table) <==> Plain(table.baseUrl)
  {
    hide Plan, LinesOf, Settled, Edited, Join, TableValue, TopValue, Plain;
    var plan := Plan(existing, table);
    var lines := LinesOf(if plan.Some? then plan.value.text else existing);
    if Plain(table.baseUrl) {
      PlainIsOneLine(table.baseUrl);
      NothingToDo(existing, table);
      WrittenSettles(existing, table);
      SettledReads(lines, table);
    } else {
      ReadIsPlain(lines, "base_url");
    }
  }

  lemma PlainIsOneLine(s: string)
    requires Plain(s)
    ensures OneLine(s)
  {
  }

  lemma SettledReads(lines: seq<string>, table: Table)
    requires Settled(lines, table) && Plain(table.baseUrl)
    ensures AllFound(lines, table)
  {
    hide ValueIn, KeySet, FirstOf, TableRange, GoodKey, Plain;
    KeysAre(table);
    TableKeysGood(table);
    WantedLine();
    KeysArePlain(table);
    var (start, end) := TableRange(lines).value;
    forall i | 0 <= i < |table.Keys()|
      ensures TableValue(lines, table.Keys()[i].0) == Some(table.Keys()[i].1)
    {
      KeySetReads(lines[start..end], table.Keys()[i].0, table.Keys()[i].1);
    }
    KeySetReads(lines[..TopEnd(lines)], MODEL_PROVIDER, PROVIDER);
  }

  lemma KeysArePlain(table: Table)
    requires Plain(table.baseUrl)
    ensures Plain(PROVIDER) && forall i :: 0 <= i < |table.Keys()| ==> Plain(table.Keys()[i].1)
  {
    var keys := table.Keys();
    assert keys[0].1 == PROVIDER && keys[2].1 == "responses";
    assert |keys| > 3 ==> keys[3].1 == "OPENAI_API_KEY";
  }

  // ---- What is told of the provider, and where it stands ----

  /** The first assignment of the top-level provider, above all tables. */
  ghost predicate TopAssigns(lines: seq<string>, i: nat) {
    && i < |lines| && Assigns(lines[i], MODEL_PROVIDER)
    && (forall j :: 0 <= j <= i ==> !OpensTable(lines[j]))
    && forall j :: 0 <= j < i ==> !Assigns(lines[j], MODEL_PROVIDER)
  }

  /** A line with nothing but blanks beside it. */
  ghost predicate StandsApart(lines: seq<string>, k: nat) {
    k < |lines| && (k > 0 ==> Blank(lines[k - 1])) && (k + 1 < |lines| ==> Blank(lines[k + 1]))
  }

  /** The change told is the one made: the old line, if another stood there, or that one was added, by itself. */
  lemma ProviderTells(lines: seq<string>)
    ensures var (after, changes) := ProviderSet(lines);
            && (forall i: nat :: TopAssigns(lines, i) ==>
                  changes == if lines[i] == Wanted() then [] else [ProviderReplaced(Trim(lines[i]))])
            && ((forall i: nat :: !TopAssigns(lines, i)) ==>
                  changes == [ProviderAdded] && exists k: nat :: StandsApart(after, k) && after[k] == Wanted())
  {
    hide Assigns, OpensTable, Wanted, Trim, Signpost, Blank, FirstOf, Spaced, ProviderSet;
    ProviderSetStep(lines);
    var top := TopEnd(lines);
    var i := FirstOf(lines[..top], AssignsKey(MODEL_PROVIDER));
    forall j: nat | TopAssigns(lines, j)
      ensures j == i < top
    {
      assert j < top;
      assert lines[..top][j] == lines[j];
    }
    if i < top {
      assert TopAssigns(lines, i);
    } else {
      SpacedApart(lines, top);
    }
  }

  lemma SpacedApart(lines: seq<string>, top: nat)
    requires top <= |lines|
    ensures var after := lines[..top] + Spaced(lines, top) + lines[top..];
            exists k: nat :: StandsApart(after, k) && after[k] == Wanted()
  {
    hide Wanted, Blank;
    var after := lines[..top] + Spaced(lines, top) + lines[top..];
    var k := if top > 0 && !Blank(lines[top - 1]) then top + 1 else top;
    assert Blank("") by { BlankIsBlank(); }
    assert after[k] == Wanted();
    assert StandsApart(after, k);
  }

  lemma BlankIsBlank()
    ensures Blank("")
  {
  }

  // ---- Uncommenting ----

  lemma NoteIs()
    ensures |NOTE| > 2 && NOTE[0] == ' ' && TrimStart(NOTE) == NOTE[2..] && NOTE[2] == '#'
    ensures '"' !in NOTE
  {
    hide TrimStart, NOTE;
    NoteBegins();
    NoteHasNoQuote();
    TrimStartStep(NOTE);
    TrimStartStep(NOTE[1..]);
    TrimStartStep(NOTE[2..]);
    assert NOTE[1..][1..] == NOTE[2..];
  }

  lemma NoteBegins()
    ensures |NOTE| > 2 && NOTE[0] == ' ' && NOTE[1] == ' ' && NOTE[2] == '#'
  {
  }

  lemma NoteHasNoQuote()
    ensures '"' !in NOTE
  {
  }

  lemma {:induction false} TrimStartAppend(a: string, b: string)
    ensures TrimStart(a + b) == if TrimStart(a) == "" then TrimStart(b) else TrimStart(a) + b
  {
    hide TrimStart, IsSpace;
    var all := a + b;
    TrimStartStep(a);
    TrimStartStep(all);
    if a == "" {
      assert all == b;
    } else {
      PrefixStays(a, b, 1);
      assert all[0] == a[0] && all[1..] == a[1..] + b;
      if IsSpace(a[0]) {
        TrimStartAppend(a[1..], b);
      }
    }
  }

  lemma {:induction false} UnclosedReadsNothing(s: string)
    requires '"' !in s
    ensures Unquote(s) == None
  {
    if s != "" {
      UnclosedReadsNothing(s[1..]);
      if s[0] == '\\' && |s| >= 2 {
        UnclosedReadsNothing(s[2..]);
      }
    }
  }

  lemma UnquoteCases(s: string)
    requires s != ""
    ensures Unquote(s)
         == if IsControl(s[0]) then None
            else if s[0] == '"' then if EndsValue(s[1..]) then Some("") else None
            else if s[0] == '\\' then
              if |s| >= 2 && (s[1] == '\\' || s[1] == '"') then Prefixed(s[1], Unquote(s[2..])) else None
            else Prefixed(s[0], Unquote(s[1..]))
    ensures Unquote("") == None
  {
  }

  lemma EndsAsWell(rest: string)
    ensures EndsValue(rest + NOTE) <==> EndsValue(rest)
  {
    hide NOTE, TrimStart;
    NoteIs();
    TrimStartAppend(rest, NOTE);
  }

  lemma {:induction false} NoteChangesNothing(s: string)
    ensures Unquote(s + NOTE) == Unquote(s)
  {
    hide Unquote, NOTE, EndsValue, IsControl;
    NoteIs();
    var t := s + NOTE;
    UnquoteCases(t);
    if s == "" {
      assert t == NOTE;
      UnclosedReadsNothing(NOTE);
    } else {
      UnquoteCases(s);
      assert t[1..] == s[1..] + NOTE;
      EndsAsWell(s[1..]);
      NoteChangesNothing(s[1..]);
      if |s| >= 2 {
        assert t[2..] == s[2..] + NOTE;
        NoteChangesNothing(s[2..]);
      }
    }
  }

  /**
   * The line that was commented out can be restored by uncommenting it, as it says: it is the old line with a
   * comment after it, assigns the same key, and gives readers the same value.
   */
  lemma UncommentingRestores(was: string, key: string)
    requires Assigns(was, key)
    ensures var line := Signpost(was);
            && StartsWith(line, "# ") && StartsWith(line[2..], was)
            && TrimStart(line[2..][|was|..]) != "" && TrimStart(line[2..][|was|..])[0] == '#'
            && Assigns(line[2..], key) && ValueOn(line[2..], key) == ValueOn(was, key)
  {
    hide NOTE, ValueAfter, TrimStart, Assigns, RestOf, Signpost;
    NoteIs();
    SignpostIs(was);
    assert (was + NOTE)[|was|..] == NOTE && (was + NOTE)[..|was|] == was;
    AssignsWithNote(was, key);
    ValueAfterNote(RestOf(was, key));
  }

  lemma AssignsWithNote(was: string, key: string)
    requires Assigns(was, key)
    ensures Assigns(was + NOTE, key) && RestOf(was + NOTE, key) == RestOf(was, key) + NOTE
  {
    hide NOTE, TrimStart, IsSpace;
    TrimStartAppend(was, NOTE);
    var trimmed := TrimStart(was);
    var rest := trimmed[|key|..];
    assert TrimStart(rest) != "" && trimmed != "";
    PrefixStays(trimmed, NOTE, |key|);
    TrimStartAppend(rest, NOTE);
    PrefixStays(TrimStart(rest), NOTE, 1);
    assert TrimStart(was + NOTE)[|key|..] == rest + NOTE;
  }

  lemma PrefixStays(a: string, b: string, n: nat)
    requires n <= |a|
    ensures (a + b)[n..] == a[n..] + b && (a + b)[..n] == a[..n]
  {
  }

  lemma SignpostIs(was: string)
    ensures StartsWith(Signpost(was), "# ") && Signpost(was)[2..] == was + NOTE
  {
    assert Signpost(was) == "# " + (was + NOTE);
  }

  lemma ValueAfterNote(rest: string)
    requires TrimStart(rest) != "" && TrimStart(rest + NOTE) != ""
    ensures ValueAfter(rest + NOTE) == ValueAfter(rest)
  {
    hide NOTE, TrimStart, Unquote, EndsValue;
    NoteIs();
    TrimStartAppend(rest, NOTE);
    var after := TrimStart(rest)[1..];
    PrefixStays(TrimStart(rest), NOTE, 1);
    TrimStartAppend(after, NOTE);
    var value := TrimStart(after);
    if value == "" {
      NothingRead(after);
      NothingRead(after + NOTE);
    } else {
      PrefixStays(value, NOTE, 1);
      NoteChangesNothing(value[1..]);
    }
  }

  lemma NothingRead(after: string)
    requires TrimStart(after) == "" || TrimStart(after)[0] != '"'
    ensures !StartsWith(TrimStart(after), "\"")
  {
    hide TrimStart;
    assert TrimStart(after) != "" ==> TrimStart(after)[..1][0] == TrimStart(after)[0];
  }

  // ---- Every line survives ----

  function Moved(j: nat, at: nat, shift: nat): nat { if j < at then j else j + shift }

  /** The first line of the table that assigns an owned key, corrected. */
  ghost predicate Corrected(lines: seq<string>, j: nat, line: string, keys: seq<(string, string)>) {
    && TableRange(lines).Some?
    && var (start, end) := TableRange(lines).value;
       start <= j < end && Replaces(lines[start..end], j - start, line, keys)
  }

  /** The first line that assigns the top-level provider, commented out. */
  ghost predicate Retired(lines: seq<string>, j: nat, line: string) {
    && j < |lines| && j == FirstOf(lines, AssignsKey(MODEL_PROVIDER))
    && (forall k :: 0 <= k < j ==> !OpensTable(lines[k]))
    && line == Signpost(lines[j])
  }

  /** Only a blank line, the header or a wanted assignment is ever added. */
  ghost predicate Added(line: string, keys: seq<(string, string)>) {
    line == "" || line == HEADER || line == Wanted() || Wants(line, keys)
  }

  ghost predicate MergeMoved(lines: seq<string>, merged: seq<string>, at: nat, shift: nat, keys: seq<(string, string)>)
  {
    && at <= |lines| && |merged| == |lines| + shift
    && (forall j :: 0 <= j < |lines| ==>
          merged[Moved(j, at, shift)] == lines[j]
          || Corrected(lines, j, merged[Moved(j, at, shift)], keys))
    && (forall j :: at <= j < at + shift ==> Added(merged[j], keys) && (merged[j] == "" || !IsTop(merged, j)))
    && (forall j :: 0 <= j < |lines| && IsTop(merged, Moved(j, at, shift)) ==>
          j < at && forall k :: 0 <= k <= j ==> merged[k] == lines[k])
  }

  lemma GrowthLine(before: seq<string>, body: seq<string>, after: seq<string>, next: seq<string>,
                   keys: seq<(string, string)>, j: nat)
    requires Grown(body, next, keys) && j < |before| + |body| + |after|
    ensures |body| <= |next|
    ensures var lines, merged := before + body + after, before + next + after;
            var place := Moved(j, |before| + |body|, |next| - |body|);
            || merged[place] == lines[j]
            || (|before| <= j < |before| + |body| && Replaces(body, j - |before|, merged[place], keys))
  {
    hide Wants, Replaces;
    var lines, merged := before + body + after, before + next + after;
    if |before| <= j < |before| + |body| {
      assert merged[j] == next[j - |before|] && lines[j] == body[j - |before|];
    } else if j >= |before| + |body| {
      var k := j - |before| - |body|;
      assert lines[j] == after[k] && merged[|before| + |next| + k] == after[k];
    }
  }

  lemma {:induction false} GrowthAdds(before: seq<string>, body: seq<string>, after: seq<string>, limit: nat,
                                      next: seq<string>, keys: seq<(string, string)>, j: nat)
    requires Grown(body, next, keys) && RangeAt(before + next + after, |before|, |before| + |next|, limit)
    requires |before| <= j < |before + next + after|
    ensures !IsTop(before + next + after, j)
    ensures |before| + |body| <= j < |before| + |next| ==> Wants((before + next + after)[j], keys)
  {
    hide Wants, Replaces, IsTop, RangeAt;
    var merged := before + next + after;
    NotTop(merged, |before|, |before| + |next|, limit, j);
    if |before| + |body| <= j < |before| + |next| {
      assert merged[j] == next[j - |before|];
    }
  }

  lemma GrowthMoves(before: seq<string>, body: seq<string>, after: seq<string>, limit: nat, next: seq<string>,
                    keys: seq<(string, string)>)
    requires GoodKeys(keys) && Grown(body, next, keys)
               && RangeAt(before + body + after, |before|, |before| + |body|, limit)
    ensures |body| <= |next|
    ensures MergeMoved(before + body + after, before + next + after, |before| + |body|, |next| - |body|, keys)
  {
    hide Wants, Replaces, TableRange, RangeAt, IsTop, GoodKeys, Grown, Corrected;
    var lines, merged := before + body + after, before + next + after;
    GrownLonger(body, next, keys);
    var at, shift := |before| + |body|, |next| - |body|;
    RangeUnique(lines, |before|, at, limit);
    RangeGrows(before, body, next, after, limit, keys);
    forall j | 0 <= j < |lines|
      ensures merged[Moved(j, at, shift)] == lines[j] || Corrected(lines, j, merged[Moved(j, at, shift)], keys)
    {
      GrowthLine(before, body, after, next, keys, j);
      if merged[Moved(j, at, shift)] != lines[j] {
        CorrectedHere(before, body, after, j, merged[Moved(j, at, shift)], keys);
      }
    }
    forall j | |before| <= j < |merged|
      ensures !IsTop(merged, j) && (at <= j < at + shift ==> Wants(merged[j], keys))
    {
      GrowthAdds(before, body, after, limit + shift, next, keys, j);
    }
    assert forall j :: 0 <= j < |before| ==> merged[j] == before[j] == lines[j];
  }

  lemma CorrectedHere(before: seq<string>, body: seq<string>, after: seq<string>, j: nat, line: string,
                      keys: seq<(string, string)>)
    requires TableRange(before + body + after) == Some((|before|, |before| + |body|))
    requires |before| <= j < |before| + |body| && Replaces(body, j - |before|, line, keys)
    ensures Corrected(before + body + after, j, line, keys)
  {
    hide TableRange, Replaces;
    assert (before + body + after)[|before|..|before| + |body|] == body;
  }

  lemma {:induction false} NewTableMoves(lines: seq<string>, gap: seq<string>, keys: seq<(string, string)>)
    requires gap == [] || gap == [""]
    requires GoodKeys(keys)
    ensures MergeMoved(lines, lines + (gap + ([HEADER] + Assignments(keys))), |lines|, |gap| + 1 + |keys|, keys)
  {
    hide Corrected, IsTop, Added, GoodKeys, Assignments;
    AssignmentsWant(keys);
    var merged := lines + (gap + ([HEADER] + Assignments(keys)));
    forall j | |lines| <= j < |merged|
      ensures Added(merged[j], keys) && (merged[j] == "" || !IsTop(merged, j))
    {
      NewTableLine(lines, gap, keys, j);
    }
  }

  lemma NewTableLine(lines: seq<string>, gap: seq<string>, keys: seq<(string, string)>, j: nat)
    requires (gap == [] || gap == [""]) && GoodKeys(keys)
    requires |lines| <= j < |lines| + |gap| + 1 + |Assignments(keys)|
    ensures var merged := lines + (gap + ([HEADER] + Assignments(keys)));
            Added(merged[j], keys) && (merged[j] == "" || !IsTop(merged, j))
  {
    hide Wants, GoodKeys, OpensTable, Assignments, First, IsHeader, Blank, Wanted;
    FreshTable(keys);
    HeaderOpens();
    var more := gap + ([HEADER] + Assignments(keys));
    var merged := lines + more;
    var k := j - |lines| - |gap|;
    assert merged[j] == more[j - |lines|];
    assert more[|gap|] == HEADER && merged[|lines| + |gap|] == HEADER;
    if k > 0 {
      assert more[j - |lines|] == Assignments(keys)[k - 1];
    }
  }

  lemma HeaderOpens()
    ensures OpensTable(HEADER)
  {
    hide First, OpensTable;
    HeaderLine();
    LineKinds(HEADER);
  }

  lemma MergeMoves(lines: seq<string>, table: Table) returns (at: nat, shift: nat)
    ensures MergeMoved(lines, Merged(lines, table).0, at, shift, table.Keys())
  {
    hide WithKeys, Wants, TableRange, Merged, RangeAt, GoodKeys, Grown, MergeMoved, Assignments;
    var keys := table.Keys();
    TableKeysGood(table);
    var before, body, after, limit := MergedParts(lines, table);
    if TableRange(lines).Some? {
      var next := WithKeys(body, keys).0;
      WithKeysGrows(body, keys);
      GrowthMoves(before, body, after, limit, next, keys);
      at, shift := |before| + |body|, |next| - |body|;
    } else {
      FreshTable(keys);
      var gap := if before == lines then [] else [""];
      assert before + ([HEADER] + Assignments(keys)) + [] == lines + (gap + ([HEADER] + Assignments(keys)));
      NewTableMoves(lines, gap, keys);
      at, shift := |lines|, |gap| + 1 + |keys|;
    }
  }

  /** Nothing up to and including this line opens a table. */
  ghost predicate IsTop(lines: seq<string>, j: nat) {
    j < |lines| && forall k :: 0 <= k <= j ==> !OpensTable(lines[k])
  }

  lemma {:induction false} NotTop(lines: seq<string>, start: nat, end: nat, limit: nat, j: nat)
    requires RangeAt(lines, start, end, limit) && start <= j
    ensures !IsTop(lines, j)
  {
    hide OpensTable, IsHeader, Blank;
    LineKinds(lines[start]);
  }

  lemma {:induction false} FreshTable(keys: seq<(string, string)>)
    requires GoodKeys(keys)
    ensures WithKeys([HEADER], keys).0 == [HEADER] + Assignments(keys)
    ensures forall j :: 0 <= j < |Assignments(keys)| ==> Wants(Assignments(keys)[j], keys)
  {
    hide First, GoodKeys, Assignment, WithKeys;
    HeaderAssignsNothing(keys);
    AllAppended([HEADER], keys);
    AssignmentsWant(keys);
  }

  lemma {:induction false} AssignmentsWant(keys: seq<(string, string)>)
    ensures |Assignments(keys)| == |keys|
    ensures forall j :: 0 <= j < |keys| ==> Assignments(keys)[j] == Assignment(keys[j].0, keys[j].1)
  {
    hide Assignment;
    if keys != [] {
      AssignmentsWant(keys[1..]);
    }
  }

  ghost predicate ProviderMoved(lines: seq<string>, placed: seq<string>, at: nat, shift: nat) {
    && at <= |lines| && |placed| == |lines| + shift
    && (forall j :: 0 <= j < |lines| ==>
          placed[Moved(j, at, shift)] == lines[j]
            || (Retired(lines, j, placed[Moved(j, at, shift)]) && IsTop(lines, j)))
    && (forall j :: at <= j < at + shift ==> placed[j] == "" || placed[j] == Wanted())
  }

  lemma RetiredMoves(lines: seq<string>, i: nat)
    requires i < |lines| && IsTop(lines, i) && i == FirstOf(lines, AssignsKey(MODEL_PROVIDER))
    ensures ProviderMoved(lines, lines[..i] + [Signpost(lines[i]), Wanted()] + lines[i + 1..], i + 1, 1)
  {
    hide Assigns, FirstOf, OpensTable, Signpost, Wanted, Retired, IsTop;
    var placed := lines[..i] + [Signpost(lines[i]), Wanted()] + lines[i + 1..];
    RetiredHere(lines, i);
    assert placed[i] == Signpost(lines[i]) && placed[i + 1] == Wanted();
    assert forall j :: 0 <= j < i ==> placed[j] == lines[j];
    assert forall j :: i < j < |lines| ==> placed[j + 1] == lines[j];
  }

  lemma RetiredHere(lines: seq<string>, i: nat)
    requires i < |lines| && IsTop(lines, i) && i == FirstOf(lines, AssignsKey(MODEL_PROVIDER))
    ensures Retired(lines, i, Signpost(lines[i]))
  {
    hide Assigns, FirstOf, OpensTable, Signpost;
  }

  lemma InsertMoves(lines: seq<string>, top: nat, insert: seq<string>)
    requires top <= |lines| && forall j :: 0 <= j < |insert| ==> insert[j] == "" || insert[j] == Wanted()
    ensures ProviderMoved(lines, lines[..top] + insert + lines[top..], top, |insert|)
  {
    hide Retired, IsTop, Wanted;
  }

  lemma ProviderMoves(lines: seq<string>) returns (at: nat, shift: nat)
    ensures ProviderMoved(lines, ProviderSet(lines).0, at, shift)
  {
    hide OpensTable, Assigns, FirstOf, Wanted, Signpost, Trim, ProviderMoved, ProviderSet;
    ProviderSetStep(lines);
    var top := TopEnd(lines);
    var i := FirstOf(lines[..top], AssignsKey(MODEL_PROVIDER));
    TopSplits(lines);
    if i < top && lines[i] != Wanted() {
      assert forall j :: 0 <= j < top ==> lines[j] == lines[..top][j];
      PositionIs(lines, AssignsKey(MODEL_PROVIDER), i);
      RetiredMoves(lines, i);
      at, shift := i + 1, 1;
    } else if i < top {
      InsertMoves(lines, top, []);
      assert lines[..top] + [] + lines[top..] == lines;
      at, shift := top, 0;
    } else {
      InsertMoves(lines, top, Spaced(lines, top));
      at, shift := top, |Spaced(lines, top)|;
    }
  }

  /** `place` gives every line of the file its place in the edited one, in order. */
  ghost predicate Survives(lines: seq<string>, edited: seq<string>, table: Table, place: seq<nat>) {
    && |place| == |lines|
    && (forall i, j :: 0 <= i < j < |lines| ==> place[i] < place[j])
    && (forall j :: 0 <= j < |lines| ==>
          && place[j] < |edited|
          && (|| edited[place[j]] == lines[j]
              || Corrected(lines, j, edited[place[j]], table.Keys())
              || Retired(lines, j, edited[place[j]])))
    && (forall j :: 0 <= j < |edited| ==> j in place || Added(edited[j], table.Keys()))
  }

  /**
   * All lines survive, in order: unchanged but for the first assignment of an owned key in the table, which is
   * corrected, and of the top-level provider, which stays as a comment; and nothing else is added.
   */
  lemma LinesSurvive(lines: seq<string>, table: Table)
    ensures exists place :: Survives(lines, Edited(lines, table), table, place)
  {
    hide Merged, ProviderSet, MergeMoved, ProviderMoved;
    var at, shift := MergeMoves(lines, table);
    var at2, shift2 := ProviderMoves(Merged(lines, table).0);
    var _ := PlacesCompose(lines, Merged(lines, table).0, Edited(lines, table), table, at, shift, at2, shift2);
  }

  lemma RetiredAsWell(lines: seq<string>, merged: seq<string>, j: nat, line: string)
    requires j < |lines| && Retired(merged, j, line)
    requires forall k :: 0 <= k <= j ==> k < |merged| && merged[k] == lines[k]
    ensures Retired(lines, j, line)
  {
    hide Assigns, OpensTable, Signpost, FirstOf;
    PositionIs(lines, AssignsKey(MODEL_PROVIDER), j);
  }

  lemma BlankNotRetired(lines: seq<string>, j: nat, line: string)
    requires Retired(lines, j, line)
    ensures lines[j] != ""
  {
    hide Assigns, OpensTable, Signpost;
    BlankLine();
  }

  lemma PlacesCompose(lines: seq<string>, merged: seq<string>, edited: seq<string>, table: Table, at: nat, shift: nat,
                      at2: nat, shift2: nat) returns (place: seq<nat>)
    requires MergeMoved(lines, merged, at, shift, table.Keys()) && ProviderMoved(merged, edited, at2, shift2)
    ensures Survives(lines, edited, table, place)
  {
    hide Corrected, Added, IsTop, Retired, Moved;
    var keys := table.Keys();
    place := seq(|lines|, j requires 0 <= j < |lines| => Moved(Moved(j, at, shift), at2, shift2));
    forall i, j | 0 <= i < j < |lines|
      ensures place[i] < place[j]
    {
      MovedOrdered(i, j, at, shift);
      MovedOrdered(Moved(i, at, shift), Moved(j, at, shift), at2, shift2);
    }
    forall j | 0 <= j < |lines|
      ensures && place[j] < |edited|
              && (|| edited[place[j]] == lines[j]
                  || Corrected(lines, j, edited[place[j]], keys)
                  || Retired(lines, j, edited[place[j]]))
    {
      var m := Moved(j, at, shift);
      MovedFits(j, at, shift, |lines|);
      MovedFits(m, at2, shift2, |merged|);
      if edited[place[j]] != merged[m] {
        MovedStays(j, at, shift);
        RetiredAsWell(lines, merged, j, edited[place[j]]);
      }
    }
    forall e | 0 <= e < |edited|
      ensures e in place || Added(edited[e], keys)
    {
      if at2 <= e < at2 + shift2 {
        AddedAbove(edited[e], keys);
      } else {
        var m := MovedBack(e, at2, shift2);
        if at <= m < at + shift {
          if edited[e] != merged[m] {
            BlankNotRetired(merged, m, edited[e]);
          }
        } else {
          var j := MovedBack(m, at, shift);
          assert place[j] == e;
        }
      }
    }
  }

  lemma MovedOrdered(i: nat, j: nat, at: nat, shift: nat)
    requires i < j
    ensures Moved(i, at, shift) < Moved(j, at, shift)
  {
  }

  lemma MovedFits(j: nat, at: nat, shift: nat, length: nat)
    requires at <= length && j < length
    ensures Moved(j, at, shift) < length + shift
  {
  }

  lemma MovedStays(j: nat, at: nat, shift: nat)
    ensures j < at ==> Moved(j, at, shift) == j
  {
  }

  lemma MovedBack(e: nat, at: nat, shift: nat) returns (j: nat)
    requires !(at <= e < at + shift)
    ensures Moved(j, at, shift) == e && j <= e && (e >= at ==> e == j + shift) && (e < at ==> e == j)
  {
    j := if e < at then e else e - shift;
  }

  lemma AddedAbove(line: string, keys: seq<(string, string)>)
    requires line == "" || line == Wanted()
    ensures Added(line, keys)
  {
  }
}
