/** Merging subbier's provider table into `config.toml`, `crates/subbier-cli/src/codex_setup.rs:169-336`. */
module CodexSetup {
  import opened Prelude
  import opened Text
  import opened ConfigLines

  const PROVIDER := "subbier"

  const HEADER := "[model_providers.subbier]"

  const MODEL_PROVIDER := "model_provider"

  datatype Table = Table(baseUrl: string, requiresKey: bool) {
    function Keys(): seq<(string, string)> {
      [("name", PROVIDER), ("base_url", baseUrl), ("wire_api", "responses")]
      + if requiresKey then [("env_key", "OPENAI_API_KEY")] else []
    }
  }

  /** A basic string of TOML 1.0. */
  function Assignment(key: string, value: string): string {
    key + " = \"" + Replace(Replace(value, "\\", "\\\\"), "\"", "\\\"") + "\""
  }

  function Assignments(keys: seq<(string, string)>): seq<string> {
    if keys == [] then [] else [Assignment(keys[0].0, keys[0].1)] + Assignments(keys[1..])
  }

  predicate Assigns(line: string, key: string) {
    var trimmed := TrimStart(line);
    StartsWith(trimmed, key) && StartsWith(TrimStart(trimmed[|key|..]), "=")
  }

  predicate Blank(line: string) { Trim(line) == "" }

  predicate OpensTable(line: string) { StartsWith(TrimStart(line), "[") }

  predicate IsHeader(line: string) { Trim(line) == HEADER }

  function AssignsKey(key: string): string -> bool { (line: string) => Assigns(line, key) }

  /** Where the provider table begins, at its header, and where its last line that is not blank ends. */
  function TableRange(lines: seq<string>): (r: Option<(nat, nat)>)
    ensures r.Some? ==> r.value.0 < r.value.1 <= |lines|
  {
    var start := FirstOf(lines, IsHeader);
    if start == |lines| then None
    else Some((start, WithoutBlanks(lines, start + 1, start + 1 + FirstOf(lines[start + 1..], OpensTable))))
  }

  function WithoutBlanks(lines: seq<string>, low: nat, end: nat): (r: nat)
    requires low <= end <= |lines|
    ensures low <= r <= end
    decreases end
  {
    if end > low && Blank(lines[end - 1]) then WithoutBlanks(lines, low, end - 1) else end
  }

  function TopEnd(lines: seq<string>): nat { FirstOf(lines, OpensTable) }

  // ---- The plan ----

  datatype Change =
    | TableAdded
    | LineReplaced(was: string, want: string)
    | LineAdded(want: string)
    | ProviderReplaced(was: string)
    | ProviderAdded

  function WithKey(body: seq<string>, key: string, value: string): (seq<string>, seq<Change>) {
    var want := Assignment(key, value);
    var i := FirstOf(body, AssignsKey(key));
    if i == |body| then (body + [want], [LineAdded(want)])
    else if body[i] == want then (body, [])
    else (body[i := want], [LineReplaced(Trim(body[i]), want)])
  }

  function WithKeys(body: seq<string>, keys: seq<(string, string)>): (seq<string>, seq<Change>)
    decreases |keys|
  {
    if keys == [] then (body, [])
    else
      var (next, changes) := WithKey(body, keys[0].0, keys[0].1);
      var (end, more) := WithKeys(next, keys[1..]);
      (end, changes + more)
  }

  /** The lines after the table's keys were set one by one, or after a new table was put at the end. */
  function Merged(lines: seq<string>, table: Table): (seq<string>, seq<Change>) {
    match TableRange(lines)
    case None =>
      var gap := if lines != [] && !Blank(lines[|lines| - 1]) then [""] else [];
      (lines + gap + ([HEADER] + Assignments(table.Keys())), [TableAdded])
    case Some((start, end)) =>
      var (body, changes) := WithKeys(lines[start..end], table.Keys());
      (lines[..start] + body + lines[end..], changes)
  }

  function Wanted(): string { Assignment(MODEL_PROVIDER, PROVIDER) }

  const NOTE: string := "  # replaced by `subbier codex-setup`" + "; restore by uncommenting"

  /** What becomes of the line whose key now says something else. */
  function Signpost(was: string): string { "# " + was + NOTE }

  /** The wanted line, set off from neighbours that are not blank. */
  function Spaced(lines: seq<string>, top: nat): seq<string>
    requires top <= |lines|
  {
    (if top > 0 && !Blank(lines[top - 1]) then [""] else [])
    + [Wanted()]
    + (if top < |lines| && !Blank(lines[top]) then [""] else [])
  }

  function ProviderSet(lines: seq<string>): (seq<string>, seq<Change>) {
    var top := TopEnd(lines);
    var i := FirstOf(lines[..top], AssignsKey(MODEL_PROVIDER));
    if i < top then
      if lines[i] == Wanted() then (lines, [])
      else (lines[..i] + [Signpost(lines[i]), Wanted()] + lines[i + 1..], [ProviderReplaced(Trim(lines[i]))])
    else
      (lines[..top] + Spaced(lines, top) + lines[top..], [ProviderAdded])
  }

  lemma ProviderSetStep(lines: seq<string>)
    ensures var top := TopEnd(lines);
            var i := FirstOf(lines[..top], AssignsKey(MODEL_PROVIDER));
            && i <= top <= |lines|
            && (i < top && lines[i] == Wanted() ==> ProviderSet(lines) == (lines, []))
            && (i < top && lines[i] != Wanted() ==>
                  && ProviderSet(lines).0 == lines[..i] + [Signpost(lines[i]), Wanted()] + lines[i + 1..]
                  && ProviderSet(lines).1 == [ProviderReplaced(Trim(lines[i]))])
            && (i == top ==> ProviderSet(lines) == (lines[..top] + Spaced(lines, top) + lines[top..], [ProviderAdded]))
  {
    hide Signpost, Spaced, Wanted, Trim, Assigns, OpensTable;
  }

  datatype Edit = Edit(text: string, changes: seq<Change>)

  function Edited(lines: seq<string>, table: Table): seq<string> { ProviderSet(Merged(lines, table).0).0 }

  function Plan(existing: string, table: Table): Option<Edit> {
    var (merged, changes) := Merged(LinesOf(existing), table);
    var (lines, more) := ProviderSet(merged);
    if changes + more == [] then None else Some(Edit(Join(lines, "\n") + "\n", changes + more))
  }

  lemma WithKeysStep(body: seq<string>, keys: seq<(string, string)>)
    ensures keys == [] ==> WithKeys(body, keys) == (body, [])
    ensures keys != [] ==>
              var (next, changes) := WithKey(body, keys[0].0, keys[0].1);
              var (end, more) := WithKeys(next, keys[1..]);
              WithKeys(body, keys) == (end, changes + more)
  {
    hide WithKey;
  }

  /** Replacing a line and putting another before it. */
  lemma PutBefore(lines: seq<string>, i: nat, line: string, other: string)
    requires i < |lines|
    ensures var replaced := lines[i := line];
            replaced[..i] + [other] + replaced[i..] == lines[..i] + [other, line] + lines[i + 1..]
  {
  }

  // ---- The same, in place ----

  class ConfigFile {
    var lines: seq<string>
    var changes: seq<Change>

    constructor (lines: seq<string>)
      ensures this.lines == lines && changes == []
    {
      this.lines, changes := lines, [];
    }

    method MergeTable(table: Table)
      modifies this
      ensures lines == Merged(old(lines), table).0
      ensures changes == old(changes) + Merged(old(lines), table).1
    {
      hide FirstOf, Assignment, Assignments, Blank, TableRange, WithKeys;
      var range := TableRange(lines);
      if range.None? {
        var gap := if lines != [] && !Blank(lines[|lines| - 1]) then [""] else [];
        lines := lines + gap + ([HEADER] + Assignments(table.Keys()));
        changes := changes + [TableAdded];
        return;
      }
      var (start, end) := range.value;
      var body := MergeKeys(lines[start..end], table.Keys());
      lines := lines[..start] + body + lines[end..];
    }

    method MergeKeys(lines: seq<string>, keys: seq<(string, string)>) returns (body: seq<string>)
      modifies this`changes
      ensures body == WithKeys(lines, keys).0
      ensures changes == old(changes) + WithKeys(lines, keys).1
    {
      hide WithKeys, WithKey;
      body := lines;
      var i := 0;
      assert keys[0..] == keys && changes + WithKeys(lines, keys).1 == old(changes) + WithKeys(lines, keys).1;
      while i < |keys|
        invariant 0 <= i <= |keys|
        invariant WithKeys(lines, keys).0 == WithKeys(body, keys[i..]).0
        invariant old(changes) + WithKeys(lines, keys).1 == changes + WithKeys(body, keys[i..]).1
      {
        assert keys[i..][1..] == keys[i + 1..];
        WithKeysStep(body, keys[i..]);
        ghost var next := WithKey(body, keys[i].0, keys[i].1);
        Assoc(changes, next.1, WithKeys(next.0, keys[i + 1..]).1);
        body := MergeKey(body, keys[i].0, keys[i].1);
        i := i + 1;
      }
      WithKeysStep(body, keys[i..]);
      assert changes + [] == changes;
    }

    method MergeKey(lines: seq<string>, key: string, value: string) returns (body: seq<string>)
      modifies this`changes
      ensures body == WithKey(lines, key, value).0
      ensures changes == old(changes) + WithKey(lines, key, value).1
    {
      hide FirstOf, Assignment, Assigns;
      body := lines;
      var want := Assignment(key, value);
      var i := FirstOf(body, AssignsKey(key));
      if i == |body| {
        changes := changes + [LineAdded(want)];
        body := body + [want];
      } else if body[i] != want {
        changes := changes + [LineReplaced(Trim(body[i]), want)];
        body := body[i := want];
      }
    }

    method SpacedWanted(top: nat) returns (insert: seq<string>)
      requires top <= |lines|
      ensures insert == Spaced(lines, top)
    {
      hide Blank, Wanted;
      insert := [Wanted()];
      if top > 0 && !Blank(lines[top - 1]) {
        insert := [""] + insert;
      }
      if top < |lines| && !Blank(lines[top]) {
        insert := insert + [""];
      }
    }

    method SetModelProvider()
      modifies this
      ensures lines == ProviderSet(old(lines)).0
      ensures changes == old(changes) + ProviderSet(old(lines)).1
    {
      hide FirstOf, Wanted, Signpost, Spaced, Trim, ProviderSet, Assigns, OpensTable;
      ProviderSetStep(lines);
      var want := Wanted();
      var top := TopEnd(lines);
      var i := FirstOf(lines[..top], AssignsKey(MODEL_PROVIDER));
      if i < top {
        if lines[i] != want {
          var was := lines[i];
          changes := changes + [ProviderReplaced(Trim(was))];
          PutBefore(lines, i, want, Signpost(was));
          lines := lines[i := want];
          lines := lines[..i] + [Signpost(was)] + lines[i..];
        }
      } else {
        var insert := SpacedWanted(top);
        lines := lines[..top] + insert + lines[top..];
        changes := changes + [ProviderAdded];
      }
    }
  }

  method PlanEdit(existing: string, table: Table) returns (edit: Option<Edit>)
    ensures edit == Plan(existing, table)
  {
    hide Merged, ProviderSet, Join, LinesOf;
    ghost var (merged, changes) := Merged(LinesOf(existing), table);
    var file := new ConfigFile(LinesOf(existing));
    file.MergeTable(table);
    assert file.changes == changes && file.lines == merged;
    file.SetModelProvider();
    if file.changes == [] {
      return None;
    }
    edit := Some(Edit(Join(file.lines, "\n") + "\n", file.changes));
  }
}
