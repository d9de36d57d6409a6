/** The identity block a Claude request must begin with, `crates/libsubby/src/proxy/claude.rs:74-117`. */
module ClaudeIdentity {
  import opened Prelude
  import opened Json
  import opened Text

  const IDENTITY := "You are Claude Code, " + "Anthropic's official CLI for Claude."

  function TextBlock(text: string): Json { Obj([("type", Str("text")), ("text", Str(text))]) }

  /** Both spellings: a block with a `text`, and a bare string. */
  predicate IsIdentity(value: Json) {
    match value
    case Str(text) => Trim(text) == IDENTITY
    case Obj(_) => value.GetStr("text").Some? && Trim(value.GetStr("text").value) == IDENTITY
    case _ => false
  }

  /** The caller's blocks, whichever way they were given. */
  function BlocksOf(system: Option<Json>): seq<Json> {
    match system
    case None => []
    case Some(Null) => []
    case Some(Arr(blocks)) => blocks
    case Some(Str(text)) => if text == "" then [] else [TextBlock(text)]
    case Some(other) => [other]
  }

  // ---- Moving the first of a kind to the front ----

  /** The first that satisfies `p` stands first, or `made` does. */
  function LedBy<T>(s: seq<T>, p: T -> bool, made: T): seq<T> {
    var i := FirstOf(s, p);
    if i < |s| then [s[i]] + (s[..i] + s[i + 1..]) else [made] + s
  }

  lemma {:induction false} LedByKeepsAll<T>(s: seq<T>, p: T -> bool, made: T)
    requires p(made)
    ensures var led := LedBy(s, p, made);
            var i := FirstOf(s, p);
            && p(led[0])
            && led[1..] == (if i < |s| then s[..i] + s[i + 1..] else s)
            && multiset(led) == multiset(s) + (if i < |s| then multiset{} else multiset{made})
  {
    hide FirstOf, LedBy;
    var i := FirstOf(s, p);
    LedByParts(s, p, made);
    if i < |s| {
      MovedKeepsAll(s, i);
    } else {
      AddedKeepsAll(s, made);
    }
  }

  lemma MovedKeepsAll<T>(s: seq<T>, i: nat)
    requires i < |s|
    ensures multiset([s[i]] + (s[..i] + s[i + 1..])) == multiset(s)
  {
    assert s == s[..i] + ([s[i]] + s[i + 1..]);
  }

  lemma AddedKeepsAll<T>(s: seq<T>, made: T)
    ensures multiset([made] + s) == multiset(s) + multiset{made}
  {
  }

  lemma LedByParts<T>(s: seq<T>, p: T -> bool, made: T)
    ensures var led := LedBy(s, p, made);
            var i := FirstOf(s, p);
            && led == (if i < |s| then [s[i]] + (s[..i] + s[i + 1..]) else [made] + s)
            && led[0] == (if i < |s| then s[i] else made)
            && led[1..] == (if i < |s| then s[..i] + s[i + 1..] else s)
  {
    hide FirstOf;
  }

  lemma LeadingStays<T>(s: seq<T>, p: T -> bool, made: T)
    requires s != [] && p(s[0])
    ensures LedBy(s, p, made) == s
  {
    hide FirstOf;
    assert FirstOf(s, p) == 0;
    assert s == [s[0]] + (s[..0] + s[1..]);
  }

  function IdentityFirst(blocks: seq<Json>): seq<Json> { LedBy(blocks, IsIdentity, TextBlock(IDENTITY)) }

  /** A request's body: the fields of its object. */
  class Body {
    var fields: seq<(string, Json)>

    constructor (fields: seq<(string, Json)>)
      ensures this.fields == fields
    {
      this.fields := fields;
    }

    method EnsureIdentityFirst() returns (changed: bool)
      modifies this
      ensures fields == Insert(old(fields), "system", Arr(IdentityFirst(BlocksOf(Lookup(old(fields), "system")))))
      ensures changed <==> Lookup(old(fields), "system") != Lookup(fields, "system")
    {
      hide IsIdentity, FirstOf;
      var original := Lookup(fields, "system");
      var blocks := BlocksOf(original);
      var i := FirstOf(blocks, IsIdentity);
      if 0 < i < |blocks| {
        var identity := blocks[i];
        ghost var given := blocks;
        blocks := blocks[..i] + blocks[i + 1..];
        blocks := [identity] + blocks;
        assert blocks == IdentityFirst(given);
      } else if i == |blocks| {
        blocks := [TextBlock(IDENTITY)] + blocks;
      } else {
        LeadingStays(blocks, IsIdentity, TextBlock(IDENTITY));
      }
      changed := original != Some(Arr(blocks));
      InsertThenLookup(fields, "system", Arr(blocks), "system");
      fields := Insert(fields, "system", Arr(blocks));
    }
  }

  lemma IdentityIsIdentity()
    ensures IsIdentity(TextBlock(IDENTITY))
  {
    hide Trim;
    TrimKept(IDENTITY);
    TextOfBlock(IDENTITY);
  }

  lemma TextOfBlock(text: string)
    ensures TextBlock(text).GetStr("text") == Some(text)
  {
    var fields := [("type", Str("text")), ("text", Str(text))];
    assert fields[1..] == [("text", Str(text))];
    assert "type" != "text" by {
      assert "type"[1] != "text"[1];
    }
    assert Lookup(fields[1..], "text") == Some(Str(text));
  }

  /** The identity stands first, the caller's other blocks follow in their order, and none is lost or doubled. */
  lemma IdentityLeads(blocks: seq<Json>)
    ensures var led := IdentityFirst(blocks);
            var i := FirstOf(blocks, IsIdentity);
            && IsIdentity(led[0])
            && led[1..] == (if i < |blocks| then blocks[..i] + blocks[i + 1..] else blocks)
            && multiset(led) == multiset(blocks) + (if i < |blocks| then multiset{} else multiset{TextBlock(IDENTITY)})
  {
    hide IsIdentity, LedBy, FirstOf;
    IdentityIsIdentity();
    LedByKeepsAll(blocks, IsIdentity, TextBlock(IDENTITY));
  }

  /** The identity, as a bare string or as the text of a block, spaces around it aside. */
  predicate SaysIdentity(value: Json) {
    || (value.Str? && Trim(value.text) == IDENTITY)
    || (value.GetStr("text").Some? && Trim(value.GetStr("text").value) == IDENTITY)
  }

  /**
   * What every kind of `system` becomes: nothing, null and the empty string the identity alone; other text a block of
   * its own after the identity, unless it is the identity; a list itself, with the first identity in it moved to the
   * front or one put there; anything else the one block after the identity.
   */
  lemma SystemBecomes(system: Option<Json>)
    ensures var led := IdentityFirst(BlocksOf(system));
            var identity := Obj([("type", Str("text")), ("text", Str(IDENTITY))]);
            match system
            case None => led == [identity]
            case Some(Null) => led == [identity]
            case Some(Str(text)) =>
              var block := Obj([("type", Str("text")), ("text", Str(text))]);
              led == (if text == "" then [identity] else if Trim(text) == IDENTITY then [block] else [identity, block])
            case Some(Arr(blocks)) =>
              || ((forall i :: 0 <= i < |blocks| ==> !SaysIdentity(blocks[i])) && led == [identity] + blocks)
              || (exists i :: 0 <= i < |blocks| && SaysIdentity(blocks[i])
                              && (forall j :: 0 <= j < i ==> !SaysIdentity(blocks[j]))
                              && led == [blocks[i]] + blocks[..i] + blocks[i + 1..])
            case Some(other) => led == if SaysIdentity(other) then [other] else [identity, other]
  {
    hide IsIdentity, FirstOf, SaysIdentity, Trim;
    var blocks := BlocksOf(system);
    var i := FirstOf(blocks, IsIdentity);
    forall value
      ensures IsIdentity(value) <==> SaysIdentity(value)
    {
      IdentitySaid(value);
    }
    if system.Some? && system.value.Str? {
      TextOfBlock(system.value.text);
      BlockSays(system.value.text);
    }
    LedByOne(blocks, IsIdentity, TextBlock(IDENTITY));
    if i < |blocks| {
      Assoc([blocks[i]], blocks[..i], blocks[i + 1..]);
    }
  }

  lemma LedByOne<T>(s: seq<T>, p: T -> bool, made: T)
    ensures s == [] ==> LedBy(s, p, made) == [made]
    ensures |s| == 1 ==> LedBy(s, p, made) == if p(s[0]) then s else [made, s[0]]
  {
  }

  lemma IdentitySaid(value: Json)
    ensures IsIdentity(value) <==> SaysIdentity(value)
  {
    hide Trim;
  }

  lemma BlockSays(text: string)
    ensures SaysIdentity(TextBlock(text)) <==> Trim(text) == IDENTITY
  {
    hide Trim;
    TextOfBlock(text);
  }

  /** A body is left as it was exactly when `system` is already a list that begins with the identity. */
  lemma ChangedUnlessLeading(system: Option<Json>)
    ensures system == Some(Arr(IdentityFirst(BlocksOf(system)))) <==>
              system.Some? && system.value.Arr? && system.value.items != [] && IsIdentity(system.value.items[0])
  {
    hide IsIdentity, LedBy, FirstOf;
    var blocks := BlocksOf(system);
    IdentityLeads(blocks);
    if blocks != [] && IsIdentity(blocks[0]) {
      LeadingStays(blocks, IsIdentity, TextBlock(IDENTITY));
    }
  }

  /** Doing it again changes nothing, and no other field is touched. */
  lemma IdentityFirstTwice(fields: seq<(string, Json)>, other: string)
    ensures var blocks := IdentityFirst(BlocksOf(Lookup(fields, "system")));
            var once := Insert(fields, "system", Arr(blocks));
            && Lookup(once, "system") == Some(Arr(blocks)) && IdentityFirst(blocks) == blocks
            && Insert(once, "system", Arr(blocks)) == once
            && (other != "system" ==> Lookup(once, other) == Lookup(fields, other))
  {
    hide IsIdentity, LedBy, FirstOf, Insert, Lookup;
    var given := BlocksOf(Lookup(fields, "system"));
    var blocks := IdentityFirst(given);
    IdentityLeads(given);
    LeadingStays(blocks, IsIdentity, TextBlock(IDENTITY));
    InsertThenLookup(fields, "system", Arr(blocks), "system");
    InsertThenLookup(fields, "system", Arr(blocks), other);
  }
}
