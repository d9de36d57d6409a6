/** The law assumed of JSON text can be met: some way of writing every value as one line reads back. */
module JsonText {
  import opened Prelude
  import opened Text
  import opened SseFramer
  import opened Json
  import opened SseRewrite

  // ---- A plain spelling of every value ----

  function Unary(n: nat): string { if n == 0 then "." else "1" + Unary(n - 1) }

  function Signed(i: int): string { if i < 0 then "-" + Unary(-i) else "+" + Unary(i) }

  function Chars(s: string): string { if s == "" then ";" else "," + (Unary(s[0] as int) + Chars(s[1..])) }

  ghost function Parts(r: real): (int, int)
    requires IsBinary64(r)
    ensures Scaled(Parts(r).0, Parts(r).1) == r
  {
    var m: int, e: int :|
      -0x20_0000_0000_0000 < m < 0x20_0000_0000_0000 && -1074 <= e <= 971 && r == Scaled(m, e);
    (m, e)
  }

  ghost function NumberText(n: Number): string {
    match n
    case Unsigned(n) => "u" + Unary(n)
    case Negative(i) => "m" + Signed(i)
    case Float(r) => "r" + if IsBinary64(r) then Signed(Parts(r).0) + Signed(Parts(r).1) else ""
  }

  ghost function Spell(v: Json): string
    decreases v, 1, 0
  {
    match v
    case Null => "n"
    case Bool(b) => if b then "t" else "f"
    case Num(number) => NumberText(number)
    case Str(text) => "s" + Chars(text)
    case Arr(_) => "a" + Items(v, 0)
    case Obj(_) => "o" + Fields(v, 0)
  }

  ghost function Items(v: Json, i: nat): string
    requires v.Arr? && i <= |v.items|
    decreases v, 0, |v.items| - i
  {
    if i == |v.items| then ";" else "," + (Spell(v.items[i]) + Items(v, i + 1))
  }

  ghost function Fields(v: Json, i: nat): string
    requires v.Obj? && i <= |v.fields|
    decreases v, 0, |v.fields| - i
  {
    if i == |v.fields| then ";" else "," + (Chars(v.fields[i].0) + (Spell(v.fields[i].1) + Fields(v, i + 1)))
  }

  // ---- It can be read back ----

  /** What follows the same first character. */
  lemma AfterFirst(a: string, x: string, b: string, y: string)
    requires a != "" && b != "" && a + x == b + y
    ensures a[0] == b[0] && a[1..] + x == b[1..] + y
  {
    assert (a + x)[0] == a[0] && (b + y)[0] == b[0];
    assert (a + x)[1..] == a[1..] + x && (b + y)[1..] == b[1..] + y;
  }

  lemma {:induction false} UnaryReads(a: nat, x: string, b: nat, y: string)
    requires Unary(a) + x == Unary(b) + y
    ensures a == b && x == y
  {
    AfterFirst(Unary(a), x, Unary(b), y);
    if a > 0 && b > 0 {
      assert Unary(a)[1..] == Unary(a - 1) && Unary(b)[1..] == Unary(b - 1);
      UnaryReads(a - 1, x, b - 1, y);
    } else if a == 0 && b == 0 {
      assert Unary(0)[1..] + x == x && Unary(0)[1..] + y == y;
    }
  }

  lemma SignedReads(a: int, x: string, b: int, y: string)
    requires Signed(a) + x == Signed(b) + y
    ensures a == b && x == y
  {
    hide Unary;
    var m, n := if a < 0 then -a else a, if b < 0 then -b else b;
    AfterFirst(Signed(a), x, Signed(b), y);
    assert Signed(a)[1..] == Unary(m) && Signed(b)[1..] == Unary(n);
    UnaryReads(m, x, n, y);
  }

  lemma {:induction false} CharsRead(a: string, x: string, b: string, y: string)
    requires Chars(a) + x == Chars(b) + y
    ensures a == b && x == y
    decreases |a|
  {
    hide Unary;
    AfterFirst(Chars(a), x, Chars(b), y);
    if a != "" && b != "" {
      var s, t := Chars(a[1..]), Chars(b[1..]);
      assert Chars(a)[1..] == Unary(a[0] as int) + s && Chars(b)[1..] == Unary(b[0] as int) + t;
      Assoc(Unary(a[0] as int), s, x);
      Assoc(Unary(b[0] as int), t, y);
      UnaryReads(a[0] as int, s + x, b[0] as int, t + y);
      CharsRead(a[1..], x, b[1..], y);
      assert a == [a[0]] + a[1..] && b == [b[0]] + b[1..];
    } else if a == "" && b == "" {
      assert Chars("")[1..] + x == x && Chars("")[1..] + y == y;
    }
  }

  lemma NumbersRead(a: Number, x: string, b: Number, y: string)
    requires WellFormed(Num(a)) && WellFormed(Num(b)) && NumberText(a) + x == NumberText(b) + y
    ensures a == b && x == y
  {
    hide Unary, Signed, IsBinary64, Scaled;
    var s, t := NumberText(a), NumberText(b);
    AfterFirst(s, x, t, y);
    match (a, b) {
      case (Unsigned(m), Unsigned(n)) =>
        assert s[1..] == Unary(m) && t[1..] == Unary(n);
        UnaryReads(m, x, n, y);
      case (Negative(i), Negative(j)) =>
        assert s[1..] == Signed(i) && t[1..] == Signed(j);
        SignedReads(i, x, j, y);
      case (Float(q), Float(r)) =>
        var ((m, e), (n, f)) := (Parts(q), Parts(r));
        assert s[1..] == Signed(m) + Signed(e) && t[1..] == Signed(n) + Signed(f);
        Assoc(Signed(m), Signed(e), x);
        Assoc(Signed(n), Signed(f), y);
        SignedReads(m, Signed(e) + x, n, Signed(f) + y);
        SignedReads(e, x, f, y);
      case _ =>
    }
  }

  /** No spelling is the beginning of another. */
  lemma SpellReads(a: Json, x: string, b: Json, y: string)
    requires WellFormed(a) && WellFormed(b) && Spell(a) + x == Spell(b) + y
    ensures a == b && x == y
    decreases a, 1, 0
  {
    hide Unary, Chars, NumberText, Items, Fields, IsBinary64;
    var s, t := Spell(a), Spell(b);
    SpellTag(a);
    SpellTag(b);
    AfterFirst(s, x, t, y);
    match a {
      case Arr(_) =>
        ItemsRead(a, 0, x, b, 0, y);
        assert a.items[0..] == a.items && b.items[0..] == b.items;
      case Obj(_) =>
        FieldsRead(a, 0, x, b, 0, y);
        assert a.fields[0..] == a.fields && b.fields[0..] == b.fields;
      case Str(text) => CharsRead(text, x, b.text, y);
      case Num(number) =>
        NumberTag(number);
        NumbersRead(number, x, b.number, y);
      case _ =>
        assert s[1..] + x == x && t[1..] + y == y;
    }
  }

  lemma NumberTag(n: Number)
    ensures NumberText(n) != "" && NumberText(n)[0] in "umr"
  {
  }

  /** The first character tells the kind of value, and what follows is its body. */
  lemma SpellTag(v: Json)
    ensures var s := Spell(v);
            && s != ""
            && (v.Null? <==> s[0] == 'n') && (v == Bool(true) <==> s[0] == 't') && (v == Bool(false) <==> s[0] == 'f')
            && (v.Num? <==> s[0] in "umr") && (v.Str? <==> s[0] == 's') && (v.Arr? <==> s[0] == 'a')
            && (v.Obj? <==> s[0] == 'o')
            && (v.Arr? ==> s[1..] == Items(v, 0)) && (v.Obj? ==> s[1..] == Fields(v, 0))
            && (v.Str? ==> s[1..] == Chars(v.text))
            && (v.Null? || v.Bool? ==> s[1..] == "")
  {
    hide Unary, Chars, NumberText, Items, Fields;
    if v.Num? {
      NumberTag(v.number);
    }
  }

  lemma {:induction false} ItemsRead(a: Json, i: nat, x: string, b: Json, j: nat, y: string)
    requires a.Arr? && b.Arr? && WellFormed(a) && WellFormed(b) && i <= |a.items| && j <= |b.items|
    requires Items(a, i) + x == Items(b, j) + y
    ensures a.items[i..] == b.items[j..] && x == y
    decreases a, 0, |a.items| - i
  {
    hide Spell;
    AfterFirst(Items(a, i), x, Items(b, j), y);
    if i < |a.items| && j < |b.items| {
      var (p, q) := (Spell(a.items[i]), Spell(b.items[j]));
      assert Items(a, i)[1..] == p + Items(a, i + 1) && Items(b, j)[1..] == q + Items(b, j + 1);
      Assoc(p, Items(a, i + 1), x);
      Assoc(q, Items(b, j + 1), y);
      SpellReads(a.items[i], Items(a, i + 1) + x, b.items[j], Items(b, j + 1) + y);
      ItemsRead(a, i + 1, x, b, j + 1, y);
      assert a.items[i..] == [a.items[i]] + a.items[i + 1..] && b.items[j..] == [b.items[j]] + b.items[j + 1..];
    } else {
      assert ";"[1..] + x == x && ";"[1..] + y == y;
    }
  }

  lemma {:induction false} FieldsRead(a: Json, i: nat, x: string, b: Json, j: nat, y: string)
    requires a.Obj? && b.Obj? && WellFormed(a) && WellFormed(b) && i <= |a.fields| && j <= |b.fields|
    requires Fields(a, i) + x == Fields(b, j) + y
    ensures a.fields[i..] == b.fields[j..] && x == y
    decreases a, 0, |a.fields| - i
  {
    hide Spell, Chars;
    AfterFirst(Fields(a, i), x, Fields(b, j), y);
    if i < |a.fields| && j < |b.fields| {
      var (k, l) := (Chars(a.fields[i].0), Chars(b.fields[j].0));
      var (p, q) := (Spell(a.fields[i].1), Spell(b.fields[j].1));
      var (m, n) := (Fields(a, i + 1), Fields(b, j + 1));
      assert Fields(a, i)[1..] == k + (p + m) && Fields(b, j)[1..] == l + (q + n);
      Assoc(k, p + m, x);
      Assoc(l, q + n, y);
      CharsRead(a.fields[i].0, p + m + x, b.fields[j].0, q + n + y);
      Assoc(p, m, x);
      Assoc(q, n, y);
      SpellReads(a.fields[i].1, m + x, b.fields[j].1, n + y);
      FieldsRead(a, i + 1, x, b, j + 1, y);
      assert a.fields[i..] == [a.fields[i]] + a.fields[i + 1..] && b.fields[j..] == [b.fields[j]] + b.fields[j + 1..];
    } else {
      assert ";"[1..] + x == x && ";"[1..] + y == y;
    }
  }

  // ---- It is one line ----

  predicate IsPlain(c: char) { c in "ntfumrsao1.,;+-" }

  ghost predicate AllPlain(s: string) { forall i :: 0 <= i < |s| ==> IsPlain(s[i]) }

  lemma PlainSigned(i: int)
    ensures AllPlain(Signed(i))
  {
    PlainUnary(if i < 0 then -i else i);
  }

  lemma {:induction false} PlainUnary(n: nat)
    ensures AllPlain(Unary(n))
  {
    if n > 0 {
      PlainUnary(n - 1);
    }
  }

  lemma {:induction false} PlainChars(s: string)
    ensures AllPlain(Chars(s))
  {
    hide Unary;
    if s != "" {
      PlainUnary(s[0] as int);
      PlainChars(s[1..]);
    }
  }

  lemma PlainNumber(n: Number)
    ensures AllPlain(NumberText(n))
  {
    hide Unary, Signed, IsBinary64;
    match n {
      case Unsigned(m) => PlainUnary(m);
      case Negative(i) => PlainSigned(i);
      case Float(r) =>
        if IsBinary64(r) {
          PlainSigned(Parts(r).0);
          PlainSigned(Parts(r).1);
        }
    }
  }

  lemma PlainSpell(v: Json)
    ensures AllPlain(Spell(v))
    decreases v, 1, 0
  {
    hide Chars, NumberText;
    match v {
      case Num(number) => PlainNumber(number);
      case Str(text) => PlainChars(text);
      case Arr(_) => PlainItems(v, 0);
      case Obj(_) => PlainFields(v, 0);
      case _ =>
    }
  }

  lemma {:induction false} PlainItems(v: Json, i: nat)
    requires v.Arr? && i <= |v.items|
    ensures AllPlain(Items(v, i))
    decreases v, 0, |v.items| - i
  {
    hide Spell;
    if i < |v.items| {
      PlainSpell(v.items[i]);
      PlainItems(v, i + 1);
    }
  }

  lemma {:induction false} PlainFields(v: Json, i: nat)
    requires v.Obj? && i <= |v.fields|
    ensures AllPlain(Fields(v, i))
    decreases v, 0, |v.fields| - i
  {
    hide Spell, Chars;
    if i < |v.fields| {
      PlainChars(v.fields[i].0);
      PlainSpell(v.fields[i].1);
      PlainFields(v, i + 1);
    }
  }

  lemma PlainIsPayload(s: string)
    requires s != "" && AllPlain(s)
    ensures IsPayloadText(s)
  {
    TrimKept(s);
    assert IsPlain(s[0]) && "[DONE]"[0] == '[';
  }

  // ---- The codec ----

  ghost function Read(text: string): Option<Json> {
    if exists v :: WellFormed(v) && Spell(v) == text
    then
      var v :| WellFormed(v) && Spell(v) == text;
      Some(v)
    else None
  }

  /** The law is not empty: a codec meets it. */
  lemma SomeCodecIsLawful()
    ensures exists codec :: Lawful(codec)
  {
    hide Spell, WellFormed;
    var codec := Codec((text: string) => Read(text), (v: Json) => Spell(v));
    forall v | WellFormed(v)
      ensures codec.parse(codec.serialize(v)) == Some(v) && IsPayloadText(codec.serialize(v))
    {
      var text := Spell(v);
      assert Read(text).Some?;
      SpellReads(Read(text).value, "", v, "");
      PlainSpell(v);
      SpellTag(v);
      PlainIsPayload(text);
    }
    forall text | codec.parse(text).Some?
      ensures WellFormed(codec.parse(text).value)
    {
      assert Read(text).Some?;
    }
    assert Lawful(codec);
  }
}
