/** The reader seen from the values: every value within the bound is printed as a text that is read back as it. */
module JsonRendering {
  import opened Wrappers
  import opened JsonTokens
  import opened JsonGrammar
  import opened JsonReading
  import opened JsonValues
  import opened JsonMeaning

  /** Numbers are numbers of the grammar, and no value lies more than `n` levels inside. */
  ghost predicate Fits(v: Json, n: nat)
    decreases n
  {
    match v
    case JsonWord(_) => true
    case JsonNumber(x) => NumberFormed(x)
    case JsonString(_) => true
    case JsonArray(es) => es == [] || (n >= 1 && forall i :: 0 <= i < |es| ==> Fits(es[i], n - 1))
    case JsonObject(fs) => fs == map[] || (n >= 1 && forall k :: k in fs ==> Fits(fs[k], n - 1))
  }

  // ---- the printer -------------------------------------------------------------------------------------

  /** A unit as JSON.stringify writes it, save that a lone surrogate is left as it is. */
  function PrintUnit(c: Unit): Text {
    if c == 0x22 then Letters("\\\"")
    else if c == 0x5C then Letters("\\\\")
    else if c == 0x08 then Letters("\\b")
    else if c == 0x0C then Letters("\\f")
    else if c == 0x0A then Letters("\\n")
    else if c == 0x0D then Letters("\\r")
    else if c == 0x09 then Letters("\\t")
    else if c < 0x20 then Letters("\\u00") + [LOWER[c / 16] as int, LOWER[c % 16] as int]
    else [c]
  }

  function PrintUnits(t: Text): Text { if t == [] then [] else PrintUnit(t[0]) + PrintUnits(t[1..]) }

  function PrintText(t: Text): Text { Letters("\"") + PrintUnits(t) + Letters("\"") }

  /** The keys of an object in some order, each once. */
  ghost function Ordered(keys: set<Text>): (ks: seq<Text>)
    ensures NoDuplicates(ks) && KeySet(ks) == keys
  {
    if keys == {} then []
    else
      var k :| k in keys;
      KeyInFront(k, Ordered(keys - {k}), keys);
      [k] + Ordered(keys - {k})
  }

  lemma KeyInFront(k: Text, ks: seq<Text>, keys: set<Text>)
    requires NoDuplicates(ks) && KeySet(ks) == keys - {k} && k in keys
    ensures NoDuplicates([k] + ks) && KeySet([k] + ks) == keys
  {
    forall i | 0 <= i < |ks| ensures ks[i] != k { assert ks[i] in KeySet(ks); }
    assert KeySet([k] + ks) == {k} + KeySet(ks);
  }

  /** The value without any whitespace; members come in some order. */
  ghost function Print(v: Json, n: nat): Text
    requires Fits(v, n)
    decreases n, 0, 0
  {
    match v
    case JsonWord(w) => Letters(match w case True => "true" case False => "false" case Null => "null")
    case JsonNumber(x) => PrintNumber(x)
    case JsonString(t) => PrintText(t)
    case JsonArray(es) => Bracketed(Array, if es == [] then [] else PrintList(es, n - 1))
    case JsonObject(fs) =>
      if fs == map[] then Bracketed(Object, []) else PrintObject(Ordered(fs.Keys), fs, n - 1)
  }

  ghost function PrintList(es: seq<Json>, n: nat): Text
    requires es != [] && forall i :: 0 <= i < |es| ==> Fits(es[i], n)
    decreases n, 1, |es|
  {
    if |es| == 1 then Print(es[0], n) else Print(es[0], n) + Letters(",") + PrintList(es[1..], n)
  }

  ghost function PrintObject(ks: seq<Text>, fs: map<Text, Json>, n: nat): Text
    requires (forall k :: k in ks ==> k in fs) && forall k :: k in fs ==> Fits(fs[k], n)
    decreases n, 2, 0
  {
    Bracketed(Object, PrintMembers(ks, fs, n))
  }

  ghost function PrintMembers(ks: seq<Text>, fs: map<Text, Json>, n: nat): Text
    requires (forall k :: k in ks ==> k in fs) && forall k :: k in fs ==> Fits(fs[k], n)
    decreases n, 1, |ks|
  {
    if ks == [] then []
    else
      var member := PrintText(ks[0]) + Letters(":") + Print(fs[ks[0]], n);
      if |ks| == 1 then member else member + Letters(",") + PrintMembers(ks[1..], fs, n)
  }

  // ---- what is printed denotes the value ---------------------------------------------------------------

  lemma UnitSpells(c: Unit)
    ensures Spells(PrintUnit(c), c) && PrintUnit(c) != []
  {
    if c < 0x20 {
      ControlSpells(c);
    } else if c == 0x22 || c == 0x5C {
      var s := PrintUnit(c);
      assert s == ['\\' as int, c];
    }
  }

  lemma ControlSpells(c: Unit)
    requires c < 0x20
    ensures Spells(PrintUnit(c), c) && PrintUnit(c) != []
  {
    var s := PrintUnit(c);
    if c !in {0x08, 0x0C, 0x0A, 0x0D, 0x09} {
      assert s[0] == '\\' as int && s[1] == 'u' as int && s[2] == LOWER[0] as int && s[3] == LOWER[0] as int;
      assert IsUnitOf(s, c, 0, 0, c / 16, c % 16);
    }
  }

  lemma {:induction false} UnitsSpell(t: Text)
    ensures SpellsAll(PrintUnits(t), t)
  {
    if t != [] {
      UnitSpells(t[0]);
      UnitsSpell(t[1..]);
      AfterFront(PrintUnit(t[0]), PrintUnits(t[1..]));
      assert PrintUnits(t)[..|PrintUnit(t[0])|] == PrintUnit(t[0]);
      assert SpellsFirst(PrintUnits(t), t[0], |PrintUnit(t[0])|);
    }
  }

  lemma TextQuotes(t: Text)
    ensures Quotes(PrintText(t), t)
  {
    UnitsSpell(t);
  }

  lemma Unframed(s: Text)
    ensures Surrounded(s, [], s, [])
  {
    assert [] + s + [] == s;
  }

  lemma {:induction false} PrintDenotes(v: Json, n: nat)
    requires Fits(v, n)
    ensures Denotes(Print(v, n), v, n)
    decreases n, 1, 0
  {
    match v
    case JsonWord(_) =>
    case JsonNumber(_) =>
    case JsonString(t) => TextQuotes(t);
    case JsonArray(es) => ArrayPrinted(es, n);
    case JsonObject(fs) => ObjectPrinted(fs, n);
  }

  lemma {:induction false} ArrayPrinted(es: seq<Json>, n: nat)
    requires Fits(JsonArray(es), n)
    ensures Denotes(Print(JsonArray(es), n), JsonArray(es), n)
    decreases n, 0, 0
  {
    if es == [] {
      EmptyDenoted(Array, n);
    } else {
      ListDenoted(es, n - 1);
      assert Print(JsonArray(es), n) == Bracketed(Array, PrintList(es, n - 1));
    }
  }

  lemma {:induction false} ObjectPrinted(fs: map<Text, Json>, n: nat)
    requires Fits(JsonObject(fs), n)
    ensures Denotes(Print(JsonObject(fs), n), JsonObject(fs), n)
    decreases n, 0, 1
  {
    if fs == map[] {
      EmptyDenoted(Object, n);
    } else {
      KeysAreThere(Ordered(fs.Keys), fs);
      assert Lists(Ordered(fs.Keys), fs);
      FieldsPrinted(Ordered(fs.Keys), fs, n - 1);
    }
  }

  lemma EmptyDenoted(kind: Kind, n: nat)
    ensures Denotes(Bracketed(kind, []), Nothing(kind), n)
  {
    assert IsGap([]);
  }

  lemma {:induction false} FieldsPrinted(ks: seq<Text>, fs: map<Text, Json>, n: nat)
    requires fs != map[] && Lists(ks, fs) && ks != [] && (forall k :: k in ks ==> k in fs)
    requires forall k :: k in fs ==> Fits(fs[k], n)
    ensures Denotes(PrintObject(ks, fs, n), JsonObject(fs), n + 1)
    decreases n, 4, 0
  {
    MembersDenoted(ks, fs, n);
    MembersMakeObject(PrintMembers(ks, fs, n), ks, fs, n);
  }

  lemma KeysAreThere(ks: seq<Text>, fs: map<Text, Json>)
    requires KeySet(ks) == fs.Keys && fs != map[]
    ensures ks != [] && forall k :: k in ks ==> k in fs
  {
    assert fs.Keys != {};
    forall k | k in ks ensures k in fs { assert k in KeySet(ks); }
  }

  lemma {:induction false} ElementDenoted(v: Json, n: nat)
    requires Fits(v, n)
    ensures ElementDenotes(Print(v, n), v, n)
    decreases n, 2, 0
  {
    PrintDenotes(v, n);
    Unframed(Print(v, n));
  }

  lemma {:induction false} ListDenoted(es: seq<Json>, n: nat)
    requires es != [] && forall i :: 0 <= i < |es| ==> Fits(es[i], n)
    ensures ListDenotes(PrintList(es, n), es, n)
    decreases n, 3, |es|
  {
    ElementDenoted(es[0], n);
    if |es| > 1 { ListDenoted(es[1..], n); }
  }

  lemma {:induction false} MembersDenoted(ks: seq<Text>, fs: map<Text, Json>, n: nat)
    requires ks != [] && (forall k :: k in ks ==> k in fs) && forall k :: k in fs ==> Fits(fs[k], n)
    ensures MembersDenote(PrintMembers(ks, fs, n), ks, fs, n)
    decreases n, 3, |ks|
  {
    var member := PrintText(ks[0]) + Letters(":") + Print(fs[ks[0]], n);
    ElementDenoted(fs[ks[0]], n);
    MemberOf(ks[0], Print(fs[ks[0]], n), fs[ks[0]], n);
    if |ks| > 1 {
      MembersDenoted(ks[1..], fs, n);
      MemberInFront(member, PrintMembers(ks[1..], fs, n), ks, fs, n);
    }
  }

  lemma MemberOf(k: Text, s: Text, v: Json, n: nat)
    requires ElementDenotes(s, v, n)
    ensures MemberDenotes(PrintText(k) + Letters(":") + s, k, v, n)
  {
    TextQuotes(k);
    Unframed(PrintText(k));
    assert NameDenotes(PrintText(k), k);
  }

  lemma MemberInFront(here: Text, rest: Text, ks: seq<Text>, fs: map<Text, Json>, n: nat)
    requires |ks| > 1 && ks[0] in fs && MemberDenotes(here, ks[0], fs[ks[0]], n) && MembersDenote(rest, ks[1..], fs, n)
    ensures MembersDenote(here + Letters(",") + rest, ks, fs, n)
  {
  }

  /** Every value within the bound is read back from its printed text. */
  lemma PrintedIsRead(v: Json)
    requires Fits(v, MAX_DEPTH)
    ensures Yields(Print(v, MAX_DEPTH), v)
  {
    ElementDenoted(v, MAX_DEPTH);
    ReadsIffDenotes(Print(v, MAX_DEPTH), v);
  }

  // ---- and back ------------------------------------------------------------------------------------------

  lemma {:induction false} ValueFits(t: Tree, n: nat)
    requires Formed(t) && Height(t) <= n
    ensures Fits(Value(t), n)
  {
    if t.Container? { PartsFit(t.parts, t.kind, n - 1); }
  }

  lemma {:induction false} PartsFit(parts: Parts, kind: Kind, n: nat)
    requires PartsFormed(parts, kind) && PartsHeight(parts) <= n
    ensures forall i :: 0 <= i < |Elements(parts)| ==> Fits(Elements(parts)[i], n)
    ensures forall k :: k in Fields(parts) ==> Fits(Fields(parts)[k], n)
  {
    ValueFits(parts.part.value, n);
    if parts.More? { PartsFit(parts.others, kind, n); }
  }

  ghost predicate Yields(source: Text, v: Json) {
    ReadText(source, true).Ok? && Value(ReadText(source, true).value.value) == v
  }

  /** A value is what some accepted text denotes iff its numbers are well formed and its nesting is within the bound. */
  lemma YieldedIffFits(v: Json)
    ensures (exists source :: Yields(source, v)) <==> Fits(v, MAX_DEPTH)
  {
    if source :| Yields(source, v) {
      TextSound(source, true);
      ValueFits(ReadText(source, true).value.value, MAX_DEPTH);
    }
    if Fits(v, MAX_DEPTH) { PrintedIsRead(v); }
  }
}
