/**
 What a JSON text means, said of the text itself (RFC 8259, sections 2 to 7): which texts denote which value. The strict
 reader and JSON.parse after it yield a value exactly when the text denotes it within the nesting bound.
 */
module JsonMeaning {
  import opened Wrappers
  import opened JsonTokens
  import opened JsonGrammar
  import opened JsonReading
  import opened JsonValues

  /** The code units of a text in ASCII. */
  function Letters(s: string): Text {
    seq(|s|, i requires 0 <= i < |s| => if s[i] as int <= 0xFFFF then s[i] as int else 0)
  }

  // ---- strings ---------------------------------------------------------------------------------------

  predicate Printable(c: Unit) { c >= 0x20 && c != '"' as int && c != '\\' as int }

  const SHORT_ESCAPES: map<Unit, Unit> := map[
    '"' as int := 0x22, '\\' as int := 0x5C, '/' as int := 0x2F, 'b' as int := 0x08, 'f' as int := 0x0C,
    'n' as int := 0x0A, 'r' as int := 0x0D, 't' as int := 0x09]

  const LOWER: string := "0123456789abcdef"
  const UPPER: string := "0123456789ABCDEF"

  /** The unit is the hexadecimal digit of that value, in either case. */
  predicate IsDigitOf(u: Unit, v: nat) { v < 16 && (u == LOWER[v] as int || u == UPPER[v] as int) }

  predicate IsUnitOf(s: Text, c: Unit, a: nat, b: nat, d: nat, e: nat) {
    && |s| == 6 && s[0] == '\\' as int && s[1] == 'u' as int && IsDigitOf(s[2], a) && IsDigitOf(s[3], b)
    && IsDigitOf(s[4], d) && IsDigitOf(s[5], e) && c == ((a * 16 + b) * 16 + d) * 16 + e
  }

  /** One unit of a string: itself when printable, a short escape, or four hexadecimal digits. */
  ghost predicate Spells(s: Text, c: Unit) {
    || (Printable(c) && s == [c])
    || (|s| == 2 && s[0] == '\\' as int && s[1] in SHORT_ESCAPES && SHORT_ESCAPES[s[1]] == c)
    || (exists a, b, d, e :: IsUnitOf(s, c, a, b, d, e))
  }

  ghost predicate SpellsAll(s: Text, t: Text) {
    if t == [] then s == [] else exists n: nat :: SpellsFirst(s, t[0], n) && SpellsAll(s[n..], t[1..])
  }

  ghost predicate SpellsFirst(s: Text, c: Unit, n: nat) { n <= |s| && Spells(s[..n], c) }

  ghost predicate Quotes(s: Text, t: Text) {
    exists body :: SpellsAll(body, t) && s == Letters("\"") + body + Letters("\"")
  }

  // ---- values ----------------------------------------------------------------------------------------

  /** A text between two gaps of whitespace. */
  ghost predicate Surrounded(s: Text, before: Text, x: Text, after: Text) {
    IsGap(before) && IsGap(after) && s == before + x + after
  }

  function Bracketed(kind: Kind, inner: Text): Text {
    match kind
    case Array => Letters("[") + inner + Letters("]")
    case Object => Letters("{") + inner + Letters("}")
  }

  /** The keys in some order, each once. */
  ghost predicate Lists(ks: seq<Text>, fs: map<Text, Json>) { NoDuplicates(ks) && fs.Keys == KeySet(ks) }

  /** The text, without whitespace around it, denotes the value, which lies at most `n` levels deep. */
  ghost predicate Denotes(s: Text, v: Json, n: nat)
    decreases n, 1, 0
  {
    match v
    case JsonWord(True) => s == Letters("true")
    case JsonWord(False) => s == Letters("false")
    case JsonWord(Null) => s == Letters("null")
    case JsonNumber(x) => NumberFormed(x) && s == PrintNumber(x)
    case JsonString(t) => Quotes(s, t)
    case JsonArray(es) =>
      if es == [] then exists gap :: IsGap(gap) && s == Bracketed(Array, gap)
      else n >= 1 && exists inner :: ListDenotes(inner, es, n - 1) && s == Bracketed(Array, inner)
    case JsonObject(fs) =>
      if fs == map[] then exists gap :: IsGap(gap) && s == Bracketed(Object, gap)
      else exists inner, ks :: ObjectDenotes(s, inner, ks, fs, n)
  }

  /** The members in braces, under the object's keys in some order. */
  ghost predicate ObjectDenotes(s: Text, inner: Text, ks: seq<Text>, fs: map<Text, Json>, n: nat)
    decreases n, 0, 0
  {
    n >= 1 && Lists(ks, fs) && MembersDenote(inner, ks, fs, n - 1) && s == Bracketed(Object, inner)
  }

  /** The value with whitespace around it. */
  ghost predicate ElementDenotes(s: Text, v: Json, n: nat)
    decreases n, 2, 0
  {
    exists before, x, after :: Surrounded(s, before, x, after) && Denotes(x, v, n)
  }

  /** The elements in order, with commas between them. */
  ghost predicate ListDenotes(s: Text, es: seq<Json>, n: nat)
    decreases n, 3, |es|
  {
    if es == [] then false
    else if |es| == 1 then ElementDenotes(s, es[0], n)
    else exists here, rest :: ElementDenotes(here, es[0], n) && ListDenotes(rest, es[1..], n)
                              && s == here + Letters(",") + rest
  }

  ghost predicate NameDenotes(s: Text, k: Text) {
    exists before, x, after :: Surrounded(s, before, x, after) && Quotes(x, k)
  }

  /** A name, a colon and its value. */
  ghost predicate MemberDenotes(s: Text, k: Text, v: Json, n: nat)
    decreases n, 3, 0
  {
    exists name, value :: NameDenotes(name, k) && ElementDenotes(value, v, n) && s == name + Letters(":") + value
  }

  ghost predicate MembersDenote(s: Text, ks: seq<Text>, fs: map<Text, Json>, n: nat)
    decreases n, 4, |ks|
  {
    if ks == [] || ks[0] !in fs then false
    else if |ks| == 1 then MemberDenotes(s, ks[0], fs[ks[0]], n)
    else exists here, rest :: MemberDenotes(here, ks[0], fs[ks[0]], n) && MembersDenote(rest, ks[1..], fs, n)
                              && s == here + Letters(",") + rest
  }

  // ---- pieces and units ------------------------------------------------------------------------------

  lemma PunctuationLetters()
    ensures Letters("\"") == [QUOTE] && Letters(",") == [COMMA] && Letters(":") == [COLON]
    ensures Letters("[") == [Opening(Array)] && Letters("]") == [Closing(Array)]
    ensures Letters("{") == [Opening(Object)] && Letters("}") == [Closing(Object)]
  {
  }

  lemma WordLetters()
    ensures Letters("true") == PrintWord(True) && Letters("false") == PrintWord(False)
    ensures Letters("null") == PrintWord(Null)
  {
  }

  lemma DigitOf(u: Unit)
    requires IsHex(u)
    ensures IsDigitOf(u, HexValue(u))
  {
  }

  lemma DigitIsHex(u: Unit, v: nat)
    requires IsDigitOf(u, v)
    ensures IsHex(u) && HexValue(u) == v
  {
  }

  /** Every piece spells its meaning. */
  lemma PieceSpells(p: Piece)
    requires PieceFormed(p)
    ensures Spells(PrintPiece(p), Meaning(p))
  {
    if p.Hex? {
      DigitOf(p.a);
      DigitOf(p.b);
      DigitOf(p.c);
      DigitOf(p.d);
      assert IsUnitOf(PrintPiece(p), Meaning(p), HexValue(p.a), HexValue(p.b), HexValue(p.c), HexValue(p.d));
    }
  }

  lemma ShortEscapeIsPiece(s: Text, c: Unit)
    requires |s| == 2 && s[0] == '\\' as int && s[1] in SHORT_ESCAPES && SHORT_ESCAPES[s[1]] == c
    ensures PieceFormed(Escape(s[1])) && PrintPiece(Escape(s[1])) == s && Meaning(Escape(s[1])) == c
  {
  }

  lemma DigitsArePiece(s: Text, c: Unit, a: nat, b: nat, d: nat, e: nat)
    requires IsUnitOf(s, c, a, b, d, e)
    ensures var p := Hex(s[2], s[3], s[4], s[5]); PieceFormed(p) && PrintPiece(p) == s && Meaning(p) == c
  {
    DigitIsHex(s[2], a);
    DigitIsHex(s[3], b);
    DigitIsHex(s[4], d);
    DigitIsHex(s[5], e);
  }

  /** Whatever spells a unit is a piece that means it. */
  lemma SpellsPiece(s: Text, c: Unit)
    requires Spells(s, c)
    ensures exists p :: PieceFormed(p) && PrintPiece(p) == s && Meaning(p) == c
  {
    if Printable(c) && s == [c] {
      assert PieceFormed(Plain(c)) && PrintPiece(Plain(c)) == s;
    } else if a, b, d, e :| IsUnitOf(s, c, a, b, d, e) {
      DigitsArePiece(s, c, a, b, d, e);
    } else {
      ShortEscapeIsPiece(s, c);
    }
  }

  lemma {:induction false} PiecesSpell(ps: seq<Piece>)
    requires PiecesFormed(ps)
    ensures SpellsAll(PrintPieces(ps), Decoded(ps))
  {
    if ps != [] {
      PiecesSpell(ps[1..]);
      PieceSpells(ps[0]);
      var s, n := PrintPieces(ps), |PrintPiece(ps[0])|;
      AfterFront(PrintPiece(ps[0]), PrintPieces(ps[1..]));
      assert s[..n] == PrintPiece(ps[0]) && Decoded(ps)[1..] == Decoded(ps[1..]);
      assert SpellsFirst(s, Decoded(ps)[0], n);
    }
  }

  ghost predicate IsSpelling(ps: seq<Piece>, s: Text, t: Text) {
    PiecesFormed(ps) && PrintPieces(ps) == s && Decoded(ps) == t
  }

  lemma {:induction false} SpelledPieces(s: Text, t: Text)
    requires SpellsAll(s, t)
    ensures exists ps :: IsSpelling(ps, s, t)
    decreases |t|
  {
    if t == [] {
      assert IsSpelling([], s, t);
    } else {
      var n: nat :| SpellsFirst(s, t[0], n) && SpellsAll(s[n..], t[1..]);
      SpelledPieces(s[n..], t[1..]);
      var ps :| IsSpelling(ps, s[n..], t[1..]);
      FirstSpelled(s, t, n, ps);
    }
  }

  lemma FirstSpelled(s: Text, t: Text, n: nat, ps: seq<Piece>)
    requires t != [] && SpellsFirst(s, t[0], n) && IsSpelling(ps, s[n..], t[1..])
    ensures exists qs :: IsSpelling(qs, s, t)
  {
    SpellsPiece(s[..n], t[0]);
    var p :| PieceFormed(p) && PrintPiece(p) == s[..n] && Meaning(p) == t[0];
    PieceInFront(p, ps, s[n..], t[1..]);
    Rejoins(s, n);
    Rejoins(t, 1);
    assert t[..1] == [t[0]];
  }

  lemma Rejoins(s: Text, n: nat)
    requires n <= |s|
    ensures s[..n] + s[n..] == s
  {
  }

  lemma PieceInFront(p: Piece, ps: seq<Piece>, s: Text, t: Text)
    requires PieceFormed(p) && IsSpelling(ps, s, t)
    ensures IsSpelling([p] + ps, PrintPiece(p) + s, [Meaning(p)] + t)
  {
    assert ([p] + ps)[1..] == ps;
  }

  lemma QuotesIff(s: Text, t: Text)
    ensures Quotes(s, t) <==> exists ps :: PiecesFormed(ps) && PrintString(ps) == s && Decoded(ps) == t
  {
    PunctuationLetters();
    if Quotes(s, t) {
      var body :| SpellsAll(body, t) && s == Letters("\"") + body + Letters("\"");
      SpelledPieces(body, t);
      var ps :| IsSpelling(ps, body, t);
    }
    if ps :| PiecesFormed(ps) && PrintString(ps) == s && Decoded(ps) == t {
      PiecesSpell(ps);
    }
  }

  // ---- from trees to texts ---------------------------------------------------------------------------

  lemma {:induction false} WriteSplits(t: Tree, a: Text, b: Text)
    ensures Write(t, a + b) == Write(t, a) + b
    decreases t
  {
    match t
    case Leaf(x) => assert PrintScalar(x) + (a + b) == PrintScalar(x) + a + b;
    case String(ps) => assert PrintString(ps) + (a + b) == PrintString(ps) + a + b;
    case Empty(kind, gap) =>
      assert [Opening(kind)] + (gap + ([Closing(kind)] + (a + b)))
             == [Opening(kind)] + (gap + ([Closing(kind)] + a)) + b;
    case Container(kind, gap, parts) =>
      WritePartsSplits(parts, kind, a, b);
      assert [Opening(kind)] + (gap + (WriteParts(parts, kind, a) + b))
             == [Opening(kind)] + (gap + WriteParts(parts, kind, a)) + b;
  }

  lemma {:induction false} WritePartsSplits(parts: Parts, kind: Kind, a: Text, b: Text)
    ensures WriteParts(parts, kind, a + b) == WriteParts(parts, kind, a) + b
    decreases parts
  {
    match parts
    case Last(p) =>
      assert [Closing(kind)] + (a + b) == [Closing(kind)] + a + b;
      WritePartSplits(p, [Closing(kind)] + a, b);
    case More(p, others) =>
      WritePartsSplits(others, kind, a, b);
      assert [COMMA] + (WriteParts(others, kind, a) + b) == [COMMA] + WriteParts(others, kind, a) + b;
      WritePartSplits(p, [COMMA] + WriteParts(others, kind, a), b);
  }

  lemma {:induction false} WritePartSplits(p: Part, a: Text, b: Text)
    ensures WritePart(p, a + b) == WritePart(p, a) + b
    decreases p
  {
    assert p.after + (a + b) == p.after + a + b;
    WriteSplits(p.value, p.after + a, b);
    assert p.before + (Write(p.value, p.after + a) + b) == p.before + Write(p.value, p.after + a) + b;
    LabelSplits(p.name, p.before + Write(p.value, p.after + a), b);
    assert p.lead + (WriteLabel(p.name, p.before + Write(p.value, p.after + a)) + b) == WritePart(p, a) + b;
  }

  lemma LabelSplits(l: Option<Label>, a: Text, b: Text)
    ensures WriteLabel(l, a + b) == WriteLabel(l, a) + b
  {
    if l.Some? {
      assert PrintString(l.value.pieces) + (l.value.gap + ([COLON] + (a + b)))
             == PrintString(l.value.pieces) + (l.value.gap + ([COLON] + a)) + b;
    }
  }

  /** What stands between the brackets of a container, after its first gap. */
  function Inner(parts: Parts): Text {
    match parts
    case Last(p) => WritePart(p, [])
    case More(p, others) => WritePart(p, []) + [COMMA] + Inner(others)
  }

  lemma {:induction false} InnerWritten(parts: Parts, kind: Kind)
    ensures WriteParts(parts, kind, []) == Inner(parts) + [Closing(kind)]
  {
    match parts
    case Last(p) => PartInFront(p, [Closing(kind)]);
    case More(p, others) =>
      InnerWritten(others, kind);
      PartInFront(p, [COMMA] + WriteParts(others, kind, []));
      JoinMore(WritePart(p, []), Inner(others), [Closing(kind)]);
  }

  lemma PartInFront(p: Part, rest: Text)
    ensures WritePart(p, rest) == WritePart(p, []) + rest && WritePart(p, rest + []) == WritePart(p, []) + rest
  {
    WritePartSplits(p, [], rest);
    assert [] + rest == rest && rest + [] == rest;
  }

  lemma JoinMore(a: Text, b: Text, c: Text)
    ensures a + ([COMMA] + (b + c)) == a + [COMMA] + b + c
  {
  }

  /** The first part with the container's gap as its own. */
  function Led(parts: Parts, gap: Text): Parts { parts.(part := parts.part.(lead := gap)) }

  lemma LedKeeps(parts: Parts, kind: Kind, gap: Text)
    requires IsGap(gap) && PartsFormed(parts, kind)
    ensures PartsFormed(Led(parts, gap), kind) && Names(Led(parts, gap)) == Names(parts)
    ensures PartsDistinct(Led(parts, gap)) == PartsDistinct(parts) && PartsHeight(Led(parts, gap)) == PartsHeight(parts)
    ensures Elements(Led(parts, gap)) == Elements(parts) && Fields(Led(parts, gap)) == Fields(parts)
  {
  }

  lemma LedInner(parts: Parts, gap: Text)
    requires parts.part.lead == []
    ensures Inner(Led(parts, gap)) == gap + Inner(parts)
  {
    LedPart(parts.part, gap);
    if parts.More? { assert gap + WritePart(parts.part, []) + [COMMA] == gap + (WritePart(parts.part, []) + [COMMA]); }
  }

  lemma LedPart(p: Part, gap: Text)
    requires p.lead == []
    ensures WritePart(p.(lead := gap), []) == gap + WritePart(p, [])
  {
  }

  lemma ContainerWritten(kind: Kind, gap: Text, parts: Parts)
    requires IsGap(gap) && PartsFormed(parts, kind) && parts.part.lead == []
    ensures Write(Container(kind, gap, parts), []) == Bracketed(kind, Inner(Led(parts, gap)))
  {
    InnerWritten(parts, kind);
    LedInner(parts, gap);
    PunctuationLetters();
    assert [Opening(kind)] + (gap + (Inner(parts) + [Closing(kind)]))
           == [Opening(kind)] + (gap + Inner(parts)) + [Closing(kind)];
  }

  lemma {:induction false} TreeDenotes(t: Tree, n: nat)
    requires Formed(t) && Distinct(t) && Height(t) <= n
    ensures Denotes(Write(t, []), Value(t), n)
    decreases t, 1
  {
    match t
    case Leaf(x) =>
      WordLetters();
      assert PrintScalar(x) + [] == PrintScalar(x);
    case String(ps) =>
      QuotesIff(PrintString(ps), Decoded(ps));
      assert PrintString(ps) + [] == PrintString(ps);
    case Empty(kind, gap) =>
      PunctuationLetters();
      assert [Opening(kind)] + (gap + ([Closing(kind)] + [])) == Bracketed(kind, gap);
    case Container(kind, gap, parts) =>
      ContainerWritten(kind, gap, parts);
      LedKeeps(parts, kind, gap);
      if kind.Array? { ArrayDenotes(gap, parts, n); } else { PartsMakeDenoted(gap, parts, n); }
  }

  lemma {:induction false} ArrayDenotes(gap: Text, parts: Parts, n: nat)
    requires Formed(Container(Array, gap, parts)) && PartsDistinct(parts) && 1 + PartsHeight(parts) <= n
    ensures Denotes(Bracketed(Array, Inner(Led(parts, gap))), JsonArray(Elements(parts)), n)
    decreases parts, 3
  {
    LedKeeps(parts, Array, gap);
    ElementsDenote(Led(parts, gap), parts, n - 1);
  }

  /** The parts `parts` as elements, whose first may have got another lead. */
  lemma {:induction false} ElementsDenote(led: Parts, parts: Parts, n: nat)
    requires led == Led(parts, led.part.lead) && PartsFormed(led, Array) && PartsDistinct(parts)
    requires PartsHeight(parts) <= n
    ensures ListDenotes(Inner(led), Elements(parts), n)
    decreases parts, 2
  {
    var p := parts.part;
    TreeDenotes(p.value, n);
    ElementDenoted(led.part, n);
    if parts.More? {
      ElementsDenote(parts.others, parts.others, n);
      PunctuationLetters();
      assert Elements(parts)[1..] == Elements(parts.others);
      assert Inner(led) == WritePart(led.part, []) + Letters(",") + Inner(parts.others);
    }
  }

  lemma ElementDenoted(p: Part, n: nat)
    requires PartFormed(p, Array) && Denotes(Write(p.value, []), Value(p.value), n)
    ensures ElementDenotes(WritePart(p, []), Value(p.value), n)
  {
    ElementWritten(p);
    assert Surrounded(WritePart(p, []), p.lead, Write(p.value, []), p.after);
  }

  lemma ElementWritten(p: Part)
    requires p.name.None? && p.before == []
    ensures WritePart(p, []) == p.lead + Write(p.value, []) + p.after
  {
    var x := Write(p.value, []);
    SurroundedTree(p.value, x, p.after);
    assert [] + (x + p.after) == x + p.after;
    JoinFrame(p.lead, x, p.after);
  }

  lemma {:induction false} PartsMakeDenoted(gap: Text, parts: Parts, n: nat)
    requires Formed(Container(Object, gap, parts)) && PartsDistinct(parts) && 1 + PartsHeight(parts) <= n
    requires NoDuplicates(Names(parts))
    ensures Denotes(Bracketed(Object, Inner(Led(parts, gap))), JsonObject(Fields(parts)), n)
    decreases parts, 3
  {
    LedKeeps(parts, Object, gap);
    FieldsAreHeld(parts);
    PartsDenote(Led(parts, gap), parts, Fields(parts), n - 1);
    MembersMakeObject(Inner(Led(parts, gap)), Names(parts), Fields(parts), n - 1);
  }

  lemma FieldsAreHeld(parts: Parts)
    requires PartsFormed(parts, Object) && NoDuplicates(Names(parts))
    ensures Lists(Names(parts), Fields(parts)) && Fields(parts) != map[]
    ensures forall i {:trigger HoldsPart(Fields(parts), parts, i)} :: 0 <= i < |Names(parts)| ==>
              HoldsPart(Fields(parts), parts, i)
  {
    FieldNames(parts);
    HasFields(parts);
    forall i | 0 <= i < |Names(parts)| ensures HoldsPart(Fields(parts), parts, i) { NoMemberIsLost(parts, i); }
  }

  lemma MembersMakeObject(inner: Text, ks: seq<Text>, fs: map<Text, Json>, n: nat)
    requires fs != map[] && Lists(ks, fs) && MembersDenote(inner, ks, fs, n)
    ensures Denotes(Bracketed(Object, inner), JsonObject(fs), n + 1)
  {
    assert ObjectDenotes(Bracketed(Object, inner), inner, ks, fs, n + 1);
  }

  lemma HasFields(parts: Parts)
    requires PartsFormed(parts, Object)
    ensures Fields(parts) != map[] && Names(parts) != []
  {
    FieldNames(parts);
    assert parts.part.name.Some?;
    assert Names(parts)[0] in KeySet(Names(parts));
  }

  ghost predicate HoldsPart(fs: map<Text, Json>, parts: Parts, i: nat) {
    i < |Names(parts)| && Names(parts)[i] in fs && fs[Names(parts)[i]] == Value(PartAt(parts, i).value)
  }

  lemma {:induction false} PartsDenote(led: Parts, parts: Parts, fs: map<Text, Json>, n: nat)
    requires led == Led(parts, led.part.lead) && PartsFormed(led, Object) && PartsDistinct(parts)
    requires PartsHeight(parts) <= n
    requires forall i {:trigger HoldsPart(fs, parts, i)} :: 0 <= i < |Names(parts)| ==> HoldsPart(fs, parts, i)
    ensures MembersDenote(Inner(led), Names(parts), fs, n)
    decreases parts, 2
  {
    var p := parts.part;
    TreeDenotes(p.value, n);
    MemberDenoted(led.part, n);
    assert HoldsPart(fs, parts, 0);
    if parts.More? {
      var names := Names(parts.others);
      assert Names(parts)[1..] == names;
      forall i | 0 <= i < |names| ensures HoldsPart(fs, parts.others, i) { assert HoldsPart(fs, parts, i + 1); }
      PartsDenote(parts.others, parts.others, fs, n);
      HasFields(parts.others);
      PunctuationLetters();
      assert Inner(led) == WritePart(led.part, []) + Letters(",") + Inner(parts.others);
    }
  }

  lemma MemberDenoted(p: Part, n: nat)
    requires PartFormed(p, Object) && Denotes(Write(p.value, []), Value(p.value), n)
    ensures MemberDenotes(WritePart(p, []), Decoded(p.name.value.pieces), Value(p.value), n)
  {
    var l, x := p.name.value, Write(p.value, []);
    WriteSplits(p.value, [], p.after + []);
    assert [] + (p.after + []) == p.after + [] && p.after + [] == p.after;
    QuotesIff(PrintString(l.pieces), Decoded(l.pieces));
    var name, value := p.lead + PrintString(l.pieces) + l.gap, p.before + x + p.after;
    assert NameDenotes(name, Decoded(l.pieces)) by { assert Surrounded(name, p.lead, PrintString(l.pieces), l.gap); }
    assert ElementDenotes(value, Value(p.value), n) by { assert Surrounded(value, p.before, x, p.after); }
    PunctuationLetters();
    JoinMember(p.lead, PrintString(l.pieces), l.gap, p.before, x, p.after);
  }

  lemma JoinMember(lead: Text, name: Text, gap: Text, before: Text, x: Text, after: Text)
    ensures lead + (name + (gap + ([COLON] + (before + (x + after)))))
            == (lead + name + gap) + [COLON] + (before + x + after)
  {
  }

  // ---- from texts to trees ---------------------------------------------------------------------------

  ghost predicate IsTree(t: Tree, s: Text, v: Json, n: nat) {
    Formed(t) && Distinct(t) && Height(t) <= n && Value(t) == v && Write(t, []) == s
  }

  ghost predicate AreParts(parts: Parts, s: Text, kind: Kind, n: nat) {
    PartsFormed(parts, kind) && PartsDistinct(parts) && PartsHeight(parts) <= n && Inner(parts) == s
  }

  ghost predicate IsPart(p: Part, s: Text, kind: Kind, v: Json, n: nat) {
    && PartFormed(p, kind) && Distinct(p.value) && Height(p.value) <= n && Value(p.value) == v
    && WritePart(p, []) == s
  }

  lemma {:induction false} DenotedTree(s: Text, v: Json, n: nat)
    requires Denotes(s, v, n)
    ensures exists t :: IsTree(t, s, v, n)
    decreases n, 1, 0
  {
    match v
    case JsonWord(w) =>
      WordLetters();
      assert PrintWord(w) + [] == PrintWord(w);
      assert IsTree(Leaf(WordScalar(w)), s, v, n);
    case JsonNumber(x) =>
      assert PrintNumber(x) + [] == PrintNumber(x);
      assert IsTree(Leaf(NumberScalar(x)), s, v, n);
    case JsonString(text) =>
      QuotesIff(s, text);
      var ps :| PiecesFormed(ps) && PrintString(ps) == s && Decoded(ps) == text;
      assert PrintString(ps) + [] == PrintString(ps);
      assert IsTree(String(ps), s, v, n);
    case JsonArray(es) => if es == [] { EmptyTree(s, Array, n); } else { ArrayTree(s, es, n); }
    case JsonObject(fs) => if fs == map[] { EmptyTree(s, Object, n); } else { ObjectTree(s, fs, n); }
  }

  lemma EmptyTree(s: Text, kind: Kind, n: nat)
    requires exists gap :: IsGap(gap) && s == Bracketed(kind, gap)
    ensures exists t :: IsTree(t, s, Nothing(kind), n)
  {
    var gap :| IsGap(gap) && s == Bracketed(kind, gap);
    PunctuationLetters();
    assert [Opening(kind)] + (gap + ([Closing(kind)] + [])) == s;
    assert IsTree(Empty(kind, gap), s, Nothing(kind), n);
  }

  function Nothing(kind: Kind): Json { if kind.Object? then JsonObject(map[]) else JsonArray([]) }

  /** The container whose first part's lead is the gap after its bracket. */
  function Contained(kind: Kind, parts: Parts): Tree { Container(kind, parts.part.lead, Led(parts, [])) }

  lemma ContainedWritten(kind: Kind, parts: Parts)
    requires PartsFormed(parts, kind)
    ensures Formed(Contained(kind, parts)) && Write(Contained(kind, parts), []) == Bracketed(kind, Inner(parts))
    ensures Names(Led(parts, [])) == Names(parts) && PartsDistinct(Led(parts, [])) == PartsDistinct(parts)
    ensures PartsHeight(Led(parts, [])) == PartsHeight(parts)
    ensures Elements(Led(parts, [])) == Elements(parts) && Fields(Led(parts, [])) == Fields(parts)
  {
    LedKeeps(parts, kind, []);
    ContainerWritten(kind, parts.part.lead, Led(parts, []));
    assert Led(Led(parts, []), parts.part.lead) == parts;
  }

  lemma {:induction false} ArrayTree(s: Text, es: seq<Json>, n: nat)
    requires Denotes(s, JsonArray(es), n) && es != []
    ensures exists t :: IsTree(t, s, JsonArray(es), n)
    decreases n, 0, 0
  {
    var inner :| ListDenotes(inner, es, n - 1) && s == Bracketed(Array, inner);
    ListParts(inner, es, n - 1);
    var parts :| AreParts(parts, inner, Array, n - 1) && Elements(parts) == es;
    ContainedWritten(Array, parts);
    NoNamesInElements(parts);
    assert IsTree(Contained(Array, parts), s, JsonArray(es), n);
  }

  lemma {:induction false} NoNamesInElements(parts: Parts)
    requires PartsFormed(parts, Array)
    ensures Names(parts) == []
  {
    if parts.More? { NoNamesInElements(parts.others); }
  }

  lemma {:induction false} ElementPart(s: Text, v: Json, n: nat)
    requires ElementDenotes(s, v, n)
    ensures exists p :: IsPart(p, s, Array, v, n)
    decreases n, 2, 0
  {
    var before, x, after :| Surrounded(s, before, x, after) && Denotes(x, v, n);
    DenotedTree(x, v, n);
    var t :| IsTree(t, x, v, n);
    TreeInGaps(t, before, x, after, v, n);
  }

  lemma TreeInGaps(t: Tree, before: Text, x: Text, after: Text, v: Json, n: nat)
    requires IsTree(t, x, v, n) && IsGap(before) && IsGap(after)
    ensures IsPart(Part(before, None, [], t, after), before + x + after, Array, v, n)
  {
    ElementWritten(Part(before, None, [], t, after));
  }

  lemma SurroundedTree(t: Tree, x: Text, after: Text)
    requires Write(t, []) == x
    ensures Write(t, after + []) == x + after
  {
    WriteSplits(t, [], after);
    assert [] + after == after && after + [] == after;
  }

  lemma {:induction false} ListParts(s: Text, es: seq<Json>, n: nat)
    requires ListDenotes(s, es, n)
    ensures exists parts :: AreParts(parts, s, Array, n) && Elements(parts) == es
    decreases n, 3, |es|
  {
    if |es| == 1 {
      ElementPart(s, es[0], n);
      var p :| IsPart(p, s, Array, es[0], n);
      assert AreParts(Last(p), s, Array, n) && Elements(Last(p)) == es;
    } else {
      var here, rest :| ElementDenotes(here, es[0], n) && ListDenotes(rest, es[1..], n)
                        && s == here + Letters(",") + rest;
      ElementPart(here, es[0], n);
      ListParts(rest, es[1..], n);
      var p :| IsPart(p, here, Array, es[0], n);
      var others :| AreParts(others, rest, Array, n) && Elements(others) == es[1..];
      PunctuationLetters();
      assert AreParts(More(p, others), s, Array, n) && Elements(More(p, others)) == es;
    }
  }

  lemma {:induction false} ObjectTree(s: Text, fs: map<Text, Json>, n: nat)
    requires Denotes(s, JsonObject(fs), n) && fs != map[]
    ensures exists t :: IsTree(t, s, JsonObject(fs), n)
    decreases n, 0, 1
  {
    var inner, ks :| ObjectDenotes(s, inner, ks, fs, n);
    MembersTree(s, inner, ks, fs, n);
  }

  lemma {:induction false} MembersTree(s: Text, inner: Text, ks: seq<Text>, fs: map<Text, Json>, n: nat)
    requires ObjectDenotes(s, inner, ks, fs, n)
    ensures exists t :: IsTree(t, s, JsonObject(fs), n)
    decreases n, 0, 0
  {
    MembersParts(inner, ks, fs, n - 1);
    var parts :| AreParts(parts, inner, Object, n - 1) && HoldsAll(parts, ks, fs);
    PartsMakeObject(parts, s, inner, ks, fs, n);
  }

  lemma PartsMakeObject(parts: Parts, s: Text, inner: Text, ks: seq<Text>, fs: map<Text, Json>, n: nat)
    requires n >= 1 && AreParts(parts, inner, Object, n - 1) && Lists(ks, fs) && HoldsAll(parts, ks, fs)
    requires s == Bracketed(Object, inner)
    ensures IsTree(Contained(Object, parts), s, JsonObject(fs), n)
  {
    ContainedWritten(Object, parts);
    AllFields(parts, ks, fs);
  }

  /** The parts are named by the keys, in order, and have the values the keys stand for. */
  ghost predicate HoldsAll(parts: Parts, ks: seq<Text>, fs: map<Text, Json>) {
    Names(parts) == ks
    && forall i {:trigger HoldsPart(fs, parts, i)} :: 0 <= i < |ks| ==> HoldsPart(fs, parts, i)
  }

  lemma AllFields(parts: Parts, ks: seq<Text>, fs: map<Text, Json>)
    requires PartsFormed(parts, Object) && Lists(ks, fs) && HoldsAll(parts, ks, fs)
    ensures Fields(parts) == fs
  {
    FieldNames(parts);
    forall k | k in fs ensures k in Fields(parts) && Fields(parts)[k] == fs[k] {
      assert k in KeySet(ks);
      var i :| 0 <= i < |ks| && ks[i] == k;
      NoMemberIsLost(parts, i);
      assert HoldsPart(fs, parts, i);
    }
    assert Fields(parts).Keys == fs.Keys;
  }

  lemma {:induction false} MemberPart(s: Text, k: Text, v: Json, n: nat)
    requires MemberDenotes(s, k, v, n)
    ensures exists p :: IsPart(p, s, Object, v, n) && LabelNames(p.name) == [k]
    decreases n, 2, 0
  {
    var name, value :| NameDenotes(name, k) && ElementDenotes(value, v, n) && s == name + Letters(":") + value;
    var lead, q, gap :| Surrounded(name, lead, q, gap) && Quotes(q, k);
    QuotesIff(q, k);
    var ps :| PiecesFormed(ps) && PrintString(ps) == q && Decoded(ps) == k;
    var before, x, after :| Surrounded(value, before, x, after) && Denotes(x, v, n);
    DenotedTree(x, v, n);
    var t :| IsTree(t, x, v, n);
    var p := Part(lead, Some(Label(ps, gap)), before, t, after);
    SurroundedTree(t, x, after);
    JoinMember(lead, q, gap, before, x, after);
    PunctuationLetters();
    assert IsPart(p, s, Object, v, n);
  }

  lemma {:induction false} MembersParts(s: Text, ks: seq<Text>, fs: map<Text, Json>, n: nat)
    requires MembersDenote(s, ks, fs, n)
    ensures exists parts :: AreParts(parts, s, Object, n) && HoldsAll(parts, ks, fs)
    decreases n, 3, |ks|
  {
    if |ks| == 1 {
      MemberPart(s, ks[0], fs[ks[0]], n);
      var p :| IsPart(p, s, Object, fs[ks[0]], n) && LabelNames(p.name) == [ks[0]];
      assert AreParts(Last(p), s, Object, n) && HoldsAll(Last(p), ks, fs);
    } else {
      var here, rest :| MemberDenotes(here, ks[0], fs[ks[0]], n) && MembersDenote(rest, ks[1..], fs, n)
                        && s == here + Letters(",") + rest;
      MemberPart(here, ks[0], fs[ks[0]], n);
      MembersParts(rest, ks[1..], fs, n);
      var p :| IsPart(p, here, Object, fs[ks[0]], n) && LabelNames(p.name) == [ks[0]];
      var others :| AreParts(others, rest, Object, n) && HoldsAll(others, ks[1..], fs);
      PunctuationLetters();
      assert AreParts(More(p, others), s, Object, n);
      HoldsMore(p, others, ks, fs);
    }
  }

  lemma HoldsMore(p: Part, others: Parts, ks: seq<Text>, fs: map<Text, Json>)
    requires ks != [] && ks[0] in fs && LabelNames(p.name) == [ks[0]] && Value(p.value) == fs[ks[0]]
    requires HoldsAll(others, ks[1..], fs)
    ensures HoldsAll(More(p, others), ks, fs)
  {
    var parts := More(p, others);
    assert Names(parts) == ks;
    forall i | 0 <= i < |ks| ensures HoldsPart(fs, parts, i) {
      if i > 0 { assert HoldsPart(fs, others, i - 1); }
    }
  }

  // ---- the reader ------------------------------------------------------------------------------------

  /**
   The strict reader accepts a text and JSON.parse builds a value from it exactly when the text, between two gaps,
   denotes that value within the nesting bound: words by their letters, numbers by their own digits, strings by their
   units however they are spelled, arrays in order and objects by their distinct names.
   */
  lemma ReadsIffDenotes(source: Text, v: Json)
    ensures (ReadText(source, true).Ok? && Value(ReadText(source, true).value.value) == v)
            <==> ElementDenotes(source, v, MAX_DEPTH)
  {
    if ReadText(source, true).Ok? { ReadDenotes(source); }
    if ElementDenotes(source, v, MAX_DEPTH) { DenotedReads(source, v); }
  }

  lemma ReadDenotes(source: Text)
    requires ReadText(source, true).Ok?
    ensures ElementDenotes(source, Value(ReadText(source, true).value.value), MAX_DEPTH)
  {
    var d := ReadText(source, true).value;
    TextSound(source, true);
    TreeDenotes(d.value, MAX_DEPTH);
    WriteSplits(d.value, [], d.after);
    assert [] + d.after == d.after;
    JoinFrame(d.before, Write(d.value, []), d.after);
    assert Surrounded(source, d.before, Write(d.value, []), d.after);
  }

  lemma DenotedReads(source: Text, v: Json)
    requires ElementDenotes(source, v, MAX_DEPTH)
    ensures ReadText(source, true).Ok? && Value(ReadText(source, true).value.value) == v
  {
    var before, x, after :| Surrounded(source, before, x, after) && Denotes(x, v, MAX_DEPTH);
    DenotedTree(x, v, MAX_DEPTH);
    var t :| IsTree(t, x, v, MAX_DEPTH);
    SurroundedTree(t, x, after);
    assert after + [] == after;
    JoinFrame(before, x, after);
    TextComplete(Document(before, t, after), source, true);
  }

  lemma JoinFrame(before: Text, x: Text, after: Text)
    ensures before + (x + after) == before + x + after
  {
  }

  /** No text denotes two values. */
  lemma DenotesOne(source: Text, v: Json, w: Json)
    requires ElementDenotes(source, v, MAX_DEPTH) && ElementDenotes(source, w, MAX_DEPTH)
    ensures v == w
  {
    ReadsIffDenotes(source, v);
    ReadsIffDenotes(source, w);
  }
}
