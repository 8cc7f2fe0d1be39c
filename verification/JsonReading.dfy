/** The strict reader accepts exactly the texts of the grammar that keep its two rules, and reads each back whole. */
module JsonReading {
  import opened Wrappers
  import opened JsonTokens
  import opened JsonGrammar

  // ---- soundness ---------------------------------------------------------------------------------------

  lemma Headed(s: Text, c: Unit)
    requires Starts(s, c)
    ensures s == [c] + s[1..]
  {
  }

  lemma LabelSound(s: Text, kind: Kind, seen: set<Text>, strict: bool)
    requires ReadLabel(s, kind, seen, strict).Ok?
    ensures var t := ReadLabel(s, kind, seen, strict).value;
            s == WriteLabel(t.token, t.rest) && LabelFormed(t.token) && t.token.Some? == kind.Object?
  {
    if kind.Object? {
      StringSound(s);
      var rest := ScanString(s).value.rest;
      assert rest == Gap(rest) + Skip(rest);
      Headed(Skip(rest), COLON);
    }
  }

  lemma LabelAvoids(s: Text, kind: Kind, seen: set<Text>)
    requires ReadLabel(s, kind, seen, true).Ok?
    ensures Avoids(LabelNames(ReadLabel(s, kind, seen, true).value.token), seen)
  {
  }

  lemma NoGapAfterSkip(s: Text)
    ensures s == Gap(s) + Skip(s) && Gap(Skip(s)) == [] && Skip(Skip(s)) == Skip(s)
  {
    GapOf([], Skip(s));
    assert [] + Skip(s) == Skip(s);
  }

  lemma {:induction false} ReadSound(s: Text, depth: nat, strict: bool)
    requires Read(s, depth, strict).Ok?
    ensures var t := Read(s, depth, strict).value;
            && s == t.token.before + Write(t.token.value, t.rest)
            && IsGap(t.token.before) && Formed(t.token.value)
            && (strict ==> Within(t.token.value, depth))
    decreases |s|, 2
  {
    ValueSound(Skip(s), depth, strict);
  }

  lemma {:induction false} ValueSound(s: Text, depth: nat, strict: bool)
    requires ReadValue(s, depth, strict).Ok? && (strict ==> depth <= MAX_DEPTH)
    ensures var t := ReadValue(s, depth, strict).value;
            s == Write(t.token, t.rest) && Formed(t.token) && (strict ==> Within(t.token, depth))
    decreases |s|, 1
  {
    if Starts(s, QUOTE) {
      StringSound(s);
    } else if Starts(s, Opening(Object)) || Starts(s, Opening(Array)) {
      var kind := if s[0] == Opening(Object) then Object else Array;
      Headed(s, Opening(kind));
      BracketOpens(s, kind, depth, strict);
      NestedSound(s[1..], kind, depth, strict);
    } else {
      ScalarSound(s);
    }
  }

  lemma {:induction false} NestedSound(s: Text, kind: Kind, depth: nat, strict: bool)
    requires ReadNested(s, kind, depth, strict).Ok? && (strict ==> depth <= MAX_DEPTH)
    ensures var t := ReadNested(s, kind, depth, strict).value;
            [Opening(kind)] + s == Write(t.token, t.rest) && Formed(t.token) && (strict ==> Within(t.token, depth))
    decreases |s|, 6
  {
    var t := Skip(s);
    NoGapAfterSkip(s);
    if Starts(t, Closing(kind)) {
      Headed(t, Closing(kind));
      EmptySound(s, kind, t[1..], depth, strict);
    } else {
      var x := ReadParts(t, kind, depth, {}, strict).value;
      PartsSound(t, kind, depth, {}, strict);
      ContainerSound(s, kind, x.token, x.rest, depth, strict);
    }
  }

  lemma EmptySound(s: Text, kind: Kind, rest: Text, depth: nat, strict: bool)
    requires s == Gap(s) + ([Closing(kind)] + rest) && (strict ==> depth <= MAX_DEPTH)
    ensures var t := Empty(kind, Gap(s));
            [Opening(kind)] + s == Write(t, rest) && Formed(t) && (strict ==> Within(t, depth))
  {
  }

  lemma ContainerSound(s: Text, kind: Kind, parts: Parts, rest: Text, depth: nat, strict: bool)
    requires s == Gap(s) + WriteParts(parts, kind, rest)
    requires PartsFormed(parts, kind) && parts.part.lead == [] && (strict ==> PartsWithin(parts, depth + 1, {}))
    ensures var t := Container(kind, Gap(s), parts);
            [Opening(kind)] + s == Write(t, rest) && Formed(t) && (strict ==> Within(t, depth))
  {
  }

  lemma {:induction false} PartSound(s: Text, kind: Kind, depth: nat, seen: set<Text>, strict: bool)
    requires ReadPart(s, kind, depth, seen, strict).Ok?
    ensures var t := ReadPart(s, kind, depth, seen, strict).value;
            && s == WritePart(t.token, t.rest) && PartFormed(t.token, kind)
            && (strict ==> Within(t.token.value, depth + 1) && Avoids(LabelNames(t.token.name), seen))
    decreases |s|, 3
  {
    var l := ReadLabel(Skip(s), kind, seen, strict).value;
    LabelSound(Skip(s), kind, seen, strict);
    if strict { LabelAvoids(Skip(s), kind, seen); }
    ReadSound(l.rest, depth + 1, strict);
  }

  lemma {:induction false} PartsSound(s: Text, kind: Kind, depth: nat, seen: set<Text>, strict: bool)
    requires ReadParts(s, kind, depth, seen, strict).Ok?
    ensures var t := ReadParts(s, kind, depth, seen, strict).value;
            && s == WriteParts(t.token, kind, t.rest) && PartsFormed(t.token, kind) && t.token.part.lead == Gap(s)
            && (strict ==> PartsWithin(t.token, depth + 1, seen))
    decreases |s|, 4
  {
    var p := ReadPart(s, kind, depth, seen, strict).value;
    PartSound(s, kind, depth, seen, strict);
    if Starts(p.rest, Closing(kind)) {
      Headed(p.rest, Closing(kind));
    } else {
      Headed(p.rest, COMMA);
      PartsSound(p.rest[1..], kind, depth, Seen(seen, p.token.name), strict);
      if strict { MoreWithin(p.token, ReadParts(s, kind, depth, seen, strict).value.token.others, depth + 1, seen); }
    }
  }

  lemma MoreWithin(p: Part, others: Parts, depth: nat, seen: set<Text>)
    ensures PartsWithin(More(p, others), depth, seen)
            <==> Within(p.value, depth) && Avoids(LabelNames(p.name), seen)
                 && PartsWithin(others, depth, Seen(seen, p.name))
  {
    AvoidsJoined(p.name, Names(others), seen);
  }

  /** Checking each name against those before it is checking that all of them are distinct. */
  lemma AvoidsJoined(l: Option<Label>, names: seq<Text>, seen: set<Text>)
    ensures Avoids(LabelNames(l) + names, seen) <==> Avoids(LabelNames(l), seen) && Avoids(names, Seen(seen, l))
  {
    if l.Some? {
      var all, name := LabelNames(l) + names, Decoded(l.value.pieces);
      assert all[0] == name && forall i :: 0 <= i < |names| ==> names[i] == all[i + 1];
    } else {
      assert LabelNames(l) + names == names;
    }
  }

  // ---- completeness ------------------------------------------------------------------------------------

  lemma ScalarStarts(x: Scalar, rest: Text)
    requires ScalarFormed(x)
    ensures var s := PrintScalar(x) + rest; s != [] && (s[0] == MINUS || IsDigit(s[0]) || 0x66 <= s[0] <= 0x74)
  {
    if x.NumberScalar? { NumberFirst(x.number, rest); }
    else { assert (PrintWord(x.word) + rest)[0] == PrintWord(x.word)[0]; }
  }

  /** The first unit of a value tells its kind, and is neither whitespace nor a closing bracket. */
  lemma ValueStarts(t: Tree, rest: Text)
    requires Formed(t)
    ensures var s := Write(t, rest);
            && s != [] && !IsSpace(s[0]) && s[0] != Closing(Array) && s[0] != Closing(Object)
            && (s[0] == QUOTE <==> t.String?)
            && (s[0] == Opening(Object) <==> (t.Empty? || t.Container?) && t.kind.Object?)
            && (s[0] == Opening(Array) <==> (t.Empty? || t.Container?) && t.kind.Array?)
  {
    if t.Leaf? { ScalarStarts(t.scalar, rest); }
  }

  lemma LabelComplete(l: Option<Label>, rest: Text, kind: Kind, seen: set<Text>, strict: bool)
    requires LabelFormed(l) && l.Some? == kind.Object? && (strict ==> Avoids(LabelNames(l), seen))
    ensures ReadLabel(WriteLabel(l, rest), kind, seen, strict) == Ok(Token(l, rest))
  {
    if l.Some? {
      StringComplete(l.value.pieces, l.value.gap + ([COLON] + rest));
      GapOf(l.value.gap, [COLON] + rest);
      assert strict ==> LabelNames(l)[0] !in seen;
    }
  }

  lemma LeadComplete(p: Part, inner: Text, kind: Kind)
    requires PartFormed(p, kind) && (p.name.None? ==> !StartsWith(inner, Space))
    ensures var s := WriteLabel(p.name, inner);
            !StartsWith(s, Space) && Skip(p.lead + s) == s && Gap(p.lead + s) == p.lead
  {
    var s := WriteLabel(p.name, inner);
    assert p.name.Some? ==> s[0] == QUOTE;
    GapOf(p.lead, s);
  }

  lemma {:induction false} ReadComplete(gap: Text, t: Tree, rest: Text, depth: nat, strict: bool)
    requires IsGap(gap) && Formed(t) && Boundary(rest) && (strict ==> Within(t, depth))
    ensures Read(gap + Write(t, rest), depth, strict) == Ok(Token(Framed(gap, t), rest))
    decreases t, 2
  {
    ValueStarts(t, rest);
    GapOf(gap, Write(t, rest));
    ValueComplete(t, rest, depth, strict);
  }

  lemma {:induction false} ValueComplete(t: Tree, rest: Text, depth: nat, strict: bool)
    requires Formed(t) && Boundary(rest) && (strict ==> Within(t, depth))
    ensures ReadValue(Write(t, rest), depth, strict) == Ok(Token(t, rest))
    decreases t, 1
  {
    match t
    case Leaf(x) => LeafComplete(x, rest, depth, strict);
    case String(ps) => StringValueComplete(ps, rest, depth, strict);
    case Empty(kind, inner) =>
      EmptyComplete(kind, inner, rest, depth, strict);
      BracketOpens(Write(t, rest), kind, depth, strict);
    case Container(kind, inner, parts) =>
      PartsComplete(parts, kind, rest, depth, {}, strict);
      ContainerComplete(inner, parts, kind, rest, depth, strict);
      BracketOpens(Write(t, rest), kind, depth, strict);
  }

  lemma BracketOpens(s: Text, kind: Kind, depth: nat, strict: bool)
    requires Starts(s, Opening(kind))
    ensures ReadValue(s, depth, strict) == ReadNested(s[1..], kind, depth, strict)
  {
  }

  lemma StringValueComplete(ps: seq<Piece>, rest: Text, depth: nat, strict: bool)
    requires PiecesFormed(ps)
    ensures ReadValue(PrintString(ps) + rest, depth, strict) == Ok(Token(String(ps), rest))
  {
    StringComplete(ps, rest);
  }

  lemma LeafComplete(x: Scalar, rest: Text, depth: nat, strict: bool)
    requires ScalarFormed(x) && Boundary(rest)
    ensures ReadValue(PrintScalar(x) + rest, depth, strict) == Ok(Token(Leaf(x), rest))
  {
    ScalarComplete(x, rest);
    ValueStarts(Leaf(x), rest);
  }

  lemma EmptyComplete(kind: Kind, gap: Text, rest: Text, depth: nat, strict: bool)
    requires IsGap(gap)
    ensures var s := Write(Empty(kind, gap), rest);
            Starts(s, Opening(kind)) && ReadNested(s[1..], kind, depth, strict) == Ok(Token(Empty(kind, gap), rest))
  {
    var tail := [Closing(kind)] + rest;
    assert Write(Empty(kind, gap), rest)[1..] == gap + tail;
    GapOf(gap, tail);
  }

  /** After its opening bracket and gap a container with parts never looks empty. */
  lemma PartsStart(parts: Parts, kind: Kind, rest: Text)
    requires PartsFormed(parts, kind) && parts.part.lead == []
    ensures var s := WriteParts(parts, kind, rest); !StartsWith(s, Space) && !Starts(s, Closing(kind))
  {
    var tail := if parts.Last? then [Closing(kind)] + rest else [COMMA] + WriteParts(parts.others, kind, rest);
    var s := WritePart(parts.part, tail);
    PartStarts(parts.part, kind, tail);
    assert s == Gap(s) + Skip(s);
  }

  lemma ContainerComplete(gap: Text, parts: Parts, kind: Kind, rest: Text, depth: nat, strict: bool)
    requires IsGap(gap) && PartsFormed(parts, kind) && parts.part.lead == []
    requires ReadParts(WriteParts(parts, kind, rest), kind, depth, {}, strict) == Ok(Token(parts, rest))
    ensures var s := Write(Container(kind, gap, parts), rest);
            && Starts(s, Opening(kind))
            && ReadNested(s[1..], kind, depth, strict) == Ok(Token(Container(kind, gap, parts), rest))
  {
    assert Write(Container(kind, gap, parts), rest)[1..] == gap + WriteParts(parts, kind, rest);
    PartsStart(parts, kind, rest);
    GapOf(gap, WriteParts(parts, kind, rest));
  }

  lemma PartStarts(p: Part, kind: Kind, tail: Text)
    requires PartFormed(p, kind)
    ensures !Starts(Skip(WritePart(p, tail)), Closing(kind)) && !StartsWith(Skip(WritePart(p, tail)), Space)
    ensures Skip(WritePart(p, tail)) == WriteLabel(p.name, p.before + Write(p.value, p.after + tail))
    ensures Gap(WritePart(p, tail)) == p.lead
  {
    var inner := p.before + Write(p.value, p.after + tail);
    ValueStarts(p.value, p.after + tail);
    assert p.name.None? ==> inner == Write(p.value, p.after + tail);
    LeadComplete(p, inner, kind);
  }

  lemma {:induction false} PartComplete(p: Part, kind: Kind, rest: Text, depth: nat, seen: set<Text>, strict: bool)
    requires PartFormed(p, kind) && (Starts(rest, COMMA) || Starts(rest, Closing(kind)))
    requires strict ==> Within(p.value, depth + 1) && Avoids(LabelNames(p.name), seen)
    ensures ReadPart(WritePart(p, rest), kind, depth, seen, strict) == Ok(Token(p, rest))
    decreases p, 3
  {
    var inner := p.before + Write(p.value, p.after + rest);
    PartStarts(p, kind, rest);
    LabelComplete(p.name, inner, kind, seen, strict);
    AfterComplete(p.after, kind, rest);
    ReadComplete(p.before, p.value, p.after + rest, depth + 1, strict);
    PartAssembled(WritePart(p, rest), inner, p.after + rest, p, kind, depth, seen, strict);
  }

  lemma PartAssembled(s: Text, inner: Text, tail: Text, p: Part, kind: Kind, depth: nat, seen: set<Text>, strict: bool)
    requires Gap(s) == p.lead && ReadLabel(Skip(s), kind, seen, strict) == Ok(Token(p.name, inner))
    requires Read(inner, depth + 1, strict) == Ok(Token(Framed(p.before, p.value), tail)) && Gap(tail) == p.after
    ensures ReadPart(s, kind, depth, seen, strict) == Ok(Token(p, Skip(tail)))
  {
  }

  lemma AfterComplete(after: Text, kind: Kind, rest: Text)
    requires IsGap(after) && (Starts(rest, COMMA) || Starts(rest, Closing(kind)))
    ensures Boundary(after + rest) && Gap(after + rest) == after && Skip(after + rest) == rest
  {
    AfterIsBoundary(after, rest);
    GapOf(after, rest);
  }

  lemma AfterIsBoundary(after: Text, rest: Text)
    requires IsGap(after) && Boundary(rest)
    ensures Boundary(after + rest)
  {
    assert after == [] ==> after + rest == rest;
    assert after != [] ==> (after + rest)[0] == after[0] && Is(after[0], Space);
  }

  lemma {:induction false} PartsComplete(
    parts: Parts, kind: Kind, rest: Text, depth: nat, seen: set<Text>, strict: bool)
    requires PartsFormed(parts, kind) && (strict ==> PartsWithin(parts, depth + 1, seen))
    ensures ReadParts(WriteParts(parts, kind, rest), kind, depth, seen, strict) == Ok(Token(parts, rest))
    decreases parts, 4
  {
    match parts
    case Last(p) => PartComplete(p, kind, [Closing(kind)] + rest, depth, seen, strict);
    case More(p, others) =>
      if strict { MoreWithin(p, others, depth + 1, seen); }
      PartComplete(p, kind, [COMMA] + WriteParts(others, kind, rest), depth, seen, strict);
      PartsComplete(others, kind, rest, depth, Seen(seen, p.name), strict);
  }

  // ---- whole texts -------------------------------------------------------------------------------------

  lemma TextSound(source: Text, strict: bool)
    requires ReadText(source, strict).Ok?
    ensures var d := ReadText(source, strict).value; IsText(d, source) && (strict ==> Within(d.value, 0))
  {
    ReadSound(source, 0, strict);
    var rest := Read(source, 0, strict).value.rest;
    assert rest == Gap(rest) + Skip(rest);
  }

  /** Whatever whitespace and escapes a text uses, reading it gives its tree back. */
  lemma TextComplete(d: Document, source: Text, strict: bool)
    requires IsText(d, source) && (strict ==> Within(d.value, 0))
    ensures ReadText(source, strict) == Ok(d)
  {
    AfterIsBoundary(d.after, []);
    assert d.after + [] == d.after;
    ReadComplete(d.before, d.value, d.after, 0, strict);
    GapOf(d.after, []);
  }

  /** A text has one tree: the grammar is unambiguous. */
  lemma Unambiguous(d: Document, e: Document, source: Text)
    requires IsText(d, source) && IsText(e, source)
    ensures d == e
  {
    TextComplete(d, source, false);
    TextComplete(e, source, false);
  }

  /** A text of the grammar is accepted exactly when its names are distinct and no value lies deeper than 24. */
  lemma AcceptedIffWithin(d: Document, source: Text)
    requires IsText(d, source)
    ensures ReadText(source, true).Ok? <==> Distinct(d.value) && Height(d.value) <= MAX_DEPTH
  {
    if ReadText(source, true).Ok? {
      TextSound(source, true);
      Unambiguous(d, ReadText(source, true).value, source);
    }
    if Within(d.value, 0) { TextComplete(d, source, true); }
  }

  /** The reader accepts a text iff the grammar derives it within the two rules. */
  lemma AcceptedIffDerivable(source: Text)
    ensures ReadText(source, true).Ok? <==> exists d :: IsText(d, source) && Within(d.value, 0)
  {
    if ReadText(source, true).Ok? { TextSound(source, true); }
    if d :| IsText(d, source) && Within(d.value, 0) { TextComplete(d, source, true); }
  }

  /** JSON.parse accepts exactly the grammar, and never fails or disagrees after the strict reader accepts. */
  lemma ClosingParseNeverFails(source: Text)
    ensures ReadText(source, false).Ok? <==> exists d :: IsText(d, source)
    ensures ReadText(source, true).Ok? ==> ReadText(source, false) == ReadText(source, true)
  {
    if ReadText(source, false).Ok? { TextSound(source, false); }
    if d :| IsText(d, source) { TextComplete(d, source, false); }
    if ReadText(source, true).Ok? {
      TextSound(source, true);
      TextComplete(ReadText(source, true).value, source, false);
    }
  }
}
