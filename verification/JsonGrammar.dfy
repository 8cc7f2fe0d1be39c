/**
 The grammar of RFC 8259 as concrete syntax trees that keep every whitespace gap, and the strict reader that
 recognises it, with the reader's two extra rules: distinct member names and a bounded nesting depth.
 */
module JsonGrammar {
  import opened Wrappers
  import opened JsonTokens

  /** A member's name, and the whitespace between it and its colon. */
  datatype Label = Label(pieces: seq<Piece>, gap: Text)

  datatype Part = Part(lead: Text, name: Option<Label>, before: Text, value: Tree, after: Text)

  datatype Parts = Last(part: Part) | More(part: Part, others: Parts)

  datatype Kind = Array | Object

  datatype Tree =
    | Leaf(scalar: Scalar)
    | String(pieces: seq<Piece>)
    | Empty(kind: Kind, gap: Text)
    | Container(kind: Kind, gap: Text, parts: Parts)

  function Opening(kind: Kind): Unit { if kind.Object? then 0x7B else 0x5B }

  function Closing(kind: Kind): Unit { if kind.Object? then 0x7D else 0x5D }

  // ---- the units of a tree, written in front of `rest` -------------------------------------------------

  function Write(t: Tree, rest: Text): Text {
    match t
    case Leaf(x) => PrintScalar(x) + rest
    case String(ps) => PrintString(ps) + rest
    case Empty(kind, gap) => [Opening(kind)] + (gap + ([Closing(kind)] + rest))
    case Container(kind, gap, parts) => [Opening(kind)] + (gap + WriteParts(parts, kind, rest))
  }

  function WriteParts(parts: Parts, kind: Kind, rest: Text): Text {
    match parts
    case Last(p) => WritePart(p, [Closing(kind)] + rest)
    case More(p, others) => WritePart(p, [COMMA] + WriteParts(others, kind, rest))
  }

  function WritePart(p: Part, rest: Text): Text {
    p.lead + WriteLabel(p.name, p.before + Write(p.value, p.after + rest))
  }

  function WriteLabel(l: Option<Label>, rest: Text): Text {
    if l.Some? then PrintString(l.value.pieces) + (l.value.gap + ([COLON] + rest)) else rest
  }

  predicate Formed(t: Tree) {
    match t
    case Leaf(x) => ScalarFormed(x)
    case String(ps) => PiecesFormed(ps)
    case Empty(_, gap) => IsGap(gap)
    case Container(kind, gap, parts) => IsGap(gap) && PartsFormed(parts, kind) && parts.part.lead == []
  }

  predicate PartsFormed(parts: Parts, kind: Kind) {
    match parts
    case Last(p) => PartFormed(p, kind)
    case More(p, others) => PartFormed(p, kind) && PartsFormed(others, kind)
  }

  /**
   Members are labelled and elements are not; an element keeps all its leading whitespace in `lead`, except
   that the whitespace before a container's first part is the container's `gap`.
   */
  predicate PartFormed(p: Part, kind: Kind) {
    && FrameFormed(p) && Formed(p.value) && LabelFormed(p.name)
    && p.name.Some? == kind.Object? && (p.name.None? ==> p.before == [])
  }

  predicate FrameFormed(p: Part) { IsGap(p.lead) && IsGap(p.before) && IsGap(p.after) }

  predicate LabelFormed(l: Option<Label>) { l.Some? ==> PiecesFormed(l.value.pieces) && IsGap(l.value.gap) }

  // ---- the reader's extra rules ------------------------------------------------------------------------

  const MAX_DEPTH := 24

  /** How much deeper than the value itself the deepest value inside it lies. */
  function Height(t: Tree): nat { if t.Container? then 1 + PartsHeight(t.parts) else 0 }

  function PartsHeight(parts: Parts): nat {
    match parts
    case Last(p) => Height(p.value)
    case More(p, others) => Max(Height(p.value), PartsHeight(others))
  }

  function Max(a: nat, b: nat): nat { if a < b then b else a }

  function LabelNames(l: Option<Label>): seq<Text> { if l.Some? then [Decoded(l.value.pieces)] else [] }

  /** The decoded names of the members, in order. */
  function Names(parts: Parts): seq<Text> {
    match parts
    case Last(p) => LabelNames(p.name)
    case More(p, others) => LabelNames(p.name) + Names(others)
  }

  predicate NoDuplicates(names: seq<Text>) { forall i, j :: 0 <= i < j < |names| ==> names[i] != names[j] }

  /** In every object of the tree the decoded names are distinct. */
  predicate Distinct(t: Tree) { t.Container? ==> NoDuplicates(Names(t.parts)) && PartsDistinct(t.parts) }

  predicate PartsDistinct(parts: Parts) {
    match parts
    case Last(p) => Distinct(p.value)
    case More(p, others) => Distinct(p.value) && PartsDistinct(others)
  }

  predicate Within(t: Tree, depth: nat) { Distinct(t) && depth + Height(t) <= MAX_DEPTH }

  predicate Avoids(names: seq<Text>, seen: set<Text>) {
    NoDuplicates(names) && forall i :: 0 <= i < |names| ==> names[i] !in seen
  }

  predicate PartsWithin(parts: Parts, depth: nat, seen: set<Text>) {
    PartsDistinct(parts) && depth + PartsHeight(parts) <= MAX_DEPTH && Avoids(Names(parts), seen)
  }

  // ---- the reader ----------------------------------------------------------------------------------------

  datatype Framed = Framed(before: Text, value: Tree)

  /** The optional member name in front of a value; the strict reader refuses one it has seen. */
  function ReadLabel(s: Text, kind: Kind, seen: set<Text>, strict: bool)
    : (r: Result<Token<Option<Label>>, JsonError>)
    ensures r.Ok? ==> |r.value.rest| <= |s|
  {
    if kind.Array? then Ok(Token(None, s))
    else if !Starts(s, QUOTE) then Err(ExpectedMember)
    else match ScanString(s)
      case Err(e) => Err(e)
      case Ok(name) =>
        if strict && Decoded(name.token) in seen then Err(DuplicateMember)
        else
          var rest := Skip(name.rest);
          if !Starts(rest, COLON) then Err(ExpectedColon)
          else Ok(Token(Some(Label(name.token, Gap(name.rest))), rest[1..]))
  }

  function Seen(seen: set<Text>, l: Option<Label>): set<Text> {
    if l.Some? then seen + {Decoded(l.value.pieces)} else seen
  }

  /** With `strict` off this is JSON.parse; with it on, the reader that runs before JSON.parse. */
  function Read(s: Text, depth: nat, strict: bool): (r: Result<Token<Framed>, JsonError>)
    ensures r.Ok? ==> |r.value.rest| < |s|
    decreases |s|, 2
  {
    if strict && depth > MAX_DEPTH then Err(NestingLimit)
    else match ReadValue(Skip(s), depth, strict)
      case Err(e) => Err(e)
      case Ok(x) => Ok(Token(Framed(Gap(s), x.token), x.rest))
  }

  function ReadValue(s: Text, depth: nat, strict: bool): (r: Result<Token<Tree>, JsonError>)
    ensures r.Ok? ==> |r.value.rest| < |s|
    decreases |s|, 1
  {
    if Starts(s, QUOTE) then
      match ScanString(s)
      case Err(e) => Err(e)
      case Ok(x) => Ok(Token(String(x.token), x.rest))
    else if Starts(s, Opening(Object)) || Starts(s, Opening(Array)) then
      ReadNested(s[1..], if s[0] == Opening(Object) then Object else Array, depth, strict)
    else
      match ScanScalar(s)
      case None => Err(InvalidValue)
      case Some(x) => ScalarShrinks(s); Ok(Token(Leaf(x.token), x.rest))
  }

  /** What follows an opening bracket. */
  function ReadNested(s: Text, kind: Kind, depth: nat, strict: bool): (r: Result<Token<Tree>, JsonError>)
    ensures r.Ok? ==> |r.value.rest| < |s|
    decreases |s|, 6
  {
    var gap, t := Gap(s), Skip(s);
    if Starts(t, Closing(kind)) then Ok(Token(Empty(kind, gap), t[1..]))
    else
      match ReadParts(t, kind, depth, {}, strict)
      case Err(e) => Err(e)
      case Ok(x) => Ok(Token(Container(kind, gap, x.token), x.rest))
  }

  lemma ScalarShrinks(s: Text)
    requires ScanScalar(s).Some?
    ensures |ScanScalar(s).value.rest| < |s|
  {
    ScalarSound(s);
  }

  /** A member or an element from its first unit on. */
  function ReadBody(s: Text, kind: Kind, depth: nat, seen: set<Text>, strict: bool)
    : (r: Result<Token<Part>, JsonError>)
    ensures r.Ok? ==> |r.value.rest| < |s|
    decreases |s|, 3
  {
    match ReadLabel(s, kind, seen, strict)
    case Err(e) => Err(e)
    case Ok(l) =>
      match Read(l.rest, depth + 1, strict)
      case Err(e) => Err(e)
      case Ok(x) => Ok(Token(Part([], l.token, x.token.before, x.token.value, Gap(x.rest)), Skip(x.rest)))
  }

  function ReadPart(s: Text, kind: Kind, depth: nat, seen: set<Text>, strict: bool)
    : (r: Result<Token<Part>, JsonError>)
    ensures r.Ok? ==> |r.value.rest| < |s|
    decreases |s|, 4
  {
    match ReadBody(Skip(s), kind, depth, seen, strict)
    case Err(e) => Err(e)
    case Ok(p) => Ok(Token(p.token.(lead := Gap(s)), p.rest))
  }

  function ReadParts(s: Text, kind: Kind, depth: nat, seen: set<Text>, strict: bool)
    : (r: Result<Token<Parts>, JsonError>)
    ensures r.Ok? ==> |r.value.rest| < |s|
    decreases |s|, 5
  {
    match ReadPart(s, kind, depth, seen, strict)
    case Err(e) => Err(e)
    case Ok(p) =>
      if Starts(p.rest, Closing(kind)) then Ok(Token(Last(p.token), p.rest[1..]))
      else if !Starts(p.rest, COMMA) then Err(ExpectedDelimiter)
      else
        match ReadParts(p.rest[1..], kind, depth, Seen(seen, p.token.name), strict)
        case Err(e) => Err(e)
        case Ok(x) => Ok(Token(More(p.token, x.token), x.rest))
  }

  /** A whole text: one value between two gaps and nothing after. */
  datatype Document = Document(before: Text, value: Tree, after: Text)

  predicate IsText(d: Document, source: Text) {
    IsGap(d.before) && Formed(d.value) && IsGap(d.after) && source == d.before + Write(d.value, d.after)
  }

  function ReadText(source: Text, strict: bool): Result<Document, JsonError> {
    match Read(source, 0, strict)
    case Err(e) => Err(e)
    case Ok(x) =>
      if Skip(x.rest) != [] then Err(TrailingInput)
      else Ok(Document(x.token.before, x.token.value, x.rest))
  }
}
