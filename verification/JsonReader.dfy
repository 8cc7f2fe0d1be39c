/** The reader as it runs: one cursor over the source, moved by nested loops, against the reading functions. */
module JsonReader {
  import opened Wrappers
  import opened JsonTokens
  import opened JsonGrammar
  import opened JsonReading
  import opened JsonValues
  import opened JsonMeaning
  import opened JsonRendering

  datatype Outcome = Passed | Failed(error: JsonError)

  /** A result with the token forgotten: how far a reading got, or its error. */
  function End<T>(r: Result<Token<T>, JsonError>): Result<Text, JsonError> {
    match r
    case Ok(t) => Ok(t.rest)
    case Err(e) => Err(e)
  }

  lemma Advances(source: Text, at: nat)
    requires at < |source|
    ensures source[at..] != [] && source[at..][0] == source[at] && source[at..][1..] == source[at + 1..]
  {
  }

  /** Where a cursor that passes over whitespace stops. */
  function SpaceEnd(source: Text, at: nat): (end: nat)
    requires at <= |source|
    ensures at <= end <= |source|
    decreases |source| - at
  {
    if at < |source| && IsSpace(source[at]) then SpaceEnd(source, at + 1) else at
  }

  lemma {:induction false} SpaceEndIsSkip(source: Text, at: nat)
    requires at <= |source|
    ensures source[SpaceEnd(source, at)..] == Skip(source[at..])
    decreases |source| - at
  {
    if at < |source| && IsSpace(source[at]) {
      SpaceEndIsSkip(source, at + 1);
      assert source[at..][1..] == source[at + 1..];
    }
  }

  /** Where a cursor inside a literal stands once it has passed the closing quote. */
  function QuoteEnd(source: Text, at: nat): Option<nat>
    decreases |source| - at
  {
    if at >= |source| then None
    else if source[at] == QUOTE then Some(at + 1)
    else QuoteEnd(source, if source[at] == BACKSLASH then at + 2 else at + 1)
  }

  lemma {:induction false} QuoteEndIsClose(source: Text, at: nat)
    requires at <= |source|
    ensures QuoteEnd(source, at) == Plus(Close(source[at..]), at + 1)
    decreases |source| - at
  {
    if at < |source| {
      CloseAdvances(source, at);
      if source[at] != QUOTE && source[at] != BACKSLASH { QuoteEndIsClose(source, at + 1); }
      if source[at] == BACKSLASH && at + 1 < |source| { QuoteEndIsClose(source, at + 2); }
    }
  }

  /** The literal that starts at `start`, read by cursor. */
  function LiteralAt(source: Text, start: nat): Result<Token<seq<Piece>>, JsonError>
    requires start < |source|
  {
    match QuoteEnd(source, start + 1)
    case None => Err(UnterminatedString)
    case Some(end) =>
      QuoteEndInside(source, start + 1);
      Literal(source[start + 1..end - 1], source[end..])
  }

  lemma {:induction false} QuoteEndInside(source: Text, at: nat)
    requires QuoteEnd(source, at).Some?
    ensures at < QuoteEnd(source, at).value <= |source|
    decreases |source| - at
  {
    if source[at] != QUOTE { QuoteEndInside(source, if source[at] == BACKSLASH then at + 2 else at + 1); }
  }

  lemma Slices(source: Text, start: nat, n: nat)
    requires start + n + 2 <= |source|
    ensures var s := source[start..];
            s[1..n + 1] == source[start + 1..start + 1 + n] && s[n + 2..] == source[start + n + 2..]
  {
  }

  lemma LiteralIsScanned(source: Text, start: nat)
    requires start < |source| && source[start] == QUOTE
    ensures LiteralAt(source, start) == ScanString(source[start..])
  {
    var s := source[start..];
    QuoteEndIsClose(source, start + 1);
    Advances(source, start);
    if Close(s[1..]).Some? { Slices(source, start, Close(s[1..]).value); }
  }

  // ---- readings from a cursor, and the unfoldings the methods follow --------------------------------------

  function ValueEnd(source: Text, at: nat, depth: nat): Result<Text, JsonError>
    requires at <= |source|
  {
    End(Read(source[at..], depth, true))
  }

  function PartsEnd(source: Text, at: nat, kind: Kind, depth: nat, names: set<Text>): Result<Text, JsonError>
    requires at <= |source|
  {
    End(ReadParts(source[at..], kind, depth, names, true))
  }

  function NestedEnd(s: Text, kind: Kind, depth: nat): Result<Text, JsonError> {
    if Starts(s, Closing(kind)) then Ok(s[1..]) else End(ReadParts(s, kind, depth, {}, true))
  }

  lemma BareValueUnfolds(t: Text, depth: nat)
    ensures End(ReadValue(t, depth, true)) ==
            if Starts(t, QUOTE) then End(ScanString(t))
            else if Starts(t, Opening(Object)) then NestedEnd(Skip(t[1..]), Object, depth)
            else if Starts(t, Opening(Array)) then NestedEnd(Skip(t[1..]), Array, depth)
            else if ScanScalar(t).Some? then Ok(ScanScalar(t).value.rest)
            else Err(InvalidValue)
  {
  }

  lemma ValueUnfolds(source: Text, at: nat, depth: nat)
    requires at <= |source| && depth <= MAX_DEPTH
    ensures ValueEnd(source, at, depth) == End(ReadValue(Skip(source[at..]), depth, true))
  {
  }

  function LabelEnd(s: Text, names: set<Text>): Result<Token<Text>, JsonError> {
    match ReadLabel(s, Object, names, true)
    case Err(e) => Err(e)
    case Ok(t) => Ok(Token(Decoded(t.token.value.pieces), t.rest))
  }

  lemma LabelUnfolds(s: Text, names: set<Text>)
    requires Starts(s, QUOTE)
    ensures var name := ScanString(s);
            LabelEnd(s, names) ==
            if name.Err? then Err(name.error)
            else if Decoded(name.value.token) in names then Err(DuplicateMember)
            else if Starts(Skip(name.value.rest), COLON) then
              Ok(Token(Decoded(name.value.token), Skip(name.value.rest)[1..]))
            else Err(ExpectedColon)
  {
  }

  function PartEnd(source: Text, at: nat, kind: Kind, depth: nat, names: set<Text>): Result<Token<set<Text>>, JsonError>
    requires at <= |source|
  {
    match ReadPart(source[at..], kind, depth, names, true)
    case Err(e) => Err(e)
    case Ok(p) => Ok(Token(Seen(names, p.token.name), p.rest))
  }

  lemma PartsUnfold(source: Text, at: nat, end: nat, kind: Kind, depth: nat, names: set<Text>, seen: set<Text>)
    requires at <= |source| && end <= |source|
    requires PartEnd(source, at, kind, depth, names) == Ok(Token(seen, source[end..]))
    ensures PartsEnd(source, at, kind, depth, names) ==
            if end == |source| then Err(ExpectedDelimiter)
            else if source[end] == Closing(kind) then Ok(source[end + 1..])
            else if source[end] != COMMA then Err(ExpectedDelimiter)
            else PartsEnd(source, end + 1, kind, depth, seen)
  {
    assert end < |source| ==> source[end..][1..] == source[end + 1..];
  }

  lemma PartsFail(source: Text, at: nat, kind: Kind, depth: nat, names: set<Text>)
    requires at <= |source| && PartEnd(source, at, kind, depth, names).Err?
    ensures PartsEnd(source, at, kind, depth, names) == Err(PartEnd(source, at, kind, depth, names).error)
  {
  }

  function BodyEnd(s: Text, kind: Kind, depth: nat, names: set<Text>): Result<Token<set<Text>>, JsonError> {
    match ReadBody(s, kind, depth, names, true)
    case Err(e) => Err(e)
    case Ok(p) => Ok(Token(Seen(names, p.token.name), p.rest))
  }

  lemma PartUnfolds(source: Text, at: nat, kind: Kind, depth: nat, names: set<Text>)
    requires at <= |source|
    ensures PartEnd(source, at, kind, depth, names) == BodyEnd(Skip(source[at..]), kind, depth, names)
  {
  }

  lemma BodyUnfolds(s: Text, kind: Kind, depth: nat, names: set<Text>)
    ensures BodyEnd(s, kind, depth, names) ==
            if kind.Array? then ThenValue(s, depth, names)
            else if LabelEnd(s, names).Err? then Err(LabelEnd(s, names).error)
            else ThenValue(LabelEnd(s, names).value.rest, depth, names + {LabelEnd(s, names).value.token})
  {
  }

  function ThenValue(s: Text, depth: nat, seen: set<Text>): Result<Token<set<Text>>, JsonError> {
    match End(Read(s, depth + 1, true))
    case Err(e) => Err(e)
    case Ok(rest) => Ok(Token(seen, Skip(rest)))
  }

  class Scanner {
    const source: Text
    var at: nat

    constructor (source: Text)
      ensures this.source == source && at == 0
    {
      this.source := source;
      at := 0;
    }

    /** The cursor has reached the point where `rest` is what remains of the source. */
    predicate StandsAt(rest: Text)
      reads this
    {
      at <= |source| && source[at..] == rest
    }

    method Whitespace()
      requires at <= |source|
      modifies this
      ensures at >= old(at) && StandsAt(Skip(source[old(at)..]))
    {
      while at < |source| && IsSpace(source[at])
        invariant old(at) <= at <= |source|
        invariant SpaceEnd(source, at) == SpaceEnd(source, old(at))
      {
        at := at + 1;
      }
      SpaceEndIsSkip(source, old(at));
    }

    method String() returns (r: Result<Text, JsonError>)
      requires at < |source| && source[at] == QUOTE
      modifies this
      ensures match LiteralAt(source, old(at))
              case Ok(t) => r == Ok(Decoded(t.token)) && at > old(at) && StandsAt(t.rest)
              case Err(e) => r == Err(e)
    {
      var start := at;
      at := at + 1;
      while at < |source|
        invariant start < at <= |source| + 1
        invariant QuoteEnd(source, at) == QuoteEnd(source, start + 1)
      {
        var c := source[at];
        at := at + 1;
        if c == QUOTE {
          match ParsePieces(source[start + 1..at - 1])
          case Some(ps) => return Ok(Decoded(ps));
          case None => return Err(InvalidString);
        }
        if c == BACKSLASH { at := at + 1; }
      }
      return Err(UnterminatedString);
    }

    /** A member's name and colon; `names` are the names its object has had so far. */
    method Name(names: set<Text>) returns (r: Result<Text, JsonError>)
      requires at <= |source|
      modifies this
      ensures match LabelEnd(source[old(at)..], names)
              case Ok(t) => at > old(at) && StandsAt(t.rest) && r == Ok(t.token)
              case Err(e) => r == Err(e)
    {
      if at == |source| || source[at] != QUOTE { return Err(ExpectedMember); }
      LiteralIsScanned(source, at);
      Advances(source, at);
      LabelUnfolds(source[at..], names);
      r := String();
      if r.Err? { return r; }
      if r.value in names { return Err(DuplicateMember); }
      var colon := Colon();
      if !colon { return Err(ExpectedColon); }
    }

    method Colon() returns (found: bool)
      requires at <= |source|
      modifies this
      ensures found == Starts(Skip(source[old(at)..]), COLON)
      ensures found ==> at > old(at) && StandsAt(Skip(source[old(at)..])[1..])
    {
      Whitespace();
      if at == |source| || source[at] != COLON { return false; }
      Advances(source, at);
      at := at + 1;
      return true;
    }

    /** One turn of the loop up to its delimiter; returns the names seen after it. */
    method Member(kind: Kind, depth: nat, names: set<Text>) returns (r: Result<set<Text>, JsonError>)
      requires at <= |source|
      modifies this
      ensures match PartEnd(source, old(at), kind, depth, names)
              case Ok(t) => at > old(at) && StandsAt(t.rest) && r == Ok(t.token)
              case Err(e) => r == Err(e)
      decreases |source| - at, 6
    {
      Whitespace();
      PartUnfolds(source, old(at), kind, depth, names);
      BodyUnfolds(source[at..], kind, depth, names);
      var seen := names;
      if kind.Object? {
        var name := Name(names);
        if name.Err? { return Err(name.error); }
        seen := names + {name.value};
      }
      var read := Value(depth + 1);
      if read.Failed? { return Err(read.error); }
      Whitespace();
      return Ok(seen);
    }

    method Members(kind: Kind, depth: nat) returns (r: Outcome)
      requires at <= |source|
      modifies this
      ensures match PartsEnd(source, old(at), kind, depth, {})
              case Ok(rest) => r.Passed? && at > old(at) && StandsAt(rest)
              case Err(e) => r == Failed(e)
      decreases |source| - at, 7
    {
      var names: set<Text> := {};
      while true
        invariant old(at) <= at <= |source|
        invariant PartsEnd(source, at, kind, depth, names) == PartsEnd(source, old(at), kind, depth, {})
        decreases |source| - at
      {
        ghost var from, had := at, names;
        var seen := Member(kind, depth, names);
        if seen.Err? {
          PartsFail(source, from, kind, depth, had);
          return Failed(seen.error);
        }
        names := seen.value;
        PartsUnfold(source, from, at, kind, depth, had, names);
        if at == |source| { return Failed(ExpectedDelimiter); }
        var delimiter := source[at];
        at := at + 1;
        if delimiter == Closing(kind) { return Passed; }
        if delimiter != COMMA { return Failed(ExpectedDelimiter); }
      }
    }

    method Value(depth: nat) returns (r: Outcome)
      requires at <= |source|
      modifies this
      ensures match ValueEnd(source, old(at), depth)
              case Ok(rest) => r.Passed? && at > old(at) && StandsAt(rest)
              case Err(e) => r == Failed(e)
      decreases |source| - at, 5
    {
      if depth > MAX_DEPTH { return Failed(NestingLimit); }
      ValueUnfolds(source, at, depth);
      Whitespace();
      r := BareValue(depth);
    }

    method BareValue(depth: nat) returns (r: Outcome)
      requires at <= |source|
      modifies this
      ensures match End(ReadValue(source[old(at)..], depth, true))
              case Ok(rest) => r.Passed? && at > old(at) && StandsAt(rest)
              case Err(e) => r == Failed(e)
      decreases |source| - at, 4
    {
      BareValueUnfolds(source[at..], depth);
      assert at < |source| ==> source[at..][1..] == source[at + 1..];
      if at < |source| && source[at] == QUOTE {
        LiteralIsScanned(source, at);
        var literal := String();
        return if literal.Ok? then Passed else Failed(literal.error);
      }
      if at < |source| && source[at] == Opening(Object) {
        at := at + 1;
        r := Nested(Object, depth);
      } else if at < |source| && source[at] == Opening(Array) {
        at := at + 1;
        r := Nested(Array, depth);
      } else {
        r := Scalar();
      }
    }

    /** What follows an opening bracket. */
    method Nested(kind: Kind, depth: nat) returns (r: Outcome)
      requires at <= |source|
      modifies this
      ensures match NestedEnd(Skip(source[old(at)..]), kind, depth)
              case Ok(rest) => r.Passed? && at > old(at) && StandsAt(rest)
              case Err(e) => r == Failed(e)
      decreases |source| - at, 8
    {
      Whitespace();
      if at < |source| && source[at] == Closing(kind) {
        at := at + 1;
        return Passed;
      }
      r := Members(kind, depth);
    }

    method Scalar() returns (r: Outcome)
      requires at <= |source|
      modifies this
      ensures match ScanScalar(source[old(at)..])
              case Some(t) => r.Passed? && at > old(at) && StandsAt(t.rest)
              case None => r == Failed(InvalidValue)
    {
      var scalar := ScanScalar(source[at..]);
      if scalar.None? { return Failed(InvalidValue); }
      ScalarSound(source[at..]);
      at := at + |PrintScalar(scalar.value.token)|;
      return Passed;
    }
  }

  // ---- the whole parse -----------------------------------------------------------------------------------

  const MAX_ECONOMIC_JSON_BYTES := 32768

  type Decoder = seq<bv8> -> Option<Text>

  function Parsed(raw: seq<bv8>, maxBytes: nat, decode: Decoder): Result<Json, JsonError> {
    if |raw| > maxBytes then Err(InvalidSize)
    else match decode(raw)
      case None => Err(InvalidEncoding)
      case Some(source) =>
        match ReadText(source, true)
        case Err(e) => Err(e)
        case Ok(d) => Ok(Value(d.value))
  }

  method ParseEconomicJson(raw: seq<bv8>, decode: Decoder, maxBytes: nat := MAX_ECONOMIC_JSON_BYTES)
    returns (r: Result<Json, JsonError>)
    ensures r == Parsed(raw, maxBytes, decode)
    ensures forall v :: r == Ok(v) <==>
              |raw| <= maxBytes && decode(raw).Some? && ElementDenotes(decode(raw).value, v, MAX_DEPTH)
  {
    forall v ensures Parsed(raw, maxBytes, decode) == Ok(v) <==>
              |raw| <= maxBytes && decode(raw).Some? && ElementDenotes(decode(raw).value, v, MAX_DEPTH)
    {
      ParsedIff(raw, maxBytes, decode, v);
    }
    if |raw| > maxBytes { return Err(InvalidSize); }
    var decoded := decode(raw);
    if decoded.None? { return Err(InvalidEncoding); }
    var source := decoded.value;
    var scanner := new Scanner(source);
    assert source[0..] == source;
    var outcome := scanner.Value(0);
    if outcome.Failed? { return Err(outcome.error); }
    scanner.Whitespace();
    if scanner.at != |source| { return Err(TrailingInput); }
    ClosingParseNeverFails(source);
    return Ok(Value(ReadText(source, false).value.value));
  }

  /** The parse yields a value exactly when the bytes are few enough and decode to a text that denotes the value. */
  lemma ParsedIff(raw: seq<bv8>, maxBytes: nat, decode: Decoder, v: Json)
    ensures Parsed(raw, maxBytes, decode) == Ok(v) <==>
            |raw| <= maxBytes && decode(raw).Some? && ElementDenotes(decode(raw).value, v, MAX_DEPTH)
  {
    if decode(raw).Some? { ReadsIffDenotes(decode(raw).value, v); }
  }

  /** What is printed is parsed back: every value within the nesting bound survives the round trip. */
  lemma PrintedIsParsed(raw: seq<bv8>, maxBytes: nat, decode: Decoder, v: Json)
    requires Fits(v, MAX_DEPTH) && decode(raw) == Some(Print(v, MAX_DEPTH)) && |raw| <= maxBytes
    ensures Parsed(raw, maxBytes, decode) == Ok(v)
  {
    PrintedIsRead(v);
  }
}
