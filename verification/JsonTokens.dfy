/**
 The tokens of a JSON text (RFC 8259, sections 2, 6 and 7) over UTF-16 code units: what each one looks like,
 and how the strict reader recognises it.
 */
module JsonTokens {
  import opened Wrappers

  type Unit = c: int | 0 <= c <= 0xFFFF witness 0

  type Text = seq<Unit>

  const QUOTE: Unit := 0x22
  const PLUS: Unit := 0x2B
  const COMMA: Unit := 0x2C
  const MINUS: Unit := 0x2D
  const DOT: Unit := 0x2E
  const ZERO: Unit := 0x30
  const COLON: Unit := 0x3A
  const BACKSLASH: Unit := 0x5C
  const LETTER_U: Unit := 0x75

  datatype JsonError =
    | InvalidSize | InvalidEncoding | UnterminatedString | InvalidString | NestingLimit | ExpectedMember
    | DuplicateMember | ExpectedColon | ExpectedDelimiter | InvalidValue | TrailingInput

  predicate IsSpace(c: Unit) { c == 0x09 || c == 0x0A || c == 0x0D || c == 0x20 }

  predicate IsDigit(c: Unit) { 0x30 <= c <= 0x39 }

  predicate IsHex(c: Unit) { IsDigit(c) || 0x41 <= c <= 0x46 || 0x61 <= c <= 0x66 }

  predicate IsSign(c: Unit) { c == PLUS || c == MINUS }

  predicate IsExponentLetter(c: Unit) { c == 0x45 || c == 0x65 }

  /** The classes of units the reader's patterns name. */
  datatype Class = Space | Digit | Sign | ExponentLetter

  predicate Is(c: Unit, k: Class) {
    match k
    case Space => IsSpace(c)
    case Digit => IsDigit(c)
    case Sign => IsSign(c)
    case ExponentLetter => IsExponentLetter(c)
  }

  predicate All(s: Text, k: Class) { forall i :: 0 <= i < |s| ==> Is(s[i], k) }

  predicate Starts(s: Text, c: Unit) { s != [] && s[0] == c }

  predicate StartsWith(s: Text, k: Class) { s != [] && Is(s[0], k) }

  /** The length of the longest prefix whose units all belong to the class. */
  function Span(s: Text, k: Class): (n: nat)
    ensures n <= |s| && All(s[..n], k) && !StartsWith(s[n..], k)
  {
    if s == [] || !Is(s[0], k) then 0
    else
      assert forall i :: 1 <= i < |s| ==> s[i] == s[1..][i - 1];
      1 + Span(s[1..], k)
  }

  lemma {:induction false} SpanOf(front: Text, rest: Text, k: Class)
    requires All(front, k) && !StartsWith(rest, k)
    ensures Span(front + rest, k) == |front|
    ensures (front + rest)[..|front|] == front && (front + rest)[|front|..] == rest
  {
    if front == [] {
      assert front + rest == rest;
    } else {
      assert (front + rest)[1..] == front[1..] + rest;
      SpanOf(front[1..], rest, k);
    }
  }

  // ---- whitespace ------------------------------------------------------------------------------------

  predicate IsGap(s: Text) { All(s, Space) }

  function Skip(s: Text): Text { s[Span(s, Space)..] }

  function Gap(s: Text): (gap: Text)
    ensures IsGap(gap) && s == gap + Skip(s) && !StartsWith(Skip(s), Space)
  {
    s[..Span(s, Space)]
  }

  lemma GapOf(gap: Text, rest: Text)
    requires IsGap(gap) && !StartsWith(rest, Space)
    ensures Gap(gap + rest) == gap && Skip(gap + rest) == rest
  {
    SpanOf(gap, rest, Space);
  }

  // ---- strings ---------------------------------------------------------------------------------------

  /** One character of a string literal: itself, a short escape, or four hexadecimal digits. */
  datatype Piece = Plain(unit: Unit) | Escape(letter: Unit) | Hex(a: Unit, b: Unit, c: Unit, d: Unit)

  predicate IsEscapeLetter(c: Unit) {
    c == QUOTE || c == BACKSLASH || c == 0x2F || c == 0x62 || c == 0x66 || c == 0x6E || c == 0x72 || c == 0x74
  }

  predicate PieceFormed(p: Piece) {
    match p
    case Plain(c) => c >= 0x20 && c != QUOTE && c != BACKSLASH
    case Escape(c) => IsEscapeLetter(c)
    case Hex(a, b, c, d) => IsHex(a) && IsHex(b) && IsHex(c) && IsHex(d)
  }

  predicate PiecesFormed(ps: seq<Piece>) { forall i :: 0 <= i < |ps| ==> PieceFormed(ps[i]) }

  function PrintPiece(p: Piece): Text {
    match p
    case Plain(c) => [c]
    case Escape(c) => [BACKSLASH, c]
    case Hex(a, b, c, d) => [BACKSLASH, LETTER_U, a, b, c, d]
  }

  function PrintPieces(ps: seq<Piece>): Text {
    if ps == [] then [] else PrintPiece(ps[0]) + PrintPieces(ps[1..])
  }

  function HexValue(c: Unit): (v: int)
    ensures 0 <= v <= 15
  {
    if IsDigit(c) then c - 0x30 else if 0x41 <= c <= 0x46 then c - 0x37 else if 0x61 <= c <= 0x66 then c - 0x57 else 0
  }

  /** The code unit a piece stands for. */
  function Meaning(p: Piece): Unit {
    match p
    case Plain(c) => c
    case Escape(c) =>
      if c == 0x62 then 0x08 else if c == 0x66 then 0x0C else if c == 0x6E then 0x0A
      else if c == 0x72 then 0x0D else if c == 0x74 then 0x09 else c
    case Hex(a, b, c, d) => 0x1000 * HexValue(a) + 0x100 * HexValue(b) + 0x10 * HexValue(c) + HexValue(d)
  }

  function Decoded(ps: seq<Piece>): Text {
    seq(|ps|, i requires 0 <= i < |ps| => Meaning(ps[i]))
  }

  function HexDigit(v: int): Unit
    requires 0 <= v <= 15
  {
    if v < 10 then 0x30 + v else 0x41 + v - 10
  }

  /** A unit written as four hexadecimal digits. */
  function HexOf(c: Unit): Piece {
    var first := c / 0x10 / 0x10 / 0x10;
    Hex(HexDigit(first), HexDigit(c / 0x10 / 0x10 % 0x10), HexDigit(c / 0x10 % 0x10), HexDigit(c % 0x10))
  }

  lemma HexDigitValue(v: int)
    requires 0 <= v <= 15
    ensures IsHex(HexDigit(v)) && HexValue(HexDigit(v)) == v
  {
  }

  /** Every unit has a hexadecimal alias with the same meaning, which the duplicate check therefore sees through. */
  lemma HexNamesEveryUnit(c: Unit)
    ensures PieceFormed(HexOf(c)) && Meaning(HexOf(c)) == c
  {
    var q, r := c / 0x10, c / 0x10 / 0x10;
    HexDigitValue(r / 0x10);
    HexDigitValue(r % 0x10);
    HexDigitValue(q % 0x10);
    HexDigitValue(c % 0x10);
    assert c == 0x10 * q + c % 0x10 && q == 0x10 * r + q % 0x10 && r == 0x10 * (r / 0x10) + r % 0x10;
  }

  /** Where the reader's loop finds the closing quote: it skips one unit after every backslash. */
  function Close(s: Text): (n: Option<nat>)
    ensures n.Some? ==> n.value < |s| && s[n.value] == QUOTE
  {
    if s == [] then None
    else if s[0] == QUOTE then Some(0)
    else
      var step := if s[0] == BACKSLASH then 2 else 1;
      if step > |s| then None
      else match Close(s[step..])
        case Some(n) => Some(n + step)
        case None => None
  }

  function FirstPiece(s: Text): Option<Piece>
    requires s != []
  {
    if s[0] != BACKSLASH then if PieceFormed(Plain(s[0])) then Some(Plain(s[0])) else None
    else if |s| >= 2 && IsEscapeLetter(s[1]) then Some(Escape(s[1]))
    else if |s| >= 6 && s[1] == LETTER_U && PieceFormed(Hex(s[2], s[3], s[4], s[5])) then
      Some(Hex(s[2], s[3], s[4], s[5]))
    else None
  }

  /** JSON.parse on the units between two quotes. */
  function ParsePieces(s: Text): Option<seq<Piece>>
    decreases |s|
  {
    if s == [] then Some([])
    else match FirstPiece(s)
      case None => None
      case Some(p) =>
        match ParsePieces(s[|PrintPiece(p)|..])
        case None => None
        case Some(ps) => Some([p] + ps)
  }

  lemma FirstPieceSound(s: Text)
    requires s != [] && FirstPiece(s).Some?
    ensures var p := FirstPiece(s).value;
            PieceFormed(p) && |PrintPiece(p)| <= |s| && s == PrintPiece(p) + s[|PrintPiece(p)|..]
  {
  }

  lemma {:induction false} PiecesSound(s: Text)
    requires ParsePieces(s).Some?
    ensures PiecesFormed(ParsePieces(s).value) && PrintPieces(ParsePieces(s).value) == s
    decreases |s|
  {
    if s != [] {
      var p := FirstPiece(s).value;
      FirstPieceSound(s);
      PiecesSound(s[|PrintPiece(p)|..]);
      var ps := ParsePieces(s[|PrintPiece(p)|..]).value;
      assert ParsePieces(s).value == [p] + ps;
      assert ([p] + ps)[0] == p && ([p] + ps)[1..] == ps;
    }
  }

  lemma FirstPieceOf(p: Piece, rest: Text)
    requires PieceFormed(p)
    ensures FirstPiece(PrintPiece(p) + rest) == Some(p)
  {
  }

  lemma {:induction false} PiecesComplete(ps: seq<Piece>)
    requires PiecesFormed(ps)
    ensures ParsePieces(PrintPieces(ps)) == Some(ps)
  {
    if ps != [] {
      PiecesComplete(ps[1..]);
      ParseOneMore(ps[0], PrintPieces(ps[1..]), ps[1..]);
      assert [ps[0]] + ps[1..] == ps;
    }
  }

  lemma ParseOneMore(p: Piece, tail: Text, ps: seq<Piece>)
    requires PieceFormed(p) && ParsePieces(tail) == Some(ps)
    ensures ParsePieces(PrintPiece(p) + tail) == Some([p] + ps)
  {
    FirstPieceOf(p, tail);
    AfterFront(PrintPiece(p), tail);
  }

  lemma AfterFront(front: Text, tail: Text)
    ensures (front + tail)[|front|..] == tail
  {
  }

  function Plus(n: Option<nat>, k: nat): Option<nat> { if n.Some? then Some(n.value + k) else None }

  lemma CloseAdvances(source: Text, at: nat)
    requires at < |source|
    ensures Close(source[at..]) ==
            if source[at] == QUOTE then Some(0)
            else if source[at] != BACKSLASH then Plus(Close(source[at + 1..]), 1)
            else if at + 1 < |source| then Plus(Close(source[at + 2..]), 2)
            else None
  {
    assert source[at..][1..] == source[at + 1..];
    if at + 1 < |source| { assert source[at..][2..] == source[at + 2..]; }
  }

  lemma ClosePastFour(s: Text, at: nat)
    requires at + 4 <= |s| && forall i :: at <= i < at + 4 ==> IsHex(s[i])
    ensures Close(s[at..]) == Plus(Close(s[at + 4..]), 4)
  {
    CloseAdvances(s, at);
    CloseAdvances(s, at + 1);
    CloseAdvances(s, at + 2);
    CloseAdvances(s, at + 3);
  }

  lemma ClosePastPiece(s: Text)
    requires s != [] && FirstPiece(s).Some?
    ensures var n := |PrintPiece(FirstPiece(s).value)|; n <= |s| && Close(s) == Plus(Close(s[n..]), n)
  {
    if FirstPiece(s).value.Hex? { ClosePastHex(s); } else { ClosePastShort(s); }
  }

  lemma ClosePastShort(s: Text)
    requires s != [] && FirstPiece(s).Some? && !FirstPiece(s).value.Hex?
    ensures var n := |PrintPiece(FirstPiece(s).value)|; n <= |s| && Close(s) == Plus(Close(s[n..]), n)
  {
    assert s[0..] == s;
    CloseAdvances(s, 0);
  }

  lemma ClosePastHex(s: Text)
    requires s != [] && FirstPiece(s).Some? && FirstPiece(s).value.Hex?
    ensures 6 <= |s| && Close(s) == Plus(Close(s[6..]), 6)
  {
    assert s[0..] == s;
    CloseAdvances(s, 0);
    ClosePastFour(s, 2);
  }

  lemma CloseOneMore(p: Piece, tail: Text, n: nat)
    requires PieceFormed(p) && Close(tail) == Some(n)
    ensures Close(PrintPiece(p) + tail) == Some(n + |PrintPiece(p)|)
  {
    FirstPieceOf(p, tail);
    ClosePastPiece(PrintPiece(p) + tail);
    AfterFront(PrintPiece(p), tail);
  }

  lemma WrittenPieces(ps: seq<Piece>, rest: Text)
    requires ps != []
    ensures PrintPieces(ps) + rest == PrintPiece(ps[0]) + (PrintPieces(ps[1..]) + rest)
  {
  }

  /** The loop stops at the literal's own closing quote, never at one inside an escape. */
  lemma {:induction false} CloseOf(ps: seq<Piece>, rest: Text)
    requires PiecesFormed(ps)
    ensures Close(PrintPieces(ps) + ([QUOTE] + rest)) == Some(|PrintPieces(ps)|)
  {
    if ps == [] {
      assert PrintPieces(ps) + ([QUOTE] + rest) == [QUOTE] + rest;
    } else {
      CloseOf(ps[1..], rest);
      CloseOneMore(ps[0], PrintPieces(ps[1..]) + ([QUOTE] + rest), |PrintPieces(ps[1..])|);
      WrittenPieces(ps, [QUOTE] + rest);
    }
  }

  function PrintString(ps: seq<Piece>): Text { [QUOTE] + PrintPieces(ps) + [QUOTE] }

  datatype Token<T> = Token(token: T, rest: Text)

  function Literal(body: Text, rest: Text): Result<Token<seq<Piece>>, JsonError> {
    match ParsePieces(body)
    case None => Err(InvalidString)
    case Some(ps) => Ok(Token(ps, rest))
  }

  function ScanString(s: Text): Result<Token<seq<Piece>>, JsonError>
    requires Starts(s, QUOTE)
  {
    match Close(s[1..])
    case None => Err(UnterminatedString)
    case Some(n) => Literal(s[1..n + 1], s[n + 2..])
  }

  lemma QuotedParts(s: Text, n: nat)
    requires n + 2 <= |s|
    ensures s == [s[0]] + s[1..n + 1] + [s[1..][n]] + s[n + 2..]
  {
  }

  lemma StringSound(s: Text)
    requires Starts(s, QUOTE) && ScanString(s).Ok?
    ensures var t := ScanString(s).value;
            PiecesFormed(t.token) && s == PrintString(t.token) + t.rest
  {
    var n := Close(s[1..]).value;
    PiecesSound(s[1..n + 1]);
    QuotedParts(s, n);
  }

  lemma QuotedSlices(body: Text, rest: Text)
    ensures var s, n := [QUOTE] + body + [QUOTE] + rest, |body|;
            s[1..] == body + ([QUOTE] + rest) && s[1..n + 1] == body && s[n + 2..] == rest
  {
  }

  lemma StringComplete(ps: seq<Piece>, rest: Text)
    requires PiecesFormed(ps)
    ensures Starts(PrintString(ps) + rest, QUOTE)
    ensures ScanString(PrintString(ps) + rest) == Ok(Token(ps, rest))
  {
    var s, n := PrintString(ps) + rest, |PrintPieces(ps)|;
    CloseOf(ps, rest);
    PiecesComplete(ps);
    QuotedSlices(PrintPieces(ps), rest);
  }

  function Spell(t: Text): seq<Piece> { seq(|t|, i requires 0 <= i < |t| => HexOf(t[i])) }

  /** Every text, control characters and lone surrogates included, has a literal that is read back as it. */
  lemma EveryTextHasALiteral(t: Text, rest: Text)
    ensures PiecesFormed(Spell(t)) && Decoded(Spell(t)) == t
    ensures Starts(PrintString(Spell(t)) + rest, QUOTE)
    ensures ScanString(PrintString(Spell(t)) + rest) == Ok(Token(Spell(t), rest))
  {
    forall i | 0 <= i < |t| ensures PieceFormed(Spell(t)[i]) && Meaning(Spell(t)[i]) == t[i] {
      HexNamesEveryUnit(t[i]);
    }
    StringComplete(Spell(t), rest);
  }

  // ---- numbers and words -----------------------------------------------------------------------------

  datatype Exponent = Exponent(letter: Unit, sign: Option<Unit>, digits: Text)

  datatype Number = Number(minus: bool, whole: Text, fraction: Option<Text>, exponent: Option<Exponent>)

  predicate Digits(s: Text) { s != [] && All(s, Digit) }

  predicate ExponentFormed(x: Exponent) {
    IsExponentLetter(x.letter) && Digits(x.digits) && (x.sign.Some? ==> IsSign(x.sign.value))
  }

  predicate WholeFormed(w: Text) { Digits(w) && (w[0] == ZERO ==> |w| == 1) }

  predicate NumberFormed(n: Number) {
    && WholeFormed(n.whole) && (n.fraction.Some? ==> Digits(n.fraction.value))
    && (n.exponent.Some? ==> ExponentFormed(n.exponent.value))
  }

  function PrintFraction(f: Option<Text>): Text { if f.Some? then [DOT] + f.value else [] }

  function PrintSign(sign: Option<Unit>): Text { if sign.Some? then [sign.value] else [] }

  function PrintExponent(x: Option<Exponent>): Text {
    if x.Some? then [x.value.letter] + PrintSign(x.value.sign) + x.value.digits else []
  }

  function PrintMinus(minus: bool): Text { if minus then [MINUS] else [] }

  function PrintNumber(n: Number): Text {
    PrintMinus(n.minus) + n.whole + PrintFraction(n.fraction) + PrintExponent(n.exponent)
  }

  lemma PrintedNumber(n: Number, rest: Text)
    ensures PrintNumber(n) + rest
            == PrintMinus(n.minus) + (n.whole + (PrintFraction(n.fraction) + (PrintExponent(n.exponent) + rest)))
  {
  }

  function ScanFraction(s: Text): Token<Option<Text>> {
    if Starts(s, DOT) && Span(s[1..], Digit) > 0
    then Token(Some(s[1..][..Span(s[1..], Digit)]), s[1..][Span(s[1..], Digit)..])
    else Token(None, s)
  }

  function ScanSign(s: Text): Token<Option<Unit>> {
    if StartsWith(s, Sign) then Token(Some(s[0]), s[1..]) else Token(None, s)
  }

  function ScanExponent(s: Text): Token<Option<Exponent>> {
    if StartsWith(s, ExponentLetter) then
      var sign := ScanSign(s[1..]);
      var n := Span(sign.rest, Digit);
      if n > 0 then Token(Some(Exponent(s[0], sign.token, sign.rest[..n])), sign.rest[n..]) else Token(None, s)
    else Token(None, s)
  }

  /** The number alternative of the reader's regular expression; every quantifier in it is greedy. */
  function ScanNumber(s: Text): Option<Token<Number>> {
    var minus := Starts(s, MINUS);
    var t := if minus then s[1..] else s;
    var w := if Starts(t, ZERO) then 1 else Span(t, Digit);
    if w == 0 then None
    else
      var f := ScanFraction(t[w..]);
      var x := ScanExponent(f.rest);
      Some(Token(Number(minus, t[..w], f.token, x.token), x.rest))
  }

  lemma FractionSound(s: Text)
    ensures var t := ScanFraction(s);
            s == PrintFraction(t.token) + t.rest && (t.token.Some? ==> Digits(t.token.value))
  {
  }

  lemma ExponentSound(s: Text)
    ensures var t := ScanExponent(s);
            s == PrintExponent(t.token) + t.rest && (t.token.Some? ==> ExponentFormed(t.token.value))
  {
  }

  lemma MinusSound(s: Text)
    ensures s == PrintMinus(Starts(s, MINUS)) + (if Starts(s, MINUS) then s[1..] else s)
  {
  }

  lemma WholeSound(s: Text)
    ensures var w := if Starts(s, ZERO) then 1 else Span(s, Digit);
            s == s[..w] + s[w..] && (w > 0 ==> WholeFormed(s[..w]))
  {
  }

  lemma NumberSound(s: Text)
    requires ScanNumber(s).Some?
    ensures var t := ScanNumber(s).value; s == PrintNumber(t.token) + t.rest && NumberFormed(t.token)
  {
    var t := if Starts(s, MINUS) then s[1..] else s;
    var w := if Starts(t, ZERO) then 1 else Span(t, Digit);
    var f := ScanFraction(t[w..]);
    var x := ScanExponent(f.rest);
    FractionSound(t[w..]);
    ExponentSound(f.rest);
    MinusSound(s);
    WholeSound(t);
    var n := Number(Starts(s, MINUS), t[..w], f.token, x.token);
    assert ScanNumber(s).value == Token(n, x.rest);
    PrintedNumber(n, x.rest);
  }

  /** What may follow a value: nothing, whitespace, or a structural character that ends it. */
  predicate Boundary(rest: Text) {
    rest == [] || IsSpace(rest[0]) || rest[0] == COMMA || rest[0] == 0x5D || rest[0] == 0x7D
  }

  lemma FractionComplete(f: Option<Text>, rest: Text)
    requires f.Some? ==> Digits(f.value)
    requires !StartsWith(rest, Digit) && !Starts(rest, DOT)
    ensures ScanFraction(PrintFraction(f) + rest) == Token(f, rest)
  {
    if f.Some? {
      assert (PrintFraction(f) + rest)[1..] == f.value + rest;
      SpanOf(f.value, rest, Digit);
    } else {
      assert PrintFraction(f) + rest == rest;
    }
  }

  lemma PrintedExponent(x: Exponent, rest: Text)
    ensures var s := PrintExponent(Some(x)) + rest;
            s[0] == x.letter && s[1..] == PrintSign(x.sign) + (x.digits + rest)
  {
  }

  lemma ExponentBodyComplete(x: Exponent, rest: Text)
    requires ExponentFormed(x) && Boundary(rest)
    ensures var t := ScanSign(PrintSign(x.sign) + (x.digits + rest));
            t == Token(x.sign, x.digits + rest) && Span(t.rest, Digit) == |x.digits|
            && t.rest[..|x.digits|] == x.digits && t.rest[|x.digits|..] == rest
  {
    SignComplete(x.sign, x.digits + rest);
    SpanOf(x.digits, rest, Digit);
  }

  lemma ExponentComplete(x: Option<Exponent>, rest: Text)
    requires (x.Some? ==> ExponentFormed(x.value)) && Boundary(rest)
    ensures ScanExponent(PrintExponent(x) + rest) == Token(x, rest)
  {
    if x.Some? {
      PrintedExponent(x.value, rest);
      ExponentBodyComplete(x.value, rest);
    } else {
      assert PrintExponent(x) + rest == rest;
    }
  }

  lemma SignComplete(sign: Option<Unit>, rest: Text)
    requires (sign.Some? ==> IsSign(sign.value)) && StartsWith(rest, Digit)
    ensures ScanSign(PrintSign(sign) + rest) == Token(sign, rest)
  {
    if sign.None? { assert PrintSign(sign) + rest == rest; }
  }

  lemma WholeComplete(w: Text, rest: Text)
    requires WholeFormed(w) && !StartsWith(rest, Digit)
    ensures var n := if Starts(w + rest, ZERO) then 1 else Span(w + rest, Digit);
            n == |w| && (w + rest)[..n] == w && (w + rest)[n..] == rest
  {
    SpanOf(w, rest, Digit);
  }

  lemma MinusComplete(minus: bool, rest: Text)
    requires StartsWith(rest, Digit)
    ensures Starts(PrintMinus(minus) + rest, MINUS) == minus && PrintMinus(minus) + rest != []
    ensures minus ==> (PrintMinus(minus) + rest)[1..] == rest
    ensures !minus ==> PrintMinus(minus) + rest == rest
  {
  }

  lemma NumberComplete(n: Number, rest: Text)
    requires NumberFormed(n) && Boundary(rest)
    ensures ScanNumber(PrintNumber(n) + rest) == Some(Token(n, rest))
  {
    var x := PrintExponent(n.exponent) + rest;
    var f := PrintFraction(n.fraction) + x;
    PrintedNumber(n, rest);
    MinusComplete(n.minus, n.whole + f);
    WholeComplete(n.whole, f);
    FractionComplete(n.fraction, x);
    ExponentComplete(n.exponent, rest);
  }

  datatype Word = True | False | Null

  function PrintWord(w: Word): Text {
    match w
    case True => [0x74, 0x72, 0x75, 0x65]
    case False => [0x66, 0x61, 0x6C, 0x73, 0x65]
    case Null => [0x6E, 0x75, 0x6C, 0x6C]
  }

  datatype Scalar = WordScalar(word: Word) | NumberScalar(number: Number)

  predicate ScalarFormed(x: Scalar) { x.NumberScalar? ==> NumberFormed(x.number) }

  function PrintScalar(x: Scalar): Text { if x.WordScalar? then PrintWord(x.word) else PrintNumber(x.number) }

  function ScanScalar(s: Text): Option<Token<Scalar>> {
    if PrintWord(True) <= s then Some(Token(WordScalar(True), s[4..]))
    else if PrintWord(False) <= s then Some(Token(WordScalar(False), s[5..]))
    else if PrintWord(Null) <= s then Some(Token(WordScalar(Null), s[4..]))
    else match ScanNumber(s)
      case Some(t) => Some(Token(NumberScalar(t.token), t.rest))
      case None => None
  }

  lemma ScalarSound(s: Text)
    requires ScanScalar(s).Some?
    ensures var t := ScanScalar(s).value;
            s == PrintScalar(t.token) + t.rest && ScalarFormed(t.token) && |t.rest| < |s|
  {
    if ScanScalar(s).value.token.NumberScalar? { NumberSound(s); }
    else { WordSound(s, ScanScalar(s).value.token.word); }
  }

  lemma WordSound(s: Text, w: Word)
    requires PrintWord(w) <= s
    ensures s == PrintWord(w) + s[|PrintWord(w)|..]
  {
  }

  /** Recognition is maximal: a printed scalar is read back whole whenever a value may end after it. */
  lemma ScalarComplete(x: Scalar, rest: Text)
    requires ScalarFormed(x) && Boundary(rest)
    ensures ScanScalar(PrintScalar(x) + rest) == Some(Token(x, rest))
  {
    if x.NumberScalar? {
      NumberComplete(x.number, rest);
      NumberFirst(x.number, rest);
    } else {
      WordComplete(x.word, rest);
    }
  }

  lemma NumberFirst(n: Number, rest: Text)
    requires NumberFormed(n)
    ensures var s := PrintNumber(n) + rest; s != [] && (s[0] == MINUS || IsDigit(s[0]))
  {
    PrintedNumber(n, rest);
    assert Is(n.whole[0], Digit);
  }

  lemma WordComplete(w: Word, rest: Text)
    ensures ScanScalar(PrintWord(w) + rest) == Some(Token(WordScalar(w), rest))
  {
    var s := PrintWord(w) + rest;
    assert s[..|PrintWord(w)|] == PrintWord(w) && s[|PrintWord(w)|..] == rest;
    assert s[0] == PrintWord(w)[0];
    assert forall v :: PrintWord(v) <= s ==> PrintWord(v)[0] == s[0];
  }
}
