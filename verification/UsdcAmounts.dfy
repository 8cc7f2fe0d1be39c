/**
 USDC amounts: the accepted decimal strings, their raw integer units, and the three printers the
 application uses (payment requests, receipts and the browser projection).
 */
module UsdcAmounts {
  import opened Wrappers
  import opened Decimals

  datatype AmountError = NotADecimal | NotPositive | OutOfRange

  const SCALE: nat := 1_000_000
  const POSTGRES_BIGINT_MAX: nat := 9_223_372_036_854_775_807

  function PointAt(s: string): (i: nat)
    ensures i <= |s|
  {
    if s == "" || s[0] == '.' then 0 else 1 + PointAt(s[1..])
  }

  /** The two parts `value.split(".")` leaves of a string with at most one point. */
  function Whole(s: string): string { s[..PointAt(s)] }

  function Fraction(s: string): string {
    if PointAt(s) < |s| then s[PointAt(s) + 1..] else ""
  }

  /** The pattern /^(?:0|[1-9]\d*)(?:\.\d{1,6})?$/. */
  predicate AmountPattern(s: string) {
    && Canonical(Whole(s))
    && AllDigits(Fraction(s))
    && (PointAt(s) < |s| ==> 1 <= |Fraction(s)| <= 6)
  }

  function Join(whole: string, fraction: string): string {
    if fraction == "" then whole else whole + "." + fraction
  }

  function UsdcAmountToRaw(value: string): Result<nat, AmountError> {
    if !AmountPattern(value) then Err(NotADecimal)
    else
      PadEndDigits(Fraction(value), 6);
      Ok(Value(Whole(value)) * SCALE + Value(PadEnd(Fraction(value), 6)))
  }

  function ParseAmount(value: string): Result<string, AmountError> {
    match UsdcAmountToRaw(value)
    case Err(e) => Err(e)
    case Ok(raw) =>
      if raw <= 0 then Err(NotPositive)
      else if raw > POSTGRES_BIGINT_MAX then Err(OutOfRange)
      else Ok(value)
  }

  function RawUsdcToDisplay(value: nat): string {
    Join(ToDecimal(value / SCALE), StripZeros(PadStart(ToDecimal(value % SCALE), 6)))
  }

  /** Receipts: `slice(0, -decimals)` and `slice(-decimals)` of the padded units. */
  function FormatAmount(units: string, decimals: nat): string
    requires decimals > 0
  {
    var padded := PadStart(units, decimals + 1);
    var cut := |padded| - decimals;
    Join(if padded[..cut] == "" then "0" else padded[..cut], StripZeros(padded[cut..]))
  }

  /** Browser projection. */
  function Display(raw: nat): string {
    var value := PadStart(ToDecimal(raw), 7);
    Join(value[..|value| - 6], StripZeros(value[|value| - 6..]))
  }

  lemma PadEndDigits(s: string, d: nat)
    requires AllDigits(s)
    ensures AllDigits(PadEnd(s, d)) && |s| <= |PadEnd(s, d)| && (|s| <= d ==> |PadEnd(s, d)| == d)
  {
  }

  lemma ScaleIsPow10()
    ensures SCALE == Pow10(6)
  {
    assert Pow10(3) == 1000;
    assert Pow10(6) == 10 * (10 * (10 * Pow10(3)));
  }

  lemma {:induction false} PointAfterDigits(a: string, b: string)
    requires AllDigits(a)
    ensures PointAt(a) == |a|
    ensures PointAt(a + "." + b) == |a|
  {
    if a != "" {
      assert (a + "." + b)[1..] == a[1..] + "." + b;
      PointAfterDigits(a[1..], b);
    } else {
      assert (a + "." + b)[0] == '.';
    }
  }

  lemma JoinSplits(whole: string, fraction: string)
    requires AllDigits(whole)
    ensures Whole(Join(whole, fraction)) == whole && Fraction(Join(whole, fraction)) == fraction
    ensures PointAt(Join(whole, fraction)) < |Join(whole, fraction)| ==> fraction != ""
  {
    PointAfterDigits(whole, fraction);
  }

  lemma SplitsBack(whole: nat, digits: string)
    ensures var s := ToDecimal(whole) + digits; var cut := |s| - |digits|;
            s[..cut] == ToDecimal(whole) != "" && s[cut..] == digits
  {
    ValueOfDecimal(whole);
  }

  /**
   With d places, printing n shows its digits before the last d and, without trailing zeros, those d.
   By ShiftIsQuotient and ValueOfFixedDigits these are n / 10^d and n % 10^d.
   */
  lemma FormatAmountIsExact(n: nat, d: nat)
    requires d > 0
    ensures FormatAmount(ToDecimal(n), d) == Join(ToDecimal(Shift(n, d)), StripZeros(FixedDigits(n, d)))
  {
    PaddedSplits(n, d);
    SplitsBack(Shift(n, d), FixedDigits(n, d));
  }

  lemma {:induction false} FixedDigitsIgnoreTheRest(n: nat, d: nat)
    ensures FixedDigits(n % Pow10(d), d) == FixedDigits(n, d)
  {
    ValueOfFixedDigits(n, d);
    DivMod(n, Pow10(d));
    FixedDigitsOfValue(n % Pow10(d), FixedDigits(n, d));
  }

  lemma DisplayParts(n: nat)
    ensures RawUsdcToDisplay(n) == Join(ToDecimal(n / SCALE), StripZeros(FixedDigits(n, 6)))
  {
    ScaleIsPow10();
    FixedDigitsIgnoreTheRest(n, 6);
    PadStartIsFixed(n % SCALE, 6);
  }

  /** The three printers agree on every amount. */
  lemma PrintersAgree(n: nat)
    ensures RawUsdcToDisplay(n) == FormatAmount(ToDecimal(n), 6) == Display(n)
  {
    ScaleIsPow10();
    ShiftIsQuotient(n, 6);
    DisplayParts(n);
    FormatAmountIsExact(n, 6);
    PaddedSplits(n, 6);
    SplitsBack(Shift(n, 6), FixedDigits(n, 6));
  }

  /** Raw to display and back is the identity; every printed amount is an accepted one. */
  lemma RawRoundTrip(n: nat)
    ensures AmountPattern(RawUsdcToDisplay(n))
    ensures UsdcAmountToRaw(RawUsdcToDisplay(n)) == Ok(n)
  {
    DisplayParts(n);
    ScaleIsPow10();
    var whole, digits := ToDecimal(n / SCALE), FixedDigits(n, 6);
    var fraction := StripZeros(digits);
    ValueOfDecimal(n / SCALE);
    JoinSplits(whole, fraction);
    StripThenPad(digits, 6);
    StripZerosIsPrefix(digits);
    assert AllDigits(fraction) && |fraction| <= 6;
    assert PadEnd(fraction, 6) == digits;
    ValueOfFixedDigits(n, 6);
  }

  lemma RawParts(whole: nat, digits: string)
    requires AllDigits(digits) && |digits| == 6
    ensures (whole * SCALE + Value(digits)) / SCALE == whole
    ensures FixedDigits(whole * SCALE + Value(digits), 6) == digits
  {
    ScaleIsPow10();
    ValueBelowPow10(digits);
    Unique(whole * SCALE + Value(digits), SCALE, whole, Value(digits));
    FixedDigitsOfValue(whole * SCALE + Value(digits), digits);
  }

  /** Display of an accepted amount: the same whole part, the fraction without its trailing zeros. */
  lemma DisplayRoundTrip(s: string)
    requires AmountPattern(s)
    ensures RawUsdcToDisplay(UsdcAmountToRaw(s).value) == Join(Whole(s), StripZeros(Fraction(s)))
  {
    var whole, fraction := Whole(s), Fraction(s);
    PadEndDigits(fraction, 6);
    RawParts(Value(whole), PadEnd(fraction, 6));
    DisplayParts(UsdcAmountToRaw(s).value);
    DecimalOfValue(whole);
    StripPadEnd(fraction);
  }

  lemma StripPadEnd(fraction: string)
    ensures StripZeros(PadEnd(fraction, 6)) == StripZeros(fraction)
  {
    if |fraction| < 6 { PadThenStrip(fraction, 6 - |fraction|); }
  }

  lemma SameAmountSameNormalForm(s: string, t: string)
    requires AmountPattern(s) && AmountPattern(t)
    ensures UsdcAmountToRaw(s) == UsdcAmountToRaw(t)
            <==> Join(Whole(s), StripZeros(Fraction(s))) == Join(Whole(t), StripZeros(Fraction(t)))
  {
    DisplayRoundTrip(s);
    DisplayRoundTrip(t);
    RawRoundTrip(UsdcAmountToRaw(s).value);
    RawRoundTrip(UsdcAmountToRaw(t).value);
  }

  /** The text writes a whole number and at most six digits after a point. */
  predicate Writes(s: string, whole: nat, fraction: string) {
    && AllDigits(fraction) && |fraction| <= 6
    && s == if fraction == "" then ToDecimal(whole) else ToDecimal(whole) + "." + fraction
  }

  /** Units of a millionth: the fraction's digits count by their place. */
  function Units(whole: nat, fraction: string): nat
    requires AllDigits(fraction) && |fraction| <= 6
  {
    whole * SCALE + Value(fraction) * Pow10(6 - |fraction|)
  }

  lemma {:induction false} ValueOfPadded(s: string, k: nat)
    requires AllDigits(s)
    ensures AllDigits(s + Zeros(k)) && Value(s + Zeros(k)) == Value(s) * Pow10(k)
  {
    if k == 0 {
      assert s + Zeros(0) == s;
    } else {
      ValueOfPadded(s, k - 1);
      assert (s + Zeros(k))[..|s| + k - 1] == s + Zeros(k - 1);
    }
  }

  lemma WrittenIsPattern(s: string, whole: nat, fraction: string)
    requires Writes(s, whole, fraction)
    ensures AmountPattern(s) && Whole(s) == ToDecimal(whole) && Fraction(s) == fraction
    ensures UsdcAmountToRaw(s) == Ok(Units(whole, fraction))
  {
    ValueOfDecimal(whole);
    PointAfterDigits(ToDecimal(whole), fraction);
    PadEndDigits(fraction, 6);
    ValueOfPadded(fraction, 6 - |fraction|);
    if |fraction| == 6 { assert fraction + Zeros(0) == fraction; }
  }

  lemma PatternIsWritten(s: string)
    requires AmountPattern(s)
    ensures Writes(s, Value(Whole(s)), Fraction(s))
  {
    DecimalOfValue(Whole(s));
    PointIsPoint(s);
    if PointAt(s) < |s| { assert s == Whole(s) + "." + Fraction(s); } else { assert s == Whole(s); }
  }

  lemma {:induction false} PointIsPoint(s: string)
    ensures PointAt(s) < |s| ==> s[PointAt(s)] == '.'
  {
    if s != "" && s[0] != '.' { PointIsPoint(s[1..]); }
  }

  /** A text is an amount iff it writes one, and then its raw value is that many units. */
  lemma RawIffWritten(s: string, raw: nat)
    ensures UsdcAmountToRaw(s) == Ok(raw)
            <==> exists whole: nat, fraction :: Writes(s, whole, fraction) && Units(whole, fraction) == raw
  {
    if AmountPattern(s) {
      PatternIsWritten(s);
      WrittenIsPattern(s, Value(Whole(s)), Fraction(s));
    }
    forall whole: nat, fraction | Writes(s, whole, fraction) ensures UsdcAmountToRaw(s) == Ok(Units(whole, fraction)) {
      WrittenIsPattern(s, whole, fraction);
    }
  }

  /** A request amount is accepted iff it writes between one unit and 2^63 - 1 of them, and is returned as given. */
  lemma ParseAmountAccepts(s: string)
    ensures ParseAmount(s).Ok? <==> exists whole: nat, fraction ::
              Writes(s, whole, fraction) && 1 <= Units(whole, fraction) <= POSTGRES_BIGINT_MAX
    ensures ParseAmount(s).Ok? ==> ParseAmount(s).value == s
  {
    if AmountPattern(s) {
      RawIffWritten(s, UsdcAmountToRaw(s).value);
    }
    forall whole: nat, fraction | Writes(s, whole, fraction) ensures UsdcAmountToRaw(s) == Ok(Units(whole, fraction)) {
      WrittenIsPattern(s, whole, fraction);
    }
  }
}
