/** JavaScript's decimal strings: `String(n)`, `BigInt(s)`, `padStart`, `padEnd` and zero stripping. */
module Decimals {
  predicate IsDigit(c: char) { '0' <= c <= '9' }

  predicate AllDigits(s: string) { forall i :: 0 <= i < |s| ==> IsDigit(s[i]) }

  /** The pattern /^(0|[1-9]\d*)$/. */
  predicate Canonical(s: string) {
    s != "" && AllDigits(s) && (|s| > 1 ==> s[0] != '0')
  }

  function DigitChar(d: nat): char
    requires d <= 9
  {
    '0' + d as char
  }

  function DigitValue(c: char): nat
    requires IsDigit(c)
  {
    c as int - '0' as int
  }

  /** `BigInt(s)` on a string of digits, with the empty string read as zero. */
  function Value(s: string): nat
    requires AllDigits(s)
  {
    if s == "" then 0 else Value(s[..|s| - 1]) * 10 + DigitValue(s[|s| - 1])
  }

  /** `String(n)` of a non-negative integer. */
  function ToDecimal(n: nat): string {
    if n < 10 then [DigitChar(n)] else ToDecimal(n / 10) + [DigitChar(n % 10)]
  }

  function Pow10(d: nat): (p: nat)
    ensures p > 0
  {
    if d == 0 then 1 else 10 * Pow10(d - 1)
  }

  function Zeros(k: nat): string { seq(k, _ => '0') }

  function PadStart(s: string, width: nat): string {
    if |s| < width then Zeros(width - |s|) + s else s
  }

  function PadEnd(s: string, width: nat): string {
    if |s| < width then s + Zeros(width - |s|) else s
  }

  /** `s.replace(/0+$/, "")`. */
  function StripZeros(s: string): string {
    if s != "" && s[|s| - 1] == '0' then StripZeros(s[..|s| - 1]) else s
  }

  /** The last d decimal digits of n, leading zeros kept. */
  function FixedDigits(n: nat, d: nat): (r: string)
    ensures |r| == d && AllDigits(r)
  {
    if d == 0 then "" else FixedDigits(n / 10, d - 1) + [DigitChar(n % 10)]
  }

  /** n without its last d decimal digits. */
  function Shift(n: nat, d: nat): nat {
    if d == 0 then n else Shift(n / 10, d - 1)
  }

  lemma {:induction false} ValueOfDecimal(n: nat)
    ensures Canonical(ToDecimal(n)) && Value(ToDecimal(n)) == n
    ensures n > 0 ==> ToDecimal(n)[0] != '0'
  {
    if n >= 10 {
      ValueOfDecimal(n / 10);
      assert ToDecimal(n)[..|ToDecimal(n)| - 1] == ToDecimal(n / 10);
    }
  }

  lemma {:induction false} DecimalOfValue(s: string)
    requires Canonical(s)
    ensures ToDecimal(Value(s)) == s
  {
    var front := s[..|s| - 1];
    if |s| == 1 {
      assert s == [s[0]];
    } else {
      DecimalOfValue(front);
      ValueIsPositive(front);
      assert s == front + [s[|s| - 1]];
    }
  }

  lemma {:induction false} ValueIsPositive(s: string)
    requires Canonical(s) && s[0] != '0'
    ensures Value(s) > 0
  {
    if |s| > 1 { ValueIsPositive(s[..|s| - 1]); }
  }

  /** Printing is injective, so a printed number identifies it. */
  lemma DecimalInjective(m: nat, n: nat)
    requires ToDecimal(m) == ToDecimal(n)
    ensures m == n
  {
    ValueOfDecimal(m);
    ValueOfDecimal(n);
  }

  lemma {:induction false} DivPow10(n: nat, d: nat)
    requires d > 0
    ensures n / 10 / Pow10(d - 1) == n / Pow10(d)
    ensures n % Pow10(d) == (n / 10) % Pow10(d - 1) * 10 + n % 10
  {
    var p := Pow10(d - 1);
    var q := n / 10 / p;
    var r := (n / 10) % p;
    assert n / 10 == q * p + r;
    assert n == 10 * (q * p + r) + n % 10;
    assert n == q * (10 * p) + (10 * r + n % 10) by { assert 10 * (q * p) == q * (10 * p); }
    Unique(n, 10 * p, q, 10 * r + n % 10);
  }

  lemma {:induction false} ShiftIsQuotient(n: nat, d: nat)
    ensures Shift(n, d) == n / Pow10(d)
  {
    if d == 0 {
      assert n / 1 == n;
    } else {
      ShiftIsQuotient(n / 10, d - 1);
      DivPow10(n, d);
    }
  }

  lemma Multiples(k: int, p: int)
    requires p >= 0
    ensures k >= 1 ==> k * p >= p
    ensures k <= -1 ==> k * p <= -p
  {
  }

  lemma DivMod(n: nat, p: nat)
    requires p > 0
    ensures n / p * p + n % p == n && n % p < p && n % p % p == n % p
  {
  }

  lemma Unique(n: nat, p: nat, q: nat, r: nat)
    requires p > 0 && n == q * p + r && r < p
    ensures n / p == q && n % p == r
  {
    var k := n / p - q;
    assert (n / p) * p + n % p == q * p + r;
    assert k * p == r - n % p;
    Multiples(k, p);
  }

  lemma {:induction false} ValueOfFixedDigits(n: nat, d: nat)
    ensures Value(FixedDigits(n, d)) == n % Pow10(d)
  {
    if d > 0 {
      ValueOfFixedDigits(n / 10, d - 1);
      DivPow10(n, d);
      assert FixedDigits(n, d)[..d - 1] == FixedDigits(n / 10, d - 1);
    }
  }

  lemma {:induction false} FixedDigitsOfValue(n: nat, s: string)
    requires AllDigits(s) && n % Pow10(|s|) == Value(s)
    ensures FixedDigits(n, |s|) == s
  {
    if s != "" {
      var front, last := s[..|s| - 1], DigitValue(s[|s| - 1]);
      DivPow10(n, |s|);
      assert (n / 10) % Pow10(|s| - 1) * 10 + n % 10 == Value(front) * 10 + last;
      FixedDigitsOfValue(n / 10, front);
      assert s == front + [s[|s| - 1]];
    }
  }

  lemma {:induction false} ValueBelowPow10(s: string)
    requires AllDigits(s)
    ensures Value(s) < Pow10(|s|)
  {
    if s != "" { ValueBelowPow10(s[..|s| - 1]); }
  }

  lemma PadStartStep(n: nat, d: nat)
    requires d > 0
    ensures PadStart(ToDecimal(n), d + 1) == PadStart(ToDecimal(n / 10), d) + [DigitChar(n % 10)]
  {
    if n < 10 {
      assert ToDecimal(n / 10) == "0";
      assert Zeros(d) == Zeros(d - 1) + "0";
    }
  }

  /** Padding to one more than d places separates the whole part from exactly d fraction digits. */
  lemma {:induction false} PaddedSplits(n: nat, d: nat)
    ensures PadStart(ToDecimal(n), d + 1) == ToDecimal(Shift(n, d)) + FixedDigits(n, d)
  {
    if d == 0 {
      ValueOfDecimal(n);
    } else {
      PaddedSplits(n / 10, d - 1);
      PadStartStep(n, d);
    }
  }

  lemma {:induction false} PadStartIsFixed(n: nat, d: nat)
    requires d > 0 && n < Pow10(d)
    ensures PadStart(ToDecimal(n), d) == FixedDigits(n, d)
  {
    if d == 1 {
      assert n / 10 == 0 && Pow10(0) == 1;
      assert FixedDigits(n, 1) == FixedDigits(0, 0) + [DigitChar(n)];
    } else {
      PadStartIsFixed(n / 10, d - 1);
      PadStartStep(n, d - 1);
    }
  }

  lemma {:induction false} StripThenPad(s: string, d: nat)
    requires |s| <= d
    ensures |StripZeros(s)| <= |s|
    ensures PadEnd(StripZeros(s), d) == PadEnd(s, d)
  {
    if s != "" && s[|s| - 1] == '0' {
      StripThenPad(s[..|s| - 1], d);
      assert s == s[..|s| - 1] + "0";
      assert PadEnd(s[..|s| - 1], d) == PadEnd(s, d);
    }
  }

  lemma {:induction false} PadThenStrip(s: string, k: nat)
    ensures StripZeros(s + Zeros(k)) == StripZeros(s)
  {
    if k == 0 {
      assert s + Zeros(0) == s;
    } else {
      var t := s + Zeros(k);
      assert t[..|t| - 1] == s + Zeros(k - 1);
      PadThenStrip(s, k - 1);
    }
  }

  lemma {:induction false} StripZerosIsPrefix(s: string)
    ensures StripZeros(s) <= s
    ensures StripZeros(s) != "" ==> StripZeros(s)[|StripZeros(s)| - 1] != '0'
  {
    if s != "" && s[|s| - 1] == '0' { StripZerosIsPrefix(s[..|s| - 1]); }
  }
}
