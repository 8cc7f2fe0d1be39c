/**
 The canonical byte encoding of a Devnet preparation policy, whose hash identifies the policy.
 A field is its UTF-8 bytes, one character per byte.
 */
module PolicyEncoding {
  import opened Wrappers
  import opened Decimals

  datatype Policy = Policy(
    schema: string, version: nat, executionMode: string, rail: string, network: string,
    mint: string, decimals: nat, sourceTokenAccount: string,
    signerKeyId: string, signerKeyVersion: string, signerPublicKey: string,
    submissionProvider: string, reconciliationProvider: string,
    destinationPolicy: string, amountPolicy: string)

  function Fields(p: Policy): seq<string> {
    [p.schema, ToDecimal(p.version), p.executionMode, p.rail, p.network, p.mint, ToDecimal(p.decimals),
     p.sourceTokenAccount, p.signerKeyId, p.signerKeyVersion, p.signerPublicKey,
     p.submissionProvider, p.reconciliationProvider, p.destinationPolicy, p.amountPolicy]
  }

  /** Byte length, colon, bytes. */
  function Item(value: string): string { ToDecimal(|value|) + ":" + value }

  /** `values.map(item).join("|")`. */
  function Joined(values: seq<string>): string
    decreases |values|, 1
  {
    if values == [] then "" else Item(values[0]) + Separated(values[1..])
  }

  function Separated(values: seq<string>): string
    decreases |values|, 2
  {
    if values == [] then "" else "|" + Joined(values)
  }

  function CanonicalizeDevnetPolicy(policy: Policy): string { Joined(Fields(policy)) }

  /** Length of the leading run of digits. */
  function DigitRun(s: string): (n: nat)
    ensures n <= |s| && AllDigits(s[..n])
  {
    if s == "" || !IsDigit(s[0]) then 0 else 1 + DigitRun(s[1..])
  }

  lemma {:induction false} DigitRunStops(digits: string, rest: string)
    requires AllDigits(digits)
    ensures DigitRun(digits + ":" + rest) == |digits|
  {
    var s := digits + ":" + rest;
    if digits == "" {
      assert s[0] == ':';
    } else {
      DigitRunStops(digits[1..], rest);
      assert s[1..] == digits[1..] + ":" + rest;
    }
  }

  lemma SameSplit(a: string, x: string, b: string, y: string)
    requires a + x == b + y && |a| == |b|
    ensures a == b && x == y
  {
    assert a == (a + x)[..|a|] && b == (b + y)[..|b|];
    assert x == (a + x)[|a|..] && y == (b + y)[|b|..];
  }

  lemma ItemStarts(v: string, r: string)
    ensures Item(v) + r == ToDecimal(|v|) + (":" + (v + r))
    ensures DigitRun(Item(v) + r) == |ToDecimal(|v|)|
  {
    ValueOfDecimal(|v|);
    DigitRunStops(ToDecimal(|v|), v + r);
    assert Item(v) + r == ToDecimal(|v|) + ":" + (v + r);
  }

  /** The length prefix delimits the value, whatever bytes the value and the rest hold. */
  lemma ItemIsPrefixFree(v: string, r: string, w: string, t: string)
    requires Item(v) + r == Item(w) + t
    ensures v == w && r == t
  {
    ItemStarts(v, r);
    ItemStarts(w, t);
    SameSplit(ToDecimal(|v|), ":" + (v + r), ToDecimal(|w|), ":" + (w + t));
    DecimalInjective(|v|, |w|);
    SameSplit(":", v + r, ":", w + t);
    SameSplit(v, r, w, t);
  }

  /** Equal encodings come from equal field lists, of any length. */
  lemma {:induction false} JoinedInjective(a: seq<string>, b: seq<string>)
    requires Joined(a) == Joined(b)
    ensures a == b
  {
    if a != [] && b != [] {
      ItemIsPrefixFree(a[0], Separated(a[1..]), b[0], Separated(b[1..]));
      if |a| > 1 && |b| > 1 {
        SameSplit("|", Joined(a[1..]), "|", Joined(b[1..]));
        JoinedInjective(a[1..], b[1..]);
      }
      assert a == [a[0]] + a[1..] && b == [b[0]] + b[1..];
    }
  }

  lemma CanonicalEncodingInjective(p: Policy, q: Policy)
    ensures CanonicalizeDevnetPolicy(p) == CanonicalizeDevnetPolicy(q) <==> p == q
    ensures |Fields(p)| == 15
  {
    if CanonicalizeDevnetPolicy(p) == CanonicalizeDevnetPolicy(q) {
      JoinedInjective(Fields(p), Fields(q));
      var f, g := Fields(p), Fields(q);
      assert forall i :: 0 <= i < 15 ==> f[i] == g[i];
      assert f[1] == g[1] && f[6] == g[6];
      DecimalInjective(p.version, q.version);
      DecimalInjective(p.decimals, q.decimals);
      SameFields(p, q);
    }
  }

  lemma SameFields(p: Policy, q: Policy)
    requires Fields(p) == Fields(q) && p.version == q.version && p.decimals == q.decimals
    ensures p == q
  {
    var f, g := Fields(p), Fields(q);
    assert f[0] == g[0] && f[2] == g[2] && f[3] == g[3] && f[4] == g[4] && f[5] == g[5];
    assert f[7] == g[7] && f[8] == g[8] && f[9] == g[9] && f[10] == g[10];
    assert f[11] == g[11] && f[12] == g[12] && f[13] == g[13] && f[14] == g[14];
  }

  // ---- reading back ----------------------------------------------------------------------------------

  /** Reads length-prefixed fields separated by bars, to the end of the text. */
  function ReadItems(s: string): Option<seq<string>>
    decreases |s|
  {
    var n := DigitRun(s);
    if n == |s| || s[n] != ':' then None
    else
      var rest, length := s[n + 1..], Value(s[..n]);
      if |rest| < length then None
      else if |rest| == length then Some([rest])
      else if rest[length] != '|' then None
      else match ReadItems(rest[length + 1..])
        case None => None
        case Some(others) => Some([rest[..length]] + others)
  }

  lemma FirstItem(v: string, rest: string)
    ensures var s, n := Item(v) + rest, |ToDecimal(|v|)|;
            && DigitRun(s) == n < |s| && s[n] == ':' && AllDigits(s[..n]) && Value(s[..n]) == |v|
            && s[n + 1..] == v + rest
  {
    ItemStarts(v, rest);
    ValueOfDecimal(|v|);
    var s, n := Item(v) + rest, |ToDecimal(|v|)|;
    assert s[..n] == ToDecimal(|v|) && s[n..] == ":" + (v + rest);
  }

  lemma ReadsLast(v: string)
    ensures ReadItems(Item(v)) == Some([v])
  {
    FirstItem(v, "");
    assert Item(v) + "" == Item(v) && v + "" == v;
  }

  lemma ReadsMore(v: string, tail: string, others: seq<string>)
    requires ReadItems(tail) == Some(others)
    ensures ReadItems(Item(v) + ("|" + tail)) == Some([v] + others)
  {
    var rest := "|" + tail;
    FirstItem(v, rest);
    assert (v + rest)[..|v|] == v && (v + rest)[|v|] == '|' && (v + rest)[|v| + 1..] == tail;
  }

  lemma {:induction false} ItemsReadBack(values: seq<string>)
    requires values != []
    ensures ReadItems(Joined(values)) == Some(values)
  {
    assert values == [values[0]] + values[1..];
    if |values| == 1 {
      ReadsLast(values[0]);
      assert values[1..] == [] && Joined(values) == Item(values[0]) + "" == Item(values[0]);
      assert [values[0]] == values;
    } else {
      ItemsReadBack(values[1..]);
      ReadsMore(values[0], Joined(values[1..]), values[1..]);
    }
  }

  /** Reading the canonical bytes gives the policy's fields back, each in its own place. */
  lemma PolicyReadsBack(p: Policy)
    ensures ReadItems(CanonicalizeDevnetPolicy(p))
            == Some([p.schema, ToDecimal(p.version), p.executionMode, p.rail, p.network, p.mint, ToDecimal(p.decimals),
                     p.sourceTokenAccount, p.signerKeyId, p.signerKeyVersion, p.signerPublicKey, p.submissionProvider,
                     p.reconciliationProvider, p.destinationPolicy, p.amountPolicy])
  {
    ItemsReadBack(Fields(p));
  }
}
