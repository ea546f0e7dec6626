/** Decimal rendering of counters, and the strings built from it. */
module Decimals {

  function Digit(d: nat): char
    requires d < 10
  {
    "0123456789"[d]
  }

  predicate IsDigit(c: char) {
    '0' <= c <= '9'
  }

  /** str(n) */
  function Decimal(n: nat): (s: string)
    ensures s != "" && forall c :: c in s ==> IsDigit(c)
  {
    if n < 10 then [Digit(n)] else Decimal(n / 10) + [Digit(n % 10)]
  }

  function DigitValue(c: char): nat
    requires IsDigit(c)
  {
    (c as int) - ('0' as int)
  }

  /** int(s) */
  function Value(s: string): nat
    requires forall c :: c in s ==> IsDigit(c)
  {
    if s == "" then 0 else 10 * Value(s[..|s| - 1]) + DigitValue(s[|s| - 1])
  }

  lemma {:induction false} ValueOfDecimal(n: nat)
    ensures Value(Decimal(n)) == n
  {
    if 10 <= n {
      ValueOfDecimal(n / 10);
      var s := Decimal(n);
      assert s[..|s| - 1] == Decimal(n / 10);
      assert DigitValue(s[|s| - 1]) == n % 10;
    } else {
      assert Decimal(n)[..0] == "";
      assert DigitValue(Digit(n)) == n;
    }
  }

  lemma DecimalInjective(a: nat, b: nat)
    requires Decimal(a) == Decimal(b)
    ensures a == b
  {
    ValueOfDecimal(a);
    ValueOfDecimal(b);
  }

  /** f"{a}:{b}" */
  function Pair(a: nat, b: nat): string {
    Decimal(a) + ":" + Decimal(b)
  }

  /** The rendered pair determines both counters. */
  lemma PairInjective(a: nat, b: nat, c: nat, d: nat)
    requires Pair(a, b) == Pair(c, d)
    ensures a == c && b == d
  {
    var s, t, x, y := Pair(a, b), Pair(c, d), Decimal(a), Decimal(c);
    assert !IsDigit(':');
    assert s[|x|] == ':' && t[|y|] == ':';
    assert forall i :: 0 <= i < |x| ==> s[i] == x[i] && x[i] in x && IsDigit(s[i]);
    assert forall i :: 0 <= i < |y| ==> t[i] == y[i] && y[i] in y && IsDigit(t[i]);
    assert |x| == |y|;
    assert x == s[..|x|] && y == t[..|y|];
    assert Decimal(b) == s[|x| + 1..] && Decimal(d) == t[|y| + 1..];
    DecimalInjective(a, c);
    DecimalInjective(b, d);
  }

  function TenTo(k: nat): nat {
    if k == 0 then 1 else 10 * TenTo(k - 1)
  }

  lemma {:induction false} DecimalLength(n: nat, k: nat)
    requires 1 <= k && n < TenTo(k)
    ensures |Decimal(n)| <= k
  {
    if n >= 10 {
      assert k > 1;
      DecimalLength(n / 10, k - 1);
    }
  }

  /** A number is below the power of ten that its rendering is long. */
  lemma {:induction false} DecimalBound(n: nat)
    ensures n < TenTo(|Decimal(n)|)
  {
    if n >= 10 {
      DecimalBound(n / 10);
      assert |Decimal(n)| == |Decimal(n / 10)| + 1;
    }
  }
}
