/**
 * Decimal rendering of integers: `String(n)` and `String(n).padStart(2, "0")`,
 * and fixed-width digit strings, whose code-point order is numeric order.
 */
module Numerals {
  import opened Text

  function DigitChar(d: nat): (c: char)
    requires d < 10
    ensures '0' <= c <= '9'
  {
    ('0' as int + d) as char
  }

  function Pow10(k: nat): (p: nat)
    ensures p >= 1
  {
    if k == 0 then 1 else 10 * Pow10(k - 1)
  }

  lemma Pow10Values()
    ensures Pow10(1) == 10 && Pow10(2) == 100 && Pow10(3) == 1000 && Pow10(4) == 10000
  {
    assert Pow10(0) == 1;
  }

  /** `String(n)` for a non-negative integer: no leading zero except for 0 itself. */
  function NatToString(n: nat): (r: string)
    ensures |r| >= 1 && forall i :: 0 <= i < |r| ==> '0' <= r[i] <= '9'
    ensures |r| > 1 ==> r[0] != '0'
  {
    if n < 10 then [DigitChar(n)] else NatToString(n / 10) + [DigitChar(n % 10)]
  }

  /** `String(i)` for any integer. */
  function IntToString(i: int): (r: string)
    ensures |r| >= 1
    ensures (r[0] == '-') <==> i < 0
  {
    if i < 0 then "-" + NatToString(-i) else NatToString(i)
  }

  /** `s.padStart(2, "0")` */
  function PadStart2(s: string): (r: string)
    ensures |r| == if |s| >= 2 then |s| else 2
    ensures r[|r| - |s|..] == s
    ensures forall i :: 0 <= i < |r| - |s| ==> r[i] == '0'
  {
    if |s| >= 2 then s else if |s| == 1 then "0" + s else "00"
  }

  /** The last `k` decimal digits of `n`, most significant first. */
  function Digits(n: nat, k: nat): (r: string)
    ensures |r| == k
  {
    if k == 0 then [] else Digits(n / 10, k - 1) + [DigitChar(n % 10)]
  }

  lemma {:induction false} DivBound(n: nat, k: nat)
    requires k >= 1 && n < Pow10(k)
    ensures n / 10 < Pow10(k - 1)
  {
  }

  /** Fixed-width digit strings of numbers below 10^k: equal iff equal, ordered as the numbers are. */
  lemma {:induction false} DigitsOrder(n: nat, m: nat, k: nat)
    requires n < Pow10(k) && m < Pow10(k)
    ensures Digits(n, k) == Digits(m, k) <==> n == m
    ensures LexLess(Digits(n, k), Digits(m, k)) <==> n < m
  {
    if k == 0 {
    } else {
      DivBound(n, k);
      DivBound(m, k);
      DigitsOrder(n / 10, m / 10, k - 1);
      var dn, dm := [DigitChar(n % 10)], [DigitChar(m % 10)];
      LexLessConcat(Digits(n / 10, k - 1), dn, Digits(m / 10, k - 1), dm);
      assert Digits(n, k) == Digits(m, k) <==> Digits(n / 10, k - 1) == Digits(m / 10, k - 1) && dn == dm by {
        var a, b := Digits(n, k), Digits(m, k);
        if a == b {
          assert a[..k - 1] == b[..k - 1] && a[k - 1] == b[k - 1];
        }
      }
      assert LexLess(dn, dm) <==> n % 10 < m % 10;
    }
  }

  /** For a number with exactly `k` digits, `String(n)` is its fixed-width rendering. */
  lemma {:induction false} NatToStringIsDigits(n: nat, k: nat)
    requires k >= 1 && Pow10(k - 1) <= n < Pow10(k)
    ensures NatToString(n) == Digits(n, k)
  {
    if n >= 10 {
      assert k >= 2;
      NatToStringIsDigits(n / 10, k - 1);
    } else {
      assert k == 1;
    }
  }

  /** `String(n).padStart(2, "0")` is the two-digit rendering of n, for 0 <= n < 100. */
  lemma Pad2IsDigits(n: nat)
    requires n < 100
    ensures PadStart2(NatToString(n)) == Digits(n, 2)
  {
    if n < 10 {
      Pad2OneDigit(n);
    } else {
      Pow10Values();
      NatToStringIsDigits(n, 2);
    }
  }

  lemma Pad2OneDigit(n: nat)
    requires n < 10
    ensures PadStart2(NatToString(n)) == Digits(n, 2)
  {
    assert n / 10 == 0 && n % 10 == n;
    var d := DigitChar(n);
    assert NatToString(n) == [d];
    assert Digits(0, 1) == [DigitChar(0)];
    assert Digits(n, 2) == Digits(0, 1) + [d];
  }
}
