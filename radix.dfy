/**
 * Digit strings in bases 2 to 16: what `toString(radix)` on a JavaScript
 * number or bigint produces, and the value a digit string denotes (what
 * `BigInt("0x...")` and `parseInt(s, 10)` read back).
 */
module Radix {
  import opened JsString

  function Pow(b: nat, k: nat): (r: nat)
    ensures b >= 1 ==> r >= 1
  {
    if k == 0 then 1 else b * Pow(b, k - 1)
  }

  predicate IsHexDigit(c: char)
  {
    '0' <= c <= '9' || 'a' <= c <= 'f' || 'A' <= c <= 'F'
  }

  /** The value of one digit; upper- and lower-case letters read the same. */
  function DigitValue(c: char): (d: nat)
    requires IsHexDigit(c)
    ensures d < 16
    ensures d == 0 <==> c == '0'
  {
    if '0' <= c <= '9' then c as nat - '0' as nat
    else if 'a' <= c <= 'f' then c as nat - 'a' as nat + 10
    else c as nat - 'A' as nat + 10
  }

  predicate IsDigitIn(c: char, base: nat)
  {
    IsHexDigit(c) && DigitValue(c) < base
  }

  predicate AllDigitsIn(s: string, base: nat)
  {
    forall i :: 0 <= i < |s| ==> IsDigitIn(s[i], base)
  }

  /** No upper-case letter: the only spelling `toString(radix)` produces. */
  predicate IsLowerCase(s: string)
  {
    forall i :: 0 <= i < |s| ==> !('A' <= s[i] <= 'Z')
  }

  /** The lower-case digit for `d`. */
  function DigitChar(d: nat): (c: char)
    requires d < 16
    ensures IsHexDigit(c) && DigitValue(c) == d && !('A' <= c <= 'Z')
  {
    if d < 10 then ('0' as nat + d) as char else ('a' as nat + d - 10) as char
  }

  /**
   * `n.toString(base)` for a non-negative `n`: the digits of `n`, most
   * significant first, lower case, with no leading zero ("0" for zero).
   */
  function ToDigits(n: nat, base: nat): (r: string)
    requires 2 <= base <= 16
    ensures r != [] && AllDigitsIn(r, base) && IsLowerCase(r)
    ensures r[0] == '0' <==> n == 0
    decreases n
  {
    DivFacts(n, base);
    if n < base then [DigitChar(n)] else ToDigits(n / base, base) + [DigitChar(n % base)]
  }

  /** `n.toString(base)` for any bigint `n`: a minus sign, then the digits of `-n`. */
  function ToStringRadix(n: int, base: nat): (r: string)
    requires 2 <= base <= 16
    ensures n >= 0 ==> r == ToDigits(n, base)
    ensures n < 0 ==> r == "-" + ToDigits(-n, base)
  {
    if n < 0 then "-" + ToDigits(-n, base) else ToDigits(n, base)
  }

  /** The number a digit string denotes in `base`; the empty string denotes 0. */
  function Value(s: string, base: nat): nat
    requires 2 <= base <= 16 && AllDigitsIn(s, base)
    decreases |s|
  {
    if s == [] then 0
    else
      var p := s[..|s| - 1];
      assert forall i :: 0 <= i < |p| ==> p[i] == s[i];
      var x := Value(p, base);
      MulMonotone(0, x, base);
      x * base + DigitValue(s[|s| - 1])
  }

  /** Euclidean division by a base: quotient and remainder recompose `n`. */
  lemma DivFacts(n: nat, b: nat)
    requires 2 <= b
    ensures (n / b) * b + n % b == n && 0 <= n % b < b
    ensures n >= b ==> 1 <= n / b < n
  {
  }

  lemma SmallMultiple(k: int, b: int)
    requires b > 0 && -b < k * b < b
    ensures k == 0
  {
  }

  lemma MulMonotone(a: int, b: int, c: int)
    requires a <= b && c >= 0
    ensures a * c <= b * c
  {
  }

  lemma MulCancelLt(a: int, b: int, c: int)
    requires c > 0 && a * c < b * c
    ensures a < b
  {
  }

  lemma MulAtLeast(x: int, b: int)
    requires x >= 1 && b >= 0
    ensures x * b >= b
  {
  }

  /** A lower-case digit is spelled back the same. */
  lemma DigitCharOfValue(c: char)
    requires IsHexDigit(c) && !('A' <= c <= 'Z')
    ensures DigitChar(DigitValue(c)) == c
  {
  }

  /** Quotient and remainder of `x * b + d` are `x` and `d` when `d` is a digit. */
  lemma DivModOfCombination(x: nat, d: nat, b: nat)
    requires 2 <= b && d < b
    ensures (x * b + d) / b == x && (x * b + d) % b == d
  {
    var n := x * b + d;
    DivFacts(n, b);
    assert (n / b - x) * b == d - n % b;
    SmallMultiple(n / b - x, b);
  }

  /** Reading back the digits of `n` gives `n`. */
  lemma {:induction false} ValueOfDigits(n: nat, base: nat)
    requires 2 <= base <= 16
    ensures Value(ToDigits(n, base), base) == n
    decreases n
  {
    if n >= base {
      var q, r := n / base, n % base;
      DivFacts(n, base);
      var p := ToDigits(q, base);
      var s := ToDigits(n, base);
      assert s == p + [DigitChar(r)];
      assert s[..|s| - 1] == p;
      ValueOfDigits(q, base);
      assert Value(s, base) == Value(p, base) * base + r;
    }
  }

  /** Leading zeros do not change the value of a digit string. */
  lemma {:induction false} ValueLeadingZeros(k: nat, s: string, base: nat)
    requires 2 <= base <= 16 && AllDigitsIn(s, base)
    ensures AllDigitsIn(Repeat('0', k) + s, base)
    ensures Value(Repeat('0', k) + s, base) == Value(s, base)
    decreases |s|
  {
    var z := Repeat('0', k);
    assert AllDigitsIn(z + s, base) by {
      forall i | 0 <= i < |z + s| ensures IsDigitIn((z + s)[i], base) {
        if i >= |z| { assert (z + s)[i] == s[i - |z|]; }
      }
    }
    if s == [] {
      assert z + s == z;
      ZerosValue(k, base);
    } else {
      assert (z + s)[..|z + s| - 1] == z + s[..|s| - 1];
      ValueLeadingZeros(k, s[..|s| - 1], base);
    }
  }

  lemma {:induction false} ZerosValue(k: nat, base: nat)
    requires 2 <= base <= 16
    ensures AllDigitsIn(Repeat('0', k), base)
    ensures Value(Repeat('0', k), base) == 0
    decreases k
  {
    if k > 0 {
      assert Repeat('0', k)[..k - 1] == Repeat('0', k - 1);
      ZerosValue(k - 1, base);
    }
  }

  /** A digit string is worth at least its leading digit. */
  lemma {:induction false} ValueAtLeastLeadingDigit(s: string, base: nat)
    requires 2 <= base <= 16 && AllDigitsIn(s, base) && s != []
    ensures Value(s, base) >= DigitValue(s[0])
    decreases |s|
  {
    if |s| > 1 {
      var p := s[..|s| - 1];
      var x := Value(p, base);
      ValueAtLeastLeadingDigit(p, base);
      assert p[0] == s[0];
      assert Value(s, base) == x * base + DigitValue(s[|s| - 1]);
      MulGrows(x, base);
    }
  }

  lemma MulGrows(x: nat, b: nat)
    requires b >= 1
    ensures x * b >= x
  {
    MulMonotone(1, b, x);
  }

  /**
   * A lower-case digit string without a leading zero is exactly what
   * `toString(base)` prints for its value.
   */
  lemma {:induction false} DigitsOfValue(s: string, base: nat)
    requires 2 <= base <= 16 && AllDigitsIn(s, base) && IsLowerCase(s)
    requires s != [] && (|s| == 1 || s[0] != '0')
    ensures ToDigits(Value(s, base), base) == s
    decreases |s|
  {
    if |s| > 1 {
      var p := s[..|s| - 1];
      var v := Value(s, base);
      LastDigitSplit(s, base);
      DigitsOfValue(p, base);
      assert ToDigits(v, base) == ToDigits(v / base, base) + [DigitChar(v % base)];
      DigitCharOfValue(s[|s| - 1]);
      assert s == p + [s[|s| - 1]];
    }
  }

  /** Dividing the value by the base drops the last digit, which is the remainder. */
  lemma LastDigitSplit(s: string, base: nat)
    requires 2 <= base <= 16 && AllDigitsIn(s, base) && |s| > 1 && s[0] != '0'
    ensures Value(s, base) >= base
    ensures Value(s, base) / base == Value(s[..|s| - 1], base)
    ensures Value(s, base) % base == DigitValue(s[|s| - 1])
  {
    var p := s[..|s| - 1];
    var x := Value(p, base);
    ValueAtLeastLeadingDigit(p, base);
    MulAtLeast(x, base);
    DivModOfCombination(x, DigitValue(s[|s| - 1]), base);
  }

  /** Below `base^k` the digits fit in `k` places. */
  lemma {:induction false} DigitsLengthBelow(n: nat, base: nat, k: nat)
    requires 2 <= base <= 16 && 1 <= k && n < Pow(base, k)
    ensures |ToDigits(n, base)| <= k
    decreases k
  {
    if n >= base {
      var m := Pow(base, k - 1);
      PowStep(base, k);
      assert k != 1;
      var q := n / base;
      DivFacts(n, base);
      assert q * base <= n < m * base;
      MulCancelLt(q, m, base);
      DigitsLengthBelow(q, base, k - 1);
      assert ToDigits(n, base) == ToDigits(q, base) + [DigitChar(n % base)];
    }
  }

  /** From `base^k` on, the digits need more than `k` places. */
  lemma {:induction false} DigitsLengthAtLeast(n: nat, base: nat, k: nat)
    requires 2 <= base <= 16 && n >= Pow(base, k)
    ensures |ToDigits(n, base)| > k
    decreases k
  {
    if k > 0 {
      var m := Pow(base, k - 1);
      PowStep(base, k);
      MulAtLeast(m, base);
      assert n >= base;
      var q := n / base;
      DivFacts(n, base);
      assert m * base < (q + 1) * base;
      MulCancelLt(m, q + 1, base);
      DigitsLengthAtLeast(q, base, k - 1);
      assert ToDigits(n, base) == ToDigits(q, base) + [DigitChar(n % base)];
    }
  }

  /** One more factor of the base. */
  lemma PowStep(b: nat, k: nat)
    requires b >= 1 && k >= 1
    ensures Pow(b, k) == Pow(b, k - 1) * b && Pow(b, k - 1) >= 1
  {
  }

  /** `2^(4k) == 16^k`, so 2^256 is 16^64. */
  lemma {:induction false} PowTwoSixteen(k: nat)
    ensures Pow(2, 4 * k) == Pow(16, k)
  {
    if k > 0 {
      PowTwoSixteen(k - 1);
      var m := 4 * k;
      calc {
        Pow(2, m);
        2 * Pow(2, m - 1);
        2 * (2 * Pow(2, m - 2));
        2 * (2 * (2 * Pow(2, m - 3)));
        2 * (2 * (2 * (2 * Pow(2, m - 4))));
        16 * Pow(16, k - 1);
      }
    }
  }
}
