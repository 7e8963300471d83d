/** The few pieces of JavaScript runtime behaviour the chat code relies on, written out
    over unbounded integers and strings: the truncating `%` operator, the decimal
    `toString()` of an integral number, `String.prototype.padStart`, and the truthiness
    of an optional string. `DecimalValue` reads a digit string back, so that round trips
    through `toString()` can be stated. */
module Js {
  import opened Wrappers

  /** The quotient that JavaScript's `%` pairs with: division rounded toward zero. The
      divisors in this code (a catalogue length, 60) are never negative. */
  function TruncDiv(a: int, n: int): int
    requires n > 0
  {
    if a >= 0 then a / n else -((-a) / n)
  }

  /** JavaScript's `a % n` on integral numbers: the remainder takes the sign of the
      dividend, unlike Dafny's Euclidean `%` whose remainder is never negative. */
  function TruncRem(a: int, n: int): (r: int)
    requires n > 0
    ensures a == TruncDiv(a, n) * n + r
    ensures a >= 0 ==> 0 <= r < n
    ensures a < 0 ==> -n < r <= 0
  {
    if a >= 0 then a % n
    else
      var q := (-a) / n;
      assert -a == q * n + (-a) % n;
      assert TruncDiv(a, n) * n == -(q * n);
      -((-a) % n)
  }

  /** On a negative dividend that `n` does not divide, JavaScript's remainder is negative:
      it is Dafny's Euclidean remainder shifted down by `n`. On a multiple of `n` both are 0. */
  lemma TruncRemOfNegative(a: int, n: int)
    requires a < 0 && n > 0
    ensures a % n != 0 ==> TruncRem(a, n) == a % n - n && TruncRem(a, n) < 0
    ensures a % n == 0 <==> TruncRem(a, n) == 0
  {
    var r := TruncRem(a, n);
    var q := TruncDiv(a, n);
    assert a == q * n + r && -n < r <= 0;
    if r == 0 {
      EuclideanUnique(a, n, q, 0);
    } else {
      assert a == (q - 1) * n + (r + n);
      EuclideanUnique(a, n, q - 1, r + n);
    }
  }

  /** Dafny's `/` and `%` are the only quotient and remainder with `0 <= r < n`. */
  lemma EuclideanUnique(a: int, n: int, q: int, r: int)
    requires n > 0 && a == q * n + r && 0 <= r < n
    ensures q == a / n && r == a % n
  {
    var q', r' := a / n, a % n;
    assert a == q' * n + r' && 0 <= r' < n;
    assert (q - q') * n == r' - r;
    if q > q' {
      MulAtLeast(q - q', n);
    } else if q < q' {
      assert (q' - q) * n == r - r';
      MulAtLeast(q' - q, n);
    }
  }

  /** Adding the divisor leaves the Euclidean remainder unchanged. */
  lemma ModShift(x: int, n: int)
    requires n > 0
    ensures (x + n) % n == x % n
  {
    var q := x / n;
    assert x == q * n + x % n;
    assert (q + 1) * n == q * n + n;
    EuclideanUnique(x + n, n, q + 1, x % n);
  }

  lemma {:induction false} MulAtLeast(k: int, n: int)
    requires k >= 1 && n > 0
    ensures k * n >= n
  {
    if k > 1 {
      MulAtLeast(k - 1, n);
      assert k * n == (k - 1) * n + n;
    }
  }

  // ---------------------------------------------------------------------------
  // Decimal digits

  predicate IsDigit(c: char)
  {
    '0' <= c <= '9'
  }

  predicate IsDigits(s: string)
  {
    forall i :: 0 <= i < |s| ==> IsDigit(s[i])
  }

  function DigitChar(d: nat): (c: char)
    requires d < 10
    ensures IsDigit(c) && c as int - '0' as int == d
  {
    ('0' as int + d) as char
  }

  /** `n.toString()` for a non-negative integral number: its shortest decimal numeral. */
  function NatToString(n: nat): (s: string)
    ensures |s| >= 1 && IsDigits(s)
    ensures s[0] == '0' ==> n == 0
  {
    if n < 10 then [DigitChar(n)] else NatToString(n / 10) + [DigitChar(n % 10)]
  }

  /** `i.toString()` for any integral number: a minus sign before negative ones. */
  function IntToString(i: int): (s: string)
    ensures |s| >= 1
    ensures i >= 0 <==> IsDigits(s)
  {
    if i < 0 then
      var s := "-" + NatToString(-i);
      assert !IsDigit(s[0]);
      s
    else NatToString(i)
  }

  /** The value of a digit string, most significant digit first. */
  function DecimalValue(s: string): nat
    requires IsDigits(s)
  {
    if s == [] then 0
    else DecimalValue(s[..|s| - 1]) * 10 + (s[|s| - 1] as int - '0' as int)
  }

  /** `toString()` followed by reading the digits back gives the number itself. */
  lemma {:induction false} DecimalRoundTrip(n: nat)
    ensures DecimalValue(NatToString(n)) == n
  {
    if n >= 10 {
      var s := NatToString(n);
      assert s[..|s| - 1] == NatToString(n / 10);
      DecimalRoundTrip(n / 10);
    }
  }

  /** `toString()` of an integral number denotes it: the digits read back as the number
      itself, after a minus sign for a negative one. */
  lemma IntToStringValue(i: int)
    ensures var s := IntToString(i);
      (i >= 0 ==> DecimalValue(s) == i) &&
      (i < 0 ==> s[0] == '-' && IsDigits(s[1..]) && DecimalValue(s[1..]) == -i)
  {
    if i >= 0 {
      DecimalRoundTrip(i);
    } else {
      assert IntToString(i)[1..] == NatToString(-i);
      DecimalRoundTrip(-i);
    }
  }

  /** The numeral has one digit below 10, two below 100 and more from 100 on. */
  lemma {:induction false} NatToStringLength(n: nat)
    ensures n < 10 <==> |NatToString(n)| == 1
    ensures 10 <= n < 100 <==> |NatToString(n)| == 2
    ensures n >= 100 <==> |NatToString(n)| >= 3
  {
    if n >= 10 {
      NatToStringLength(n / 10);
    }
  }

  function Repeat(c: char, k: nat): (s: string)
    ensures |s| == k && forall i :: 0 <= i < k ==> s[i] == c
  {
    if k == 0 then [] else [c] + Repeat(c, k - 1)
  }

  /** `s.padStart(width, c)` with a one-character pad: `c` is put in front until the string
      is `width` long; a string already that long is returned as it is. */
  function PadStart(s: string, width: nat, c: char): (r: string)
    ensures |r| == if |s| >= width then |s| else width
    ensures r[|r| - |s|..] == s
    ensures forall i :: 0 <= i < |r| - |s| ==> r[i] == c
  {
    if |s| >= width then s else Repeat(c, width - |s|) + s
  }

  /** Zeros in front of a digit string do not change its value. */
  lemma {:induction false} LeadingZeros(k: nat, s: string)
    requires IsDigits(s)
    ensures IsDigits(Repeat('0', k) + s)
    ensures DecimalValue(Repeat('0', k) + s) == DecimalValue(s)
  {
    var z := Repeat('0', k);
    if s == [] {
      assert z + s == z;
      ZerosValue(k);
    } else {
      var init := s[..|s| - 1];
      assert (z + s)[..|z + s| - 1] == z + init;
      LeadingZeros(k, init);
    }
  }

  lemma {:induction false} ZerosValue(k: nat)
    ensures IsDigits(Repeat('0', k)) && DecimalValue(Repeat('0', k)) == 0
  {
    if k > 0 {
      var z := Repeat('0', k);
      assert z[..k - 1] == Repeat('0', k - 1);
      ZerosValue(k - 1);
    }
  }

  /** `padStart(w, "0")` on a numeral keeps its value. */
  lemma PaddedValue(n: nat, width: nat)
    ensures IsDigits(PadStart(NatToString(n), width, '0'))
    ensures DecimalValue(PadStart(NatToString(n), width, '0')) == n
  {
    var s := NatToString(n);
    DecimalRoundTrip(n);
    if |s| < width {
      LeadingZeros(width - |s|, s);
    }
  }

  // ---------------------------------------------------------------------------
  // Truthiness

  /** `if (x)` on a value that is a string or absent: `undefined`, `null` and `""` are
      falsy, every other string is truthy. */
  predicate Truthy(x: Option<string>)
  {
    x.Some? && x.value != ""
  }
}
