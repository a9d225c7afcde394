/** Python's decimal rendering of integers (`str(int)`) and `str.zfill`,
    as used to write integer option values and the three-digit counters of
    numbered file names, with the reading back that shows each rendering
    determines its number. */
module Decimal {

  predicate IsDigit(c: char)
  {
    '0' <= c <= '9'
  }

  predicate AllDigits(s: string)
  {
    forall i :: 0 <= i < |s| ==> IsDigit(s[i])
  }

  function DigitChar(d: nat): (c: char)
    requires d < 10
    ensures IsDigit(c)
    ensures DigitValue(c) == d
  {
    "0123456789"[d]
  }

  function DigitValue(c: char): (d: nat)
    requires IsDigit(c)
    ensures d < 10
  {
    (c as int) - ('0' as int)
  }

  /** The number a string of decimal digits denotes; leading zeros add
      nothing. */
  function DigitsValue(s: string): nat
    requires AllDigits(s)
  {
    if s == [] then 0 else DigitsValue(s[..|s| - 1]) * 10 + DigitValue(s[|s| - 1])
  }

  /** `str(n)` for a non-negative integer: at least one digit, and no
      leading zero unless the number is 0. */
  function NatString(n: nat): (s: string)
    ensures |s| >= 1 && AllDigits(s)
    ensures |s| > 1 ==> s[0] != '0'
  {
    if n < 10 then [DigitChar(n)] else NatString(n / 10) + [DigitChar(n % 10)]
  }

  /** `str(i)` for any integer: a minus sign before the digits of a
      negative number. */
  function IntString(i: int): (s: string)
    ensures IsIntLiteral(s)
  {
    if i < 0 then "-" + NatString(-i) else NatString(i)
  }

  /** The shape of what `str(i)` produces: digits, optionally after a
      minus sign. */
  predicate IsIntLiteral(s: string)
  {
    || (|s| >= 1 && AllDigits(s))
    || (|s| >= 2 && s[0] == '-' && AllDigits(s[1..]))
  }

  /** Reading an integer literal back, as Python's `int(s)` does. */
  function ParseInt(s: string): int
    requires IsIntLiteral(s)
  {
    if s[0] == '-' then -(DigitsValue(s[1..]) as int) else DigitsValue(s)
  }

  /** Rendering a natural number and reading the digits back gives the
      number. */
  lemma {:induction false} NatStringRoundTrip(n: nat)
    ensures DigitsValue(NatString(n)) == n
  {
    if n >= 10 {
      NatStringRoundTrip(n / 10);
      var s := NatString(n);
      assert s[..|s| - 1] == NatString(n / 10);
    }
  }

  /** `int(str(i)) == i`: the rendering of an integer option reads back as
      that integer. */
  lemma IntStringRoundTrip(i: int)
    ensures ParseInt(IntString(i)) == i
  {
    if i < 0 {
      NatStringRoundTrip(-i);
      assert IntString(i)[1..] == NatString(-i);
    } else {
      NatStringRoundTrip(i);
    }
  }

  function Zeros(k: nat): (s: string)
    ensures |s| == k && AllDigits(s)
    ensures forall i :: 0 <= i < k ==> s[i] == '0'
  {
    if k == 0 then "" else "0" + Zeros(k - 1)
  }

  /** `s.zfill(width)`: left-pads with zeros to `width`, keeping a leading
      sign in front of the padding; a string already that long is kept. */
  function ZFill(s: string, width: nat): (r: string)
    ensures |r| == if |s| >= width then |s| else width
  {
    if |s| >= width then s
    else if |s| > 0 && (s[0] == '-' || s[0] == '+') then [s[0]] + Zeros(width - |s|) + s[1..]
    else Zeros(width - |s|) + s
  }

  /** Zeros in front of a digit string do not change its value. */
  lemma {:induction false} LeadingZerosValue(k: nat, s: string)
    requires AllDigits(s)
    ensures AllDigits(Zeros(k) + s)
    ensures DigitsValue(Zeros(k) + s) == DigitsValue(s)
  {
    if s == [] {
      assert Zeros(k) + s == Zeros(k);
      ZerosValue(k);
    } else {
      var t := Zeros(k) + s;
      LeadingZerosValue(k, s[..|s| - 1]);
      assert t[..|t| - 1] == Zeros(k) + s[..|s| - 1];
    }
  }

  lemma {:induction false} ZerosValue(k: nat)
    ensures DigitsValue(Zeros(k)) == 0
  {
    if k > 0 {
      ZerosValue(k - 1);
      assert Zeros(k) == Zeros(k - 1) + "0" by { ZerosSnoc(k - 1); }
      assert Zeros(k)[..k - 1] == Zeros(k - 1);
    }
  }

  lemma ZerosSnoc(k: nat)
    ensures Zeros(k + 1) == Zeros(k) + "0"
  {
  }

  /** The three-digit counter of a numbered file name,
      `str(count).zfill(3)`. */
  function Counter(n: nat): (s: string)
    ensures AllDigits(s) && |s| >= 3
  {
    var d := NatString(n);
    LeadingZerosValue(if |d| >= 3 then 0 else 3 - |d|, d);
    ZFill(d, 3)
  }

  /** The counter reads back as its number, so distinct numbers give
      distinct counters. */
  lemma CounterRoundTrip(n: nat)
    ensures DigitsValue(Counter(n)) == n
  {
    var d := NatString(n);
    NatStringRoundTrip(n);
    if |d| < 3 {
      LeadingZerosValue(3 - |d|, d);
    }
  }

  lemma CounterInjective(j: nat, k: nat)
    requires Counter(j) == Counter(k)
    ensures j == k
  {
    CounterRoundTrip(j);
    CounterRoundTrip(k);
  }
}
