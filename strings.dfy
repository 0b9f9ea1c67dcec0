/** Decimal rendering of integers (Python's `str` on an int) and left
    zero-padding (Python's `str.rjust(width, '0')`). */
module Strings {

  predicate IsDigit(c: char) {
    '0' <= c <= '9'
  }

  predicate AllDigits(s: string) {
    forall i :: 0 <= i < |s| ==> IsDigit(s[i])
  }

  function DigitChar(d: nat): (c: char)
    requires d < 10
    ensures IsDigit(c) && c as int - '0' as int == d
  {
    (('0' as int) + d) as char
  }

  function Pow10(k: nat): (p: nat)
    ensures p >= 1
  {
    if k == 0 then 1 else 10 * Pow10(k - 1)
  }

  /** `str(n)` for a non-negative int: no sign and no leading zero. */
  function DecimalString(n: nat): (s: string)
    ensures |s| >= 1 && AllDigits(s)
    ensures s[0] == '0' ==> n == 0
  {
    if n < 10 then [DigitChar(n)] else DecimalString(n / 10) + [DigitChar(n % 10)]
  }

  /** `str(i)` for any int: a minus sign before the digits of a negative value. */
  function IntString(i: int): string
  {
    if i < 0 then "-" + DecimalString(-i) else DecimalString(i)
  }

  /** Different ints render differently: `str` on ints is injective. */
  lemma IntStringInjective(a: int, b: int)
    ensures IntString(a) == IntString(b) ==> a == b
  {
    if IntString(a) == IntString(b) {
      if a < 0 && b < 0 {
        assert IntString(a)[1..] == DecimalString(-a);
        assert IntString(b)[1..] == DecimalString(-b);
        ValueOfDecimal(-a);
        ValueOfDecimal(-b);
      } else if a >= 0 && b >= 0 {
        ValueOfDecimal(a);
        ValueOfDecimal(b);
      }
    }
  }

  /** The string key `str(k)` of a dictionary keyed by the renderings of
      naturals is hit by `str(s)` exactly when `s` is `k`, so such a table
      can be keyed by the integers themselves. */
  lemma KeyMatches(s: int, k: nat)
    ensures IntString(s) == DecimalString(k) <==> s == k
  {
    IntStringInjective(s, k);
  }

  /** The number a string of digits spells, most significant digit first. */
  function Value(s: string): nat
    requires AllDigits(s)
  {
    if s == [] then 0 else Value(s[..|s| - 1]) * 10 + (s[|s| - 1] as int - '0' as int)
  }

  function Zeros(k: nat): string
  {
    seq(k, _ => '0')
  }

  /** `s.rjust(width, '0')`. */
  function Pad0(s: string, width: nat): string
  {
    if |s| >= width then s else Zeros(width - |s|) + s
  }

  /** Padding never truncates: the result has length max(width, |s|), ends
      with `s`, and everything in front of `s` is a '0'. */
  lemma Pad0Facts(s: string, width: nat)
    ensures |Pad0(s, width)| == if |s| >= width then |s| else width
    ensures Pad0(s, width)[|Pad0(s, width)| - |s|..] == s
    ensures forall i :: 0 <= i < |Pad0(s, width)| - |s| ==> Pad0(s, width)[i] == '0'
  {
  }

  /** Reading back the decimal rendering gives the number again. */
  lemma {:induction false} ValueOfDecimal(n: nat)
    ensures Value(DecimalString(n)) == n
  {
    var s := DecimalString(n);
    if n >= 10 {
      ValueOfDecimal(n / 10);
      assert s[..|s| - 1] == DecimalString(n / 10);
    }
  }

  /** The decimal rendering of a number below 10^k has at most k digits. */
  lemma {:induction false} DecimalLength(n: nat, k: nat)
    requires k >= 1 && n < Pow10(k)
    ensures |DecimalString(n)| <= k
  {
    if n >= 10 {
      DecimalLength(n / 10, k - 1);
    }
  }

  lemma {:induction false} ValueOfZeros(k: nat)
    ensures AllDigits(Zeros(k)) && Value(Zeros(k)) == 0
  {
    if k > 0 {
      assert Zeros(k)[..k - 1] == Zeros(k - 1);
      ValueOfZeros(k - 1);
    }
  }

  /** Leading zeros do not change the number a digit string spells. */
  lemma {:induction false} LeadingZerosIgnored(k: nat, s: string)
    requires AllDigits(s)
    ensures AllDigits(Zeros(k) + s) && Value(Zeros(k) + s) == Value(s)
  {
    var t := Zeros(k) + s;
    if s == [] {
      assert t == Zeros(k);
      ValueOfZeros(k);
    } else {
      var s' := s[..|s| - 1];
      assert t[..|t| - 1] == Zeros(k) + s';
      LeadingZerosIgnored(k, s');
    }
  }

  /** Zero-padding a decimal rendering keeps its value: the padded field
      still reads back as the original number. */
  lemma PaddedValue(n: nat, width: nat)
    ensures AllDigits(Pad0(DecimalString(n), width))
    ensures Value(Pad0(DecimalString(n), width)) == n
  {
    var s := DecimalString(n);
    ValueOfDecimal(n);
    if |s| < width {
      LeadingZerosIgnored(width - |s|, s);
    }
  }
}
