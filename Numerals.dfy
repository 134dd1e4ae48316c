/** Decimal and binary numerals as strings.

    The source relies on Python's `int`, `bin`, `str.isdigit` and f-string
    formatting of integers; these are their counterparts on natural numbers.
    Every numeral is written most significant digit first. */
module Numerals {

  function Pow2(k: nat): (p: nat)
    ensures p >= 1
  {
    if k == 0 then 1 else 2 * Pow2(k - 1)
  }

  // ---------------------------------------------------------------- decimal

  predicate IsDigit(c: char) {
    '0' <= c <= '9'
  }

  /** Python's `str.isdigit` restricted to ASCII: non-empty, all digits. */
  predicate IsDigits(s: string) {
    |s| > 0 && forall i :: 0 <= i < |s| ==> IsDigit(s[i])
  }

  function DigitChar(d: nat): (c: char)
    requires d < 10
    ensures IsDigit(c)
  {
    ('0' as int + d) as char
  }

  function DigitValue(c: char): (d: nat)
    requires IsDigit(c)
    ensures d < 10 && DigitChar(d) == c
  {
    c as int - '0' as int
  }

  /** The value of a string of decimal digits (Python's `int` on such a string). */
  function DecimalValue(s: string): nat
    requires forall i :: 0 <= i < |s| ==> IsDigit(s[i])
  {
    if s == [] then 0 else 10 * DecimalValue(s[..|s| - 1]) + DigitValue(s[|s| - 1])
  }

  /** The decimal rendering of `n` without leading zeros (Python's `f"{n}"`).
      Reading it back gives `n`. */
  function NatToDecimal(n: nat): (s: string)
    ensures IsDigits(s)
    ensures DecimalValue(s) == n
    ensures |s| == 1 || s[0] != '0'
  {
    if n < 10 then [DigitChar(n)]
    else
      var prefix := NatToDecimal(n / 10);
      var s := prefix + [DigitChar(n % 10)];
      assert s[..|s| - 1] == prefix;
      s
  }

  /** Two numbers with the same decimal rendering are equal. */
  lemma NatToDecimalInjective(a: nat, b: nat)
    requires NatToDecimal(a) == NatToDecimal(b)
    ensures a == b
  {
  }

  // ----------------------------------------------------------------- binary

  predicate IsBit(c: char) {
    c == '0' || c == '1'
  }

  predicate IsBits(s: string) {
    forall i :: 0 <= i < |s| ==> IsBit(s[i])
  }

  function BitValue(c: char): nat {
    if c == '1' then 1 else 0
  }

  /** The unsigned value of a string of bits; the partner of `ToBinary`. */
  function BinaryValue(s: string): nat {
    if s == [] then 0 else 2 * BinaryValue(s[..|s| - 1]) + BitValue(s[|s| - 1])
  }

  /** Python's `bin(n)` with the `0b` prefix removed: the shortest binary
      numeral of `n`. */
  function ToBinary(n: nat): (s: string)
    ensures IsBits(s) && |s| >= 1
    ensures BinaryValue(s) == n
    ensures |s| == 1 || s[0] == '1'
  {
    if n < 2 then [if n == 1 then '1' else '0']
    else
      var prefix := ToBinary(n / 2);
      var s := prefix + [if n % 2 == 1 then '1' else '0'];
      assert s[..|s| - 1] == prefix;
      s
  }

  function Zeros(k: nat): (z: string)
    ensures |z| == k
    ensures forall i :: 0 <= i < k ==> z[i] == '0'
  {
    if k == 0 then [] else Zeros(k - 1) + ['0']
  }

  /** Every bit string of length `k` denotes a number below 2^k. */
  lemma {:induction false} BinaryValueBound(s: string)
    ensures BinaryValue(s) < Pow2(|s|)
  {
    if s != [] {
      BinaryValueBound(s[..|s| - 1]);
    }
  }

  /** A numeral shorter than `k` bits denotes a number below 2^k, and a number
      below 2^k needs at most `k` bits: `ToBinary` is the shortest numeral. */
  lemma {:induction false} ToBinaryLength(n: nat, k: nat)
    requires k >= 1
    ensures |ToBinary(n)| <= k <==> n < Pow2(k)
  {
    var s := ToBinary(n);
    BinaryValueBound(s);
    if |s| > k {
      // the leading '1' alone is worth 2^(|s|-1) >= 2^k
      LeadingOneBound(s);
      PowMonotone(k, |s| - 1);
    } else {
      PowMonotone(|s|, k);
    }
  }

  lemma {:induction false} LeadingOneBound(s: string)
    requires |s| >= 1 && s[0] == '1'
    ensures BinaryValue(s) >= Pow2(|s| - 1)
  {
    if |s| > 1 {
      var t := s[..|s| - 1];
      assert t[0] == '1';
      LeadingOneBound(t);
    }
  }

  lemma {:induction false} PowMonotone(i: nat, j: nat)
    requires i <= j
    ensures Pow2(i) <= Pow2(j)
  {
    if i < j {
      PowMonotone(i, j - 1);
    }
  }

  /** Leading zeros do not change the value of a bit string. */
  lemma {:induction false} LeadingZeros(k: nat, s: string)
    ensures BinaryValue(Zeros(k) + s) == BinaryValue(s)
  {
    if s == [] {
      assert Zeros(k) + s == Zeros(k);
      ZerosValue(k);
    } else {
      var t := s[..|s| - 1];
      assert (Zeros(k) + s)[..|Zeros(k) + s| - 1] == Zeros(k) + t;
      LeadingZeros(k, t);
    }
  }

  lemma {:induction false} ZerosValue(k: nat)
    ensures BinaryValue(Zeros(k)) == 0
  {
    if k > 0 {
      assert Zeros(k)[..k - 1] == Zeros(k - 1);
      ZerosValue(k - 1);
    }
  }
}
