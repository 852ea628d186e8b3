/**
 * Decimal numerals of natural numbers, as Java's Integer, Long and BigInteger
 * `toString` write a non-negative value, together with the reading back of a
 * digit string. The BigDecimal text and the HttpStatus rendering build on it.
 */
module Numerals {

  predicate IsDigit(c: char) {
    '0' <= c <= '9'
  }

  predicate AllDigits(s: string) {
    forall i :: 0 <= i < |s| ==> IsDigit(s[i])
  }

  function DigitChar(d: nat): (c: char)
    requires d < 10
    ensures IsDigit(c) && c as int - '0' as int == d
  {
    ('0' as int + d) as char
  }

  function DigitValue(c: char): (d: nat)
    requires IsDigit(c)
    ensures d < 10 && DigitChar(d) == c
  {
    c as int - '0' as int
  }

  /** The numeral of `n`: at least one digit, and no leading zero unless `n` is zero. */
  function Numeral(n: nat): (s: string)
    ensures |s| >= 1 && AllDigits(s)
    ensures s[0] == '0' <==> n == 0
    decreases n
  {
    if n < 10 then [DigitChar(n)] else Numeral(n / 10) + [DigitChar(n % 10)]
  }

  /** A value from 100 to 999 has a three-digit numeral. */
  lemma ThreeDigitNumeral(n: nat)
    requires 100 <= n < 1000
    ensures |Numeral(n)| == 3
  {
    assert |Numeral(n / 100)| == 1;
    assert |Numeral(n / 10)| == 2;
  }

  /** A value from 1000 to 9999 has a four-digit numeral, most significant digit first. */
  lemma FourDigitNumeral(n: nat)
    requires 1000 <= n < 10000
    ensures Numeral(n) == [DigitChar(n / 1000), DigitChar(n / 100 % 10), DigitChar(n / 10 % 10), DigitChar(n % 10)]
  {
    var a, b, c := n / 10, n / 100, n / 1000;
    assert b == a / 10 && c == b / 10;
    assert Numeral(b) == [DigitChar(c), DigitChar(b % 10)];
    assert Numeral(a) == Numeral(b) + [DigitChar(a % 10)];
  }

  /** The value a digit string denotes; leading zeros contribute nothing. */
  function ValueOf(s: string): nat
    requires AllDigits(s)
    decreases |s|
  {
    if s == [] then 0 else ValueOf(s[..|s| - 1]) * 10 + DigitValue(s[|s| - 1])
  }

  function Pow10(k: nat): (p: nat)
    ensures p >= 1
  {
    if k == 0 then 1 else 10 * Pow10(k - 1)
  }

  /** `k` zero digits. */
  function Zeros(k: nat): (s: string)
    ensures |s| == k && AllDigits(s)
    ensures forall i :: 0 <= i < k ==> s[i] == '0'
  {
    if k == 0 then [] else Zeros(k - 1) + "0"
  }

  /** Reading a numeral gives back the number it was written from. */
  lemma {:induction false} ValueOfNumeral(n: nat)
    ensures ValueOf(Numeral(n)) == n
    decreases n
  {
    if n >= 10 {
      var s := Numeral(n);
      assert s[..|s| - 1] == Numeral(n / 10);
      ValueOfNumeral(n / 10);
    }
  }

  /** Numerals are injective: two numbers with the same numeral are equal. */
  lemma NumeralInjective(m: nat, n: nat)
    requires Numeral(m) == Numeral(n)
    ensures m == n
  {
    ValueOfNumeral(m);
    ValueOfNumeral(n);
  }

  /** The value of a concatenation: the left part is shifted by the right part's length. */
  lemma {:induction false} ValueOfConcat(a: string, b: string)
    requires AllDigits(a) && AllDigits(b)
    ensures AllDigits(a + b)
    ensures ValueOf(a + b) == ValueOf(a) * Pow10(|b|) + ValueOf(b)
    decreases |b|
  {
    DigitsConcat(a, b);
    if b == [] {
      assert a + b == a;
    } else {
      var b' := b[..|b| - 1];
      DropLast(a, b);
      DigitSlices(b, 0, |b| - 1);
      ValueOfConcat(a, b');
      var x, p, y, d := ValueOf(a), Pow10(|b'|), ValueOf(b'), DigitValue(b[|b| - 1]);
      assert ValueOf(a + b) == (x * p + y) * 10 + d;
      assert ValueOf(b) == y * 10 + d;
      assert Pow10(|b|) == 10 * p;
      ShiftByTen(x, p, y, d);
    }
  }

  lemma DigitsConcat(a: string, b: string)
    requires AllDigits(a) && AllDigits(b)
    ensures AllDigits(a + b)
  {
  }

  /** Dropping the last character of a concatenation drops it from the right part. */
  lemma DropLast(a: string, b: string)
    requires |b| > 0
    ensures (a + b)[..|a + b| - 1] == a + b[..|b| - 1]
    ensures (a + b)[|a + b| - 1] == b[|b| - 1]
  {
  }

  lemma ShiftByTen(x: int, p: int, y: int, d: int)
    ensures (x * p + y) * 10 + d == x * (10 * p) + (y * 10 + d)
  {
  }

  /** A run of zeros denotes zero. */
  lemma {:induction false} ValueOfZeros(k: nat)
    ensures ValueOf(Zeros(k)) == 0
    decreases k
  {
    if k > 0 {
      assert Zeros(k)[..k - 1] == Zeros(k - 1);
      ValueOfZeros(k - 1);
    }
  }

  /** Leading zeros do not change the value of a digit string. */
  lemma LeadingZeros(k: nat, s: string)
    requires AllDigits(s)
    ensures AllDigits(Zeros(k) + s)
    ensures ValueOf(Zeros(k) + s) == ValueOf(s)
  {
    ValueOfConcat(Zeros(k), s);
    ValueOfZeros(k);
  }

  /** Every slice of a digit string is a digit string. */
  lemma DigitSlices(s: string, i: nat, j: nat)
    requires AllDigits(s) && i <= j <= |s|
    ensures AllDigits(s[i..j]) && AllDigits(s[..j]) && AllDigits(s[i..])
  {
    forall k | 0 <= k < j - i ensures IsDigit(s[i..j][k]) {
      assert s[i..j][k] == s[i + k];
    }
    forall k | 0 <= k < j ensures IsDigit(s[..j][k]) {
      assert s[..j][k] == s[k];
    }
    forall k | 0 <= k < |s| - i ensures IsDigit(s[i..][k]) {
      assert s[i..][k] == s[i + k];
    }
  }

  /** One more leading zero does not change the value. */
  lemma ZeroPrefix(t: string)
    requires AllDigits(t)
    ensures AllDigits("0" + t) && ValueOf("0" + t) == ValueOf(t)
  {
    ValueOfConcat("0", t);
    assert ValueOf("0") == 0;
    ZeroTimes(Pow10(|t|));
  }

  lemma ZeroTimes(p: nat)
    ensures 0 * p == 0
  {
  }
}
