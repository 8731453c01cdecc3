/**
 * Decimal digit strings: the ASCII digit class that the `\d` of the program's
 * patterns matches, the value of a digit string read left to right as
 * strconv.Atoi accumulates it, and the zero-padded rendering that time
 * formatting and integer formatting produce.
 */
module Decimal {

  /** `\d` in Go's regular expressions is ASCII only. */
  predicate IsDigit(c: char)
  {
    '0' <= c <= '9'
  }

  /** A non-empty run of ASCII digits: the language of `\d+`. */
  predicate IsDigitRun(s: string)
  {
    |s| > 0 && forall i :: 0 <= i < |s| ==> IsDigit(s[i])
  }

  /** The value of a digit string, accumulated as `n = n*10 + digit`. */
  function Value(s: string): nat
    requires forall i :: 0 <= i < |s| ==> IsDigit(s[i])
  {
    if |s| == 0 then 0
    else
      assert IsDigit(s[|s| - 1]);
      Value(s[..|s| - 1]) * 10 + (s[|s| - 1] as int - '0' as int)
  }

  /** The shortest decimal rendering of a natural number. */
  function Digits(n: nat): (s: string)
    ensures IsDigitRun(s)
  {
    var last := ('0' as int + n % 10) as char;
    if n < 10 then [last] else Digits(n / 10) + [last]
  }

  /** `n` written with zeros in front up to `width` characters. */
  function Padded(n: nat, width: nat): (s: string)
    ensures IsDigitRun(s)
    ensures |s| == if |Digits(n)| < width then width else |Digits(n)|
  {
    Zeros(PadCount(n, width)) + Digits(n)
  }

  /** How many zeros `Padded` puts in front. */
  function PadCount(n: nat, width: nat): nat
  {
    if |Digits(n)| < width then width - |Digits(n)| else 0
  }

  function Zeros(k: nat): (z: string)
    ensures |z| == k && forall i :: 0 <= i < k ==> z[i] == '0'
  {
    if k == 0 then [] else Zeros(k - 1) + ['0']
  }

  /** Reading back the rendering of `n` gives `n`. */
  lemma {:induction false} ValueOfDigits(n: nat)
    ensures Value(Digits(n)) == n
  {
    var s := Digits(n);
    assert s[..|s| - 1] == if n < 10 then [] else Digits(n / 10);
    if n >= 10 {
      ValueOfDigits(n / 10);
    }
  }

  /** Leading zeros do not change the value of a digit string. */
  lemma {:induction false} ValueIgnoresLeadingZeros(k: nat, s: string)
    requires forall i :: 0 <= i < |s| ==> IsDigit(s[i])
    ensures Value(Zeros(k) + s) == Value(s)
  {
    if |s| == 0 {
      assert Zeros(k) + s == Zeros(k);
      ZerosValue(k);
    } else {
      var t := s[..|s| - 1];
      assert (Zeros(k) + s)[..|Zeros(k) + s| - 1] == Zeros(k) + t;
      ValueIgnoresLeadingZeros(k, t);
    }
  }

  lemma {:induction false} ZerosValue(k: nat)
    ensures Value(Zeros(k)) == 0
  {
    if k > 0 {
      assert Zeros(k)[..k - 1] == Zeros(k - 1);
      ZerosValue(k - 1);
    }
  }

  /** Reading back a padded rendering gives the number. */
  lemma PaddedValue(n: nat, width: nat)
    ensures Value(Padded(n, width)) == n
  {
    ValueIgnoresLeadingZeros(PadCount(n, width), Digits(n));
    ValueOfDigits(n);
  }

  /** A rendering never needs more digits than the number has. */
  lemma {:induction false} DigitsLength(n: nat, k: nat)
    requires n < Pow10(k)
    requires k > 0
    ensures |Digits(n)| <= k
  {
    if n >= 10 {
      DigitsLength(n / 10, k - 1);
    }
  }

  function Pow10(k: nat): (p: nat)
    ensures p > 0
  {
    if k == 0 then 1 else 10 * Pow10(k - 1)
  }
}
