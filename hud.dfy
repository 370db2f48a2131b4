/** The score read-out of the heads-up display: decimal text and zero padding. */
module Hud {
  import opened Util

  /** Width of the score read-out. */
  const ScoreWidth: nat := 6

  predicate IsDigit(c: char) {
    '0' <= c <= '9'
  }

  predicate AllDigits(s: string) {
    forall i :: 0 <= i < |s| ==> IsDigit(s[i])
  }

  function DigitChar(d: nat): (c: char)
    requires d < 10
    ensures IsDigit(c)
  {
    ('0' as int + d) as char
  }

  function DigitValue(c: char): (d: nat)
    requires IsDigit(c)
    ensures d < 10
  {
    c as int - '0' as int
  }

  function Pow10(k: nat): (p: nat)
    ensures p >= 1
  {
    if k == 0 then 1 else 10 * Pow10(k - 1)
  }

  /** The decimal text of a non-negative integer, as its toString() yields it. */
  function Decimal(n: nat): (r: string)
    ensures |r| >= 1
    ensures AllDigits(r)
    ensures r[0] == '0' <==> n == 0
    ensures n == 0 ==> r == "0"
  {
    if n < 10 then [DigitChar(n)] else Decimal(n / 10) + [DigitChar(n % 10)]
  }

  /** The value of a non-empty string of decimal digits, as parseInt(s, 10) reads it. */
  function ParseDecimal(s: string): (n: nat)
    requires |s| >= 1 && AllDigits(s)
    ensures n < Pow10(|s|)
  {
    if |s| == 1 then DigitValue(s[0]) else ParseDecimal(s[..|s| - 1]) * 10 + DigitValue(s[|s| - 1])
  }

  /** n copies of c. */
  function Repeat(c: char, n: nat): (r: string)
    ensures |r| == n
    ensures forall i :: 0 <= i < n ==> r[i] == c
  {
    if n == 0 then [] else [c] + Repeat(c, n - 1)
  }

  /** s.padStart(targetLength, fill) for a one-character fill string. */
  function PadStart(s: string, targetLength: nat, fill: char): (r: string)
    ensures |r| == Max(targetLength, |s|)
    ensures r[|r| - |s|..] == s
    ensures forall i :: 0 <= i < |r| - |s| ==> r[i] == fill
  {
    if |s| >= targetLength then s else Repeat(fill, targetLength - |s|) + s
  }

  /** The read-out score.toString().padStart(6, '0'). */
  function ScoreText(score: nat): (r: string)
    ensures |r| == Max(ScoreWidth, |Decimal(score)|)
    ensures AllDigits(r)
    ensures r[|r| - |Decimal(score)|..] == Decimal(score)
    ensures forall i :: 0 <= i < |r| - |Decimal(score)| ==> r[i] == '0'
  {
    PadStart(Decimal(score), ScoreWidth, '0')
  }

  /** Reading back the decimal text of n gives n: what is stored with toString() is restored by parseInt. */
  lemma {:induction false} DecimalRoundTrip(n: nat)
    ensures ParseDecimal(Decimal(n)) == n
    decreases n
  {
    var r := Decimal(n);
    if n >= 10 {
      DecimalRoundTrip(n / 10);
      assert r[..|r| - 1] == Decimal(n / 10);
    }
  }

  /** Leading zeros do not change the value of a digit string. */
  lemma {:induction false} LeadingZerosIgnored(k: nat, s: string)
    requires |s| >= 1 && AllDigits(s)
    ensures AllDigits(Repeat('0', k) + s)
    ensures ParseDecimal(Repeat('0', k) + s) == ParseDecimal(s)
    decreases |s|
  {
    var z := Repeat('0', k);
    if k == 0 {
      assert z + s == s;
    } else if |s| == 1 {
      var w := z + s;
      assert w[..|w| - 1] == z;
      ZerosParseToZero(k);
    } else {
      var w := z + s;
      assert w[..|w| - 1] == z + s[..|s| - 1];
      LeadingZerosIgnored(k, s[..|s| - 1]);
    }
  }

  /** A string of zeros is worth nothing. */
  lemma {:induction false} ZerosParseToZero(k: nat)
    requires k >= 1
    ensures AllDigits(Repeat('0', k))
    ensures ParseDecimal(Repeat('0', k)) == 0
  {
    if k > 1 {
      var z := Repeat('0', k);
      assert z[..k - 1] == Repeat('0', k - 1);
      ZerosParseToZero(k - 1);
    }
  }

  /** The padded read-out still denotes the score. */
  lemma ScoreTextRoundTrip(score: nat)
    ensures ParseDecimal(ScoreText(score)) == score
  {
    var d := Decimal(score);
    DecimalRoundTrip(score);
    if |d| < ScoreWidth {
      LeadingZerosIgnored(ScoreWidth - |d|, d);
    }
  }

  /** The decimal text of n has as many digits as n needs: 10^(k-1) <= n < 10^k for n > 0. */
  lemma {:induction false} DecimalLength(n: nat)
    ensures n < Pow10(|Decimal(n)|)
    ensures n > 0 ==> Pow10(|Decimal(n)| - 1) <= n
    decreases n
  {
    if n >= 10 {
      DecimalLength(n / 10);
    }
  }

  lemma {:induction false} Pow10Monotone(i: nat, j: nat)
    requires i <= j
    ensures Pow10(i) <= Pow10(j)
    decreases j
  {
    if i < j {
      Pow10Monotone(i, j - 1);
    }
  }

  /** The read-out is exactly six characters wide precisely while the score is below one million. */
  lemma ScoreTextFixedWidth(score: nat)
    ensures |ScoreText(score)| == ScoreWidth <==> score < 1000000
  {
    var d := Decimal(score);
    DecimalLength(score);
    assert Pow10(6) == 1000000;
    if |d| <= 6 {
      Pow10Monotone(|d|, 6);
    } else {
      Pow10Monotone(6, |d| - 1);
    }
  }
}
