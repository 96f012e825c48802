/**
 Unsigned decimal text: what strconv.FormatInt writes and what a digit loop reads.
 */
module Decimal {

  predicate IsDigit(c: char) {
    '0' <= c <= '9'
  }

  predicate AllDigits(s: string) {
    forall i | 0 <= i < |s| :: IsDigit(s[i])
  }

  function DigitValue(c: char): (d: nat)
    requires IsDigit(c)
    ensures d <= 9
  {
    c as int - '0' as int
  }

  function DigitChar(d: nat): (c: char)
    requires d <= 9
    ensures IsDigit(c) && DigitValue(c) == d
  {
    ('0' as int + d) as char
  }

  /** The number a digit string denotes; the empty string denotes zero. */
  function Value(s: string): nat
    requires AllDigits(s)
  {
    if s == "" then 0 else Value(s[..|s| - 1]) * 10 + DigitValue(s[|s| - 1])
  }

  function Pow10(k: nat): (p: nat)
    ensures p >= 1
  {
    if k == 0 then 1 else 10 * Pow10(k - 1)
  }

  /** strconv.FormatInt(n, 10) for a non-negative n. */
  function Format(n: nat): string {
    if n < 10 then [DigitChar(n)] else Format(n / 10) + [DigitChar(n % 10)]
  }

  function Zeros(k: nat): (s: string)
    ensures |s| == k && AllDigits(s) && forall i | 0 <= i < k :: s[i] == '0'
  {
    seq(k, _ => '0')
  }

  lemma {:induction false} ValueSnoc(s: string, c: char)
    requires AllDigits(s) && IsDigit(c)
    ensures AllDigits(s + [c])
    ensures Value(s + [c]) == Value(s) * 10 + DigitValue(c)
  {
    assert (s + [c])[..|s + [c]| - 1] == s;
  }

  /** Printing then reading gives the number back. */
  lemma {:induction false} FormatReads(n: nat)
    ensures Format(n) != "" && AllDigits(Format(n))
    ensures Value(Format(n)) == n
  {
    if n < 10 {
      ValueSnoc("", DigitChar(n));
      assert "" + [DigitChar(n)] == [DigitChar(n)];
    } else {
      FormatReads(n / 10);
      ValueSnoc(Format(n / 10), DigitChar(n % 10));
    }
  }

  /** No leading zeros. */
  lemma {:induction false} FormatCanonical(n: nat)
    ensures Format(n) != "" && (|Format(n)| > 1 ==> Format(n)[0] != '0')
    ensures n > 0 ==> Format(n)[0] != '0'
  {
    if n >= 10 {
      FormatCanonical(n / 10);
    }
  }

  lemma {:induction false} FormatLength(n: nat, k: nat)
    requires 1 <= k && n < Pow10(k)
    ensures |Format(n)| <= k
  {
    if n >= 10 {
      assert k > 1;
      FormatLength(n / 10, k - 1);
    }
  }

  lemma {:induction false} ValueConcat(a: string, b: string)
    requires AllDigits(a) && AllDigits(b)
    ensures AllDigits(a + b)
    ensures Value(a + b) == Value(a) * Pow10(|b|) + Value(b)
  {
    if b == "" {
      assert a + b == a;
    } else {
      var front, last := b[..|b| - 1], b[|b| - 1];
      ValueConcat(a, front);
      ValueSnoc(a + front, last);
      assert a + b == (a + front) + [last];
      assert Value(a + b) == (Value(a) * Pow10(|front|) + Value(front)) * 10 + DigitValue(last);
      assert Pow10(|b|) == 10 * Pow10(|front|);
      MulTen(Value(a), Pow10(|front|));
    }
  }

  lemma MulTen(a: nat, p: nat)
    ensures (a * p) * 10 == a * (10 * p)
  {
  }

  lemma {:induction false} ValueZeros(k: nat)
    ensures Value(Zeros(k)) == 0
  {
    if k > 0 {
      assert Zeros(k)[..k - 1] == Zeros(k - 1);
      ValueZeros(k - 1);
    }
  }

  /** Leading zeros change nothing. */
  lemma ValuePadded(k: nat, s: string)
    requires AllDigits(s)
    ensures AllDigits(Zeros(k) + s) && Value(Zeros(k) + s) == Value(s)
  {
    ValueConcat(Zeros(k), s);
    ValueZeros(k);
  }

  lemma Pow10Six()
    ensures Pow10(6) == 1_000_000
  {
  }

  /** A digit string of length k denotes a number below 10^k. */
  lemma {:induction false} ValueBound(s: string)
    requires AllDigits(s)
    ensures Value(s) < Pow10(|s|)
  {
    if s != "" {
      ValueBound(s[..|s| - 1]);
    }
  }

  lemma {:induction false} PowAdd(a: nat, b: nat)
    ensures Pow10(a + b) == Pow10(a) * Pow10(b)
  {
    if a > 0 {
      PowAdd(a - 1, b);
      MulTen(Pow10(b), Pow10(a - 1));
    }
  }

  /** A digit string is zero exactly when every digit is. */
  lemma {:induction false} ZeroIffZeros(s: string)
    requires AllDigits(s)
    ensures Value(s) == 0 <==> s == Zeros(|s|)
  {
    if s != "" {
      var front, last := s[..|s| - 1], s[|s| - 1];
      ZeroIffZeros(front);
      if Value(s) == 0 {
        assert front == Zeros(|front|) && last == '0';
        assert s == front + [last];
      }
    }
  }
}
