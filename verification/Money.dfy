/**
 Dollar text to micro-dollars and back (api/agentgateway/v1alpha1/cost.go and
 formatMicroDollars in internal/controller/agentgatewaysession_controller.go).
 */
module Money {
  import opened Common
  import opened Decimal

  const MAX_INT64: nat := 0x7FFF_FFFF_FFFF_FFFF
  const MICRO_DOLLARS_PER_DOLLAR: nat := 1_000_000
  const COST_DECIMAL_PLACES: nat := 6

  datatype MoneyError = Empty | Signed | ManyPoints | NotDecimal | RoundsToZero

  // ----- Text helpers from the Go standard library -----

  /** unicode.IsSpace. */
  predicate IsSpace(c: char) {
    var n := c as int;
    || 9 <= n <= 13 || n == 0x20 || n == 0x85 || n == 0xa0 || n == 0x1680
    || 0x2000 <= n <= 0x200a || n == 0x2028 || n == 0x2029 || n == 0x202f || n == 0x205f || n == 0x3000
  }

  predicate AllSpace(s: string) {
    forall i | 0 <= i < |s| :: IsSpace(s[i])
  }

  function TrimLeft(s: string): string {
    if s != "" && IsSpace(s[0]) then TrimLeft(s[1..]) else s
  }

  function TrimRight(s: string): string {
    if s != "" && IsSpace(s[|s| - 1]) then TrimRight(s[..|s| - 1]) else s
  }

  /** strings.TrimSpace. */
  function TrimSpace(s: string): string {
    TrimRight(TrimLeft(s))
  }

  /** strings.Cut at the first point: whole part, fractional part, and whether a point was found. */
  function CutPoint(s: string): (r: (string, string, bool))
    ensures '.' !in r.0
    ensures if r.2 then s == r.0 + "." + r.1 else s == r.0 && r.1 == ""
  {
    if s == "" then ("", "", false)
    else if s[0] == '.' then
      assert s == "" + "." + s[1..];
      ("", s[1..], true)
    else
      var (whole, frac, found) := CutPoint(s[1..]);
      assert s == [s[0]] + s[1..];
      ([s[0]] + whole, frac, found)
  }

  lemma {:induction false} CutPointOf(whole: string, frac: string)
    requires '.' !in whole
    ensures CutPoint(whole + "." + frac) == (whole, frac, true)
  {
    var s := whole + "." + frac;
    if whole == "" {
      assert s[1..] == frac;
    } else {
      assert s[1..] == whole[1..] + "." + frac;
      CutPointOf(whole[1..], frac);
      assert whole == [whole[0]] + whole[1..];
    }
  }

  lemma {:induction false} CutPointNone(s: string)
    requires '.' !in s
    ensures CutPoint(s) == (s, "", false)
  {
    if s != "" {
      CutPointNone(s[1..]);
    }
  }

  // ----- Reading digits -----

  /** What parseDigits accepts, and the number it then returns. */
  function Digits(s: string): (r: Option<nat>) {
    if s != "" && AllDigits(s) && Value(s) <= MAX_INT64 then Some(Value(s)) else None
  }

  /** The digit loop. Each intermediate value is an Int64: the guard comes before the arithmetic. */
  method ParseDigits(s: string) returns (r: Option<Int64>)
    ensures r.Some? <==> Digits(s).Some?
    ensures r.Some? ==> r.value == Digits(s).value
  {
    if s == "" {
      return None;
    }
    var n: Int64 := 0;
    for i := 0 to |s|
      invariant AllDigits(s[..i])
      invariant n == Value(s[..i])
    {
      assert s[..i + 1] == s[..i] + [s[i]];
      assert s[..i + 1] + s[i + 1..] == s;
      if !('0' <= s[i] <= '9') {
        assert !AllDigits(s);
        return None;
      }
      var d: Int64 := s[i] as int - '0' as int;
      ValueSnoc(s[..i], s[i]);
      var room: Int64 := MAX_INT64 - d;
      if n > room / 10 {
        if AllDigits(s) {
          PrefixBelow(s, i + 1);
        }
        return None;
      }
      var shifted: Int64 := n * 10;
      n := shifted + d;
    }
    assert s[..|s|] == s;
    return Some(n);
  }

  /** A number is at least what any prefix of its digits denotes. */
  lemma {:induction false} PrefixBelow(s: string, k: nat)
    requires AllDigits(s) && k <= |s|
    ensures Value(s[..k]) <= Value(s)
    decreases |s|
  {
    if k == |s| {
      assert s[..k] == s;
    } else {
      var front := s[..|s| - 1];
      assert front[..k] == s[..k];
      PrefixBelow(front, k);
    }
  }

  // ----- Reading dollars -----

  /** The fraction cut or padded to micro-dollar grain. */
  function SixDigits(frac: string): (r: string)
    ensures |r| == COST_DECIMAL_PLACES
  {
    if |frac| > COST_DECIMAL_PLACES then frac[..COST_DECIMAL_PLACES]
    else frac + Zeros(COST_DECIMAL_PLACES - |frac|)
  }

  /** The outcome of reading a dollar string, error cases included. */
  function ReadDollars(s: string): Result<nat, MoneyError> {
    var t := TrimSpace(s);
    var (whole, frac, hasFrac) := CutPoint(t);
    if t == "" then Err(Empty)
    else if t[0] == '-' || t[0] == '+' then Err(Signed)
    else if '.' in frac then Err(ManyPoints)
    else if whole == "" || (hasFrac && frac == "") then Err(NotDecimal)
    else match Digits(whole + SixDigits(frac))
      case None => Err(NotDecimal)
      case Some(micros) => if micros == 0 then Err(RoundsToZero) else Ok(micros)
  }

  method ParseDollarsToMicroDollars(s: string) returns (r: Result<Int64, MoneyError>)
    ensures r.Ok? <==> ReadDollars(s).Ok?
    ensures r.Ok? ==> r.value == ReadDollars(s).value
    ensures r.Err? ==> r.error == ReadDollars(s).error
  {
    var trimmed := TrimSpace(s);
    if trimmed == "" {
      return Err(Empty);
    }
    if trimmed[0] == '-' || trimmed[0] == '+' {
      return Err(Signed);
    }
    var (whole, frac, hasFrac) := CutPoint(trimmed);
    if hasFrac && '.' in frac {
      return Err(ManyPoints);
    }
    if whole == "" || (hasFrac && frac == "") {
      return Err(NotDecimal);
    }
    if |frac| > COST_DECIMAL_PLACES {
      frac := frac[..COST_DECIMAL_PLACES];
    }
    frac := frac + Zeros(COST_DECIMAL_PLACES - |frac|);
    ghost var written := CutPoint(trimmed).1;
    assert frac == SixDigits(written);
    var micros := ParseDigits(whole + frac);
    if micros.None? {
      return Err(NotDecimal);
    }
    if micros.value == 0 {
      return Err(RoundsToZero);
    }
    return Ok(micros.value);
  }

  // ----- What is read, and what is refused -----

  /** A whole part of digits, and after a point a fraction whose first six characters are digits. */
  predicate Written(t: string, whole: string, frac: string, point: bool) {
    && t == whole + (if point then "." + frac else "")
    && whole != "" && AllDigits(whole) && '.' !in frac && AllDigits(SixDigits(frac))
    && (point <==> frac != "")
  }

  ghost predicate WrittenAs(t: string, n: nat) {
    exists whole, frac, point ::
      Written(t, whole, frac, point) && AllDigits(whole + SixDigits(frac)) && Value(whole + SixDigits(frac)) == n
  }

  /** However a text is written down, the first point splits it. */
  lemma WrittenIsCut(t: string, whole: string, frac: string, point: bool)
    requires Written(t, whole, frac, point)
    ensures CutPoint(t) == (whole, frac, point) && t != "" && IsDigit(t[0]) && AllDigits(whole + SixDigits(frac))
  {
    assert !IsDigit('.');
    if point {
      assert t == whole + "." + frac;
      CutPointOf(whole, frac);
    } else {
      assert t == whole;
      CutPointNone(t);
    }
    assert t[0] == whole[0];
  }

  /**
   Every text, of the pattern or not: it reads as an amount exactly when it is written
   so and the amount is a positive int64; and which error the others give.
   */
  lemma ReadsIff(s: string)
    ensures var (t, r) := (TrimSpace(s), ReadDollars(s));
            && (forall n: nat :: r == Ok(n) <==> 1 <= n <= MAX_INT64 && WrittenAs(t, n))
            && (r == Err(RoundsToZero) <==> WrittenAs(t, 0))
            && (r == Err(Empty) <==> t == "")
            && (r == Err(Signed) <==> t != "" && (t[0] == '-' || t[0] == '+'))
            && (r == Err(ManyPoints) <==>
                  t != "" && t[0] != '-' && t[0] != '+' && TwoPoints(t))
  {
    var t := TrimSpace(s);
    forall n: nat | WrittenAs(t, n)
      ensures ReadDollars(s) == if n == 0 then Err(RoundsToZero) else if n > MAX_INT64 then Err(NotDecimal) else Ok(n)
    {
      var whole, frac, point :| Written(t, whole, frac, point) && AllDigits(whole + SixDigits(frac))
                                && Value(whole + SixDigits(frac)) == n;
      WrittenIsCut(t, whole, frac, point);
    }
    var (whole, frac, point) := CutPoint(t);
    if ReadDollars(s).Ok? || ReadDollars(s) == Err(RoundsToZero) {
      DigitsSplit(whole, SixDigits(frac));
      assert Written(t, whole, frac, point);
      assert WrittenAs(t, Value(whole + SixDigits(frac)));
    }
    SecondPoint(t);
  }

  lemma DigitsSplit(a: string, b: string)
    requires AllDigits(a + b)
    ensures AllDigits(a) && AllDigits(b)
  {
    assert forall i | 0 <= i < |a| :: (a + b)[i] == a[i];
    assert forall i | 0 <= i < |b| :: (a + b)[|a| + i] == b[i];
  }

  ghost predicate TwoPoints(t: string) {
    exists i: nat, j: nat :: PointsAt(t, i, j)
  }

  predicate PointsAt(t: string, i: nat, j: nat) {
    i < j < |t| && t[i] == '.' && t[j] == '.'
  }

  lemma SecondPoint(t: string)
    ensures '.' in CutPoint(t).1 <==> TwoPoints(t)
  {
    var (whole, frac, point) := CutPoint(t);
    if point {
      SecondPointIn(t, whole, frac);
    } else {
      PointsAreThere(t);
    }
  }

  lemma PointsAreThere(t: string)
    ensures TwoPoints(t) ==> '.' in t
  {
    if i: nat, j: nat :| PointsAt(t, i, j) {
      assert t[i] in t;
    }
  }

  lemma SecondPointIn(t: string, whole: string, frac: string)
    requires t == whole + "." + frac && '.' !in whole
    ensures '.' in frac <==> TwoPoints(t)
  {
    if '.' in frac {
      var k :| 0 <= k < |frac| && frac[k] == '.';
      assert t[|whole| + 1 + k] == frac[k];
      assert PointsAt(t, |whole|, |whole| + 1 + k);
    }
    if i: nat, j: nat :| PointsAt(t, i, j) {
      assert forall k | 0 <= k < |whole| :: t[k] == whole[k] && whole[k] != '.';
      assert t[j] == frac[j - |whole| - 1];
    }
  }

  // ----- Exactness -----

  /** The pattern the custom resource definitions put on every dollar field. */
  predicate MatchesPattern(t: string) {
    var (whole, frac, hasFrac) := CutPoint(t);
    && AllDigits(whole) && AllDigits(frac) && whole != "" && (hasFrac ==> frac != "")
    && (whole[0] != '0' || (whole == "0" && exists i | 0 <= i < |frac| :: frac[i] != '0'))
  }

  /** The amount a decimal text denotes, as an exact rational. */
  function Dollars(t: string): real
    requires MatchesPattern(t)
  {
    var (whole, frac, _) := CutPoint(t);
    ValueConcat(whole, frac);
    Value(whole + frac) as real / Pow10(|frac|) as real
  }

  function FloorMicros(t: string): int
    requires MatchesPattern(t)
  {
    (Dollars(t) * MICRO_DOLLARS_PER_DOLLAR as real).Floor
  }

  /** Surrounding white space never changes what a text reads as. */
  lemma {:induction false} TrimPadding(left: string, t: string, right: string)
    requires AllSpace(left) && AllSpace(right)
    requires t != "" && !IsSpace(t[0]) && !IsSpace(t[|t| - 1])
    ensures TrimSpace(left + t + right) == t
  {
    TrimLeftPadding(left, t + right);
    assert left + t + right == left + (t + right);
    TrimRightPadding(t, right);
  }

  lemma {:induction false} TrimLeftPadding(left: string, t: string)
    requires AllSpace(left) && t != "" && !IsSpace(t[0])
    ensures TrimLeft(left + t) == t
  {
    if left == "" {
      assert left + t == t;
    } else {
      assert (left + t)[1..] == left[1..] + t;
      TrimLeftPadding(left[1..], t);
    }
  }

  lemma {:induction false} TrimRightPadding(t: string, right: string)
    requires AllSpace(right) && t != "" && !IsSpace(t[|t| - 1])
    ensures TrimRight(t + right) == t
  {
    if right == "" {
      assert t + right == t;
    } else {
      var front := right[..|right| - 1];
      assert (t + right)[..|t + right| - 1] == t + front;
      TrimRightPadding(t, front);
    }
  }

  /** A text of the pattern starts and ends in a digit. */
  lemma PatternEnds(t: string)
    requires MatchesPattern(t)
    ensures t != "" && IsDigit(t[0]) && IsDigit(t[|t| - 1])
  {
    var (whole, frac, hasFrac) := CutPoint(t);
    assert t[0] == whole[0];
    if hasFrac {
      assert t[|t| - 1] == frac[|frac| - 1];
    }
  }

  /**
   Reading is exact: for every text of the pattern, however padded, the result
   is floor(dollars * 10^6), and it fails exactly when that is zero or above the
   largest int64.
   */
  lemma ReadExact(left: string, t: string, right: string)
    requires MatchesPattern(t) && AllSpace(left) && AllSpace(right)
    ensures var micros := FloorMicros(t);
            ReadDollars(left + t + right) ==
            if micros == 0 then Err(RoundsToZero)
            else if micros > MAX_INT64 then Err(NotDecimal)
            else Ok(micros)
  {
    PatternEnds(t);
    TrimPadding(left, t, right);
    var (whole, frac, hasFrac) := CutPoint(t);
    ReadAtGrain(whole, frac);
    FloorOfQuotient(Value(whole + frac), Pow10(|frac|));
    assert AllDigits(whole + SixDigits(frac));
    assert !IsDigit('.');
  }

  /** Cutting or padding to six digits is the floor of the scaled quotient. */
  lemma ReadAtGrain(whole: string, frac: string)
    requires AllDigits(whole) && AllDigits(frac)
    ensures AllDigits(whole + frac) && AllDigits(whole + SixDigits(frac))
    ensures Value(whole + SixDigits(frac)) == Value(whole + frac) * Pow10(6) / Pow10(|frac|)
  {
    ValueConcat(whole, frac);
    if |frac| > 6 {
      var kept, dropped := frac[..6], frac[6..];
      assert whole + frac == (whole + kept) + dropped;
      ValueConcat(whole, kept);
      ValueConcat(whole + kept, dropped);
      ValueBound(dropped);
      PowAdd(|dropped|, 6);
      QuotientDrops(Value(whole + kept), Pow10(|dropped|), Value(dropped), Pow10(6));
    } else {
      var k := 6 - |frac|;
      assert whole + SixDigits(frac) == (whole + frac) + Zeros(k);
      ValueConcat(whole + frac, Zeros(k));
      ValueZeros(k);
      PowAdd(k, |frac|);
      QuotientPads(Value(whole + frac), Pow10(k), Pow10(|frac|));
    }
  }

  lemma QuotientDrops(a: nat, p: nat, r: nat, q: nat)
    requires r < p && q >= 1
    ensures p * q >= 1
    ensures (a * p + r) * q / (p * q) == a
  {
    assert (a * p + r) * q == a * (p * q) + r * q;
    assert 0 <= r * q < p * q;
    DivUnique(a * (p * q) + r * q, p * q, a, r * q);
  }

  lemma QuotientPads(a: nat, p: nat, q: nat)
    requires p >= 1 && q >= 1
    ensures a * (p * q) / q == a * p
  {
    assert a * (p * q) == (a * p) * q;
    DivUnique(a * p * q, q, a * p, 0);
  }

  lemma DivUnique(x: nat, m: nat, q: nat, r: nat)
    requires m >= 1 && r < m && x == q * m + r
    ensures x / m == q
  {
    var q' := x / m;
    assert x == q' * m + x % m;
    assert (q' - q) * m == q' * m - q * m == r - x % m;
    NoMultipleBetween(q' - q, m);
  }

  lemma NoMultipleBetween(k: int, m: int)
    requires 0 - m < k * m < m
    ensures k == 0
  {
  }

  lemma FloorOfQuotient(n: nat, p: nat)
    requires p >= 1
    ensures (n as real / p as real * 1_000_000.0).Floor == n * Pow10(6) / p
  {
    Pow10Six();
    var q, r := n * 1_000_000 / p, n * 1_000_000 % p;
    assert n * 1_000_000 == q * p + r;
    assert (q * p) as real == q as real * p as real;
    QuotientBounds(n as real, p as real, q as real, r as real);
  }

  lemma QuotientBounds(n: real, p: real, q: real, r: real)
    requires 0.0 <= r < p && n * 1_000_000.0 == q * p + r
    ensures q <= n / p * 1_000_000.0 < q + 1.0
  {
    var x := n / p;
    assert x * p == n;
    var d := x * 1_000_000.0 - q;
    assert d * p == r by {
      assert d * p == x * 1_000_000.0 * p - q * p;
      assert x * 1_000_000.0 * p == 1_000_000.0 * (x * p);
    }
    UnitInterval(d, p);
  }

  lemma UnitInterval(d: real, p: real)
    requires 0.0 <= d * p < p
    ensures 0.0 <= d < 1.0
  {
  }

  // ----- Printing -----

  function TrimZeros(s: string): (r: string) {
    if s != "" && s[|s| - 1] == '0' then TrimZeros(s[..|s| - 1]) else s
  }

  /** The six-digit fraction with its zeros trimmed, kept at two digits or more. */
  function FractionText(frac: nat): string {
    if frac == 0 then "00" else Trimmed(Zeros(6 - Min(6, |Format(frac)|)) + Format(frac))
  }

  function Trimmed(padded: string): string {
    var s := TrimZeros(padded);
    if |s| < 2 then s + "0" else s
  }

  /** formatMicroDollars. */
  function FormatMicroDollars(micros: nat): string {
    "$" + Format(micros / MICRO_DOLLARS_PER_DOLLAR) + "." + FractionText(micros % MICRO_DOLLARS_PER_DOLLAR)
  }

  function Min(a: nat, b: nat): nat {
    if a < b then a else b
  }

  lemma {:induction false} TrimZerosKeeps(s: string)
    requires AllDigits(s)
    ensures |TrimZeros(s)| <= |s| && AllDigits(TrimZeros(s))
    ensures s == TrimZeros(s) + Zeros(|s| - |TrimZeros(s)|)
  {
    if s != "" && s[|s| - 1] == '0' {
      var front := s[..|s| - 1];
      TrimZerosKeeps(front);
      assert s == front + "0";
      assert s == TrimZeros(front) + Zeros(|s| - |TrimZeros(front)|);
    }
  }

  /** Padding the fraction with a zero or trimming its zeros leaves the six digits alone. */
  lemma SixDigitsOfPrinted(padded: string)
    requires |padded| == 6 && AllDigits(padded) && padded != Zeros(6)
    ensures var f := Trimmed(padded);
            f != "" && AllDigits(f) && |f| <= 6 && SixDigits(f) == padded
  {
    var s := TrimZeros(padded);
    TrimZerosKeeps(padded);
    if |s| < 2 {
      assert SixDigits(s + "0") == s + Zeros(6 - |s|);
    }
  }

  lemma PaddedReads(k: nat, digits: string)
    requires AllDigits(digits) && k + |digits| == 6 && Value(digits) != 0
    ensures var padded := Zeros(k) + digits;
            |padded| == 6 && AllDigits(padded) && padded != Zeros(6) && Value(padded) == Value(digits)
  {
    ValuePadded(k, digits);
    ValueZeros(6);
  }

  /** The printed fraction stands for the same six digits. */
  lemma FractionTextReads(frac: nat)
    requires frac < 1_000_000
    ensures var f := FractionText(frac);
            && f != "" && AllDigits(f) && AllDigits(SixDigits(f)) && Value(SixDigits(f)) == frac
  {
    if frac == 0 {
      ValueZeros(6);
      assert SixDigits("00") == Zeros(6);
    } else {
      Pow10Six();
      FormatReads(frac);
      FormatLength(frac, 6);
      var k := 6 - |Format(frac)|;
      PaddedReads(k, Format(frac));
      SixDigitsOfPrinted(Zeros(k) + Format(frac));
    }
  }

  /** The two printed halves, put together, are the digits of the amount. */
  lemma PrintedDigits(micros: nat)
    ensures var w := Format(micros / MICRO_DOLLARS_PER_DOLLAR);
            var f := FractionText(micros % MICRO_DOLLARS_PER_DOLLAR);
            && w != "" && f != "" && AllDigits(w) && AllDigits(f)
            && AllDigits(w + SixDigits(f)) && Value(w + SixDigits(f)) == micros
  {
    var whole, frac := micros / MICRO_DOLLARS_PER_DOLLAR, micros % MICRO_DOLLARS_PER_DOLLAR;
    FormatReads(whole);
    FractionTextReads(frac);
    ValueConcat(Format(whole), SixDigits(FractionText(frac)));
    Pow10Six();
  }

  lemma {:induction false} TrimmedEnd(s: string)
    ensures TrimZeros(s) != "" ==> TrimZeros(s)[|TrimZeros(s)| - 1] != '0'
  {
    if s != "" && s[|s| - 1] == '0' {
      TrimmedEnd(s[..|s| - 1]);
    }
  }

  /**
   What an amount prints as: a dollar sign, whole dollars without leading zeros, a
   point, and between two and six decimals, the last of them no zero where there are
   more than two. So fifty cents print as "$0.50".
   */
  lemma PrintedShape(micros: nat)
    ensures var (w, f) := (Format(micros / 1_000_000), FractionText(micros % 1_000_000));
            && FormatMicroDollars(micros) == "$" + w + "." + f
            && AllDigits(w) && AllDigits(f)
            && w != "" && (|w| > 1 ==> w[0] != '0')
            && 2 <= |f| <= 6 && (|f| > 2 ==> f[|f| - 1] != '0')
  {
    PrintedDigits(micros);
    FormatCanonical(micros / 1_000_000);
    FractionShape(micros % 1_000_000);
  }

  lemma FractionShape(frac: nat)
    requires frac < 1_000_000
    ensures var f := FractionText(frac);
            2 <= |f| <= 6 && (|f| > 2 ==> f[|f| - 1] != '0')
  {
    if frac != 0 {
      Pow10Six();
      FormatReads(frac);
      FormatLength(frac, 6);
      var k := 6 - |Format(frac)|;
      PaddedReads(k, Format(frac));
      TrimmedShape(Zeros(k) + Format(frac));
    }
  }

  lemma TrimmedShape(padded: string)
    requires |padded| == 6 && AllDigits(padded) && padded != Zeros(6)
    ensures var f := Trimmed(padded);
            2 <= |f| <= 6 && (|f| > 2 ==> f[|f| - 1] != '0')
  {
    TrimmedEnd(padded);
    TrimZerosKeeps(padded);
    assert "" + Zeros(6) == Zeros(6);
  }

  /** Printing then reading an amount, without the dollar sign, gives the amount back. */
  lemma PrintedReadsBack(micros: nat)
    requires 1 <= micros <= MAX_INT64
    ensures var text := FormatMicroDollars(micros);
            text != "" && text[0] == '$' && ReadDollars(text[1..]) == Ok(micros)
  {
    var w := Format(micros / MICRO_DOLLARS_PER_DOLLAR);
    var f := FractionText(micros % MICRO_DOLLARS_PER_DOLLAR);
    PrintedDigits(micros);
    assert FormatMicroDollars(micros)[1..] == w + "." + f;
    ReadsJoined(w, f);
  }

  /** How two non-empty digit strings joined by a point are read. */
  lemma ReadsJoined(whole: string, frac: string)
    requires AllDigits(whole) && AllDigits(frac) && whole != "" && frac != ""
    ensures ReadDollars(whole + "." + frac) ==
            match Digits(whole + SixDigits(frac))
            case None => Err(NotDecimal)
            case Some(micros) => if micros == 0 then Err(RoundsToZero) else Ok(micros)
  {
    var t := whole + "." + frac;
    assert t[0] == whole[0] && t[|t| - 1] == frac[|frac| - 1];
    TrimPadding("", t, "");
    assert "" + t + "" == t;
    assert !IsDigit('.');
    CutPointOf(whole, frac);
  }

  /** Two amounts that print alike are the same amount. */
  lemma PrintedIsInjective(a: nat, b: nat)
    requires 1 <= a <= MAX_INT64 && 1 <= b <= MAX_INT64
    requires FormatMicroDollars(a) == FormatMicroDollars(b)
    ensures a == b
  {
    PrintedReadsBack(a);
    PrintedReadsBack(b);
  }
}
