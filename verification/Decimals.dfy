/** Printing a rational with 19 decimals (src/util/rational.ts). */
module Decimals {
  import opened Arith
  import opened Long64
  import opened MultiplyDivide
  import opened Rationals
  import opened Wrappers

  const DIGITS: nat := 19

  function Pow10(n: nat): (p: nat)
    ensures p >= 1
  {
    if n == 0 then 1 else 10 * Pow10(n - 1)
  }

  lemma {:induction false} Pow10Adds(j: nat, k: nat)
    ensures Pow10(j + k) == Pow10(j) * Pow10(k)
  {
    if j > 0 {
      Pow10Adds(j - 1, k);
      assert 10 * Pow10(j - 1) * Pow10(k) == 10 * (Pow10(j - 1) * Pow10(k));
    }
  }

  lemma {:induction false} Pow10Grows(j: nat, k: nat)
    requires j <= k
    ensures Pow10(j) <= Pow10(k)
  {
    if j < k { Pow10Grows(j, k - 1); }
  }

  lemma Pow10Fits(n: nat)
    requires n <= DIGITS
    ensures Pow10(n) < TWO64
    ensures Pow10(DIGITS) == 10_000_000_000_000_000_000
  {
    assert Pow10(5) == 100_000;
    Pow10Adds(5, 5);
    Pow10Adds(10, 5);
    assert Pow10(4) == 10_000;
    Pow10Adds(15, 4);
    Pow10Grows(n, DIGITS);
  }

  function Power(n: nat): (p: U64)
    requires n <= DIGITS
    ensures p == Pow10(n)
  {
    Pow10Fits(n);
    Pow10(n)
  }

  /** x * 10^n */
  function Shift(x: nat, n: nat): nat {
    if n == 0 then x else 10 * Shift(x, n - 1)
  }

  lemma {:induction false} ShiftIsProduct(x: nat, n: nat)
    ensures Shift(x, n) == x * Pow10(n)
  {
    if n > 0 {
      ShiftIsProduct(x, n - 1);
      assert x * (10 * Pow10(n - 1)) == 10 * (x * Pow10(n - 1));
    }
  }

  lemma {:induction false} ShiftAdds(x: nat, j: nat, k: nat)
    ensures Shift(Shift(x, j), k) == Shift(x, j + k)
  {
    if k > 0 { ShiftAdds(x, j, k - 1); }
  }

  // ----- decimal digits

  predicate IsDigits(s: string) { forall i :: 0 <= i < |s| ==> '0' <= s[i] <= '9' }

  /** The number a string of digits stands for. */
  function ValueOf(s: string): nat
    requires IsDigits(s)
  {
    if s == "" then 0 else 10 * ValueOf(s[..|s| - 1]) + (s[|s| - 1] as int - '0' as int)
  }

  /** A number in decimal, without leading zeros. */
  function Decimal(n: nat): (s: string)
    ensures s != "" && IsDigits(s) && ValueOf(s) == n
  {
    if n < 10 then
      [(n + '0' as int) as char]
    else
      var s := Decimal(n / 10) + [(n % 10 + '0' as int) as char];
      assert s[..|s| - 1] == Decimal(n / 10);
      s
  }

  /** A number has at most k digits exactly when it is below 10^k. */
  lemma {:induction false} DecimalLength(n: nat, k: nat)
    requires k >= 1
    ensures |Decimal(n)| <= k <==> n < Pow10(k)
  {
    assert Pow10(k) == 10 * Pow10(k - 1);
    if n >= 10 {
      if k > 1 {
        DecimalLength(n / 10, k - 1);
      } else {
        assert Pow10(1) == 10;
      }
    }
  }

  function Zeros(n: nat): (s: string)
    ensures |s| == n && IsDigits(s)
    ensures forall i :: 0 <= i < n ==> s[i] == '0'
  {
    seq(n, i => '0')
  }

  lemma {:induction false} LeadingZeros(n: nat, s: string)
    requires IsDigits(s)
    ensures IsDigits(Zeros(n) + s) && ValueOf(Zeros(n) + s) == ValueOf(s)
  {
    if s == "" {
      assert Zeros(n) + s == Zeros(n);
      ZerosAreZero(n);
    } else {
      LeadingZeros(n, s[..|s| - 1]);
      assert (Zeros(n) + s)[..n + |s| - 1] == Zeros(n) + s[..|s| - 1];
    }
  }

  lemma {:induction false} ZerosAreZero(n: nat)
    ensures ValueOf(Zeros(n)) == 0
  {
    if n > 0 {
      assert Zeros(n)[..n - 1] == Zeros(n - 1);
      ZerosAreZero(n - 1);
    }
  }

  lemma {:induction false} TrailingZeros(s: string, t: string)
    requires IsDigits(s) && IsDigits(t) && s <= t
    requires forall i :: |s| <= i < |t| ==> t[i] == '0'
    ensures ValueOf(t) == Shift(ValueOf(s), |t| - |s|)
  {
    if |s| == |t| {
      assert s == t;
    } else {
      TrailingZeros(s, t[..|t| - 1]);
    }
  }

  // ----- reading a decimal fraction back, independent of how it was printed

  predicate IsDecimal(s: string, dot: nat) {
    && dot <= |s|
    && IsDigits(s[..dot])
    && (dot < |s| ==> s[dot] == '.' && IsDigits(s[dot + 1..]) && |s| - dot - 1 <= DIGITS)
  }

  /** The value denoted by a decimal with its point at `dot` (or without a point), times 10^19. */
  function Scaled(s: string, dot: nat): nat
    requires IsDecimal(s, dot)
  {
    Shift(ValueOf(s[..dot]), DIGITS) +
    if dot == |s| then 0 else Shift(ValueOf(s[dot + 1..]), DIGITS - (|s| - dot - 1))
  }

  /** Dropping zeros, or a point nothing follows, does not change the value. */
  lemma TrimKeepsValue(s: string, t: string, dot: nat)
    requires IsDecimal(t, dot) && dot < |t| && s <= t && |s| >= dot
    requires forall i :: |s| <= i < |t| && i != dot ==> t[i] == '0'
    ensures IsDecimal(s, dot) && Scaled(s, dot) == Scaled(t, dot)
  {
    assert s[..dot] == t[..dot];
    var ft := t[dot + 1..];
    var fs := if |s| <= dot then "" else s[dot + 1..];
    FractionKeepsValue(fs, ft, DIGITS);
    if fs == "" { ShiftOfZero(DIGITS); }
  }

  lemma FractionKeepsValue(s: string, t: string, digits: nat)
    requires IsDigits(s) && IsDigits(t) && s <= t && |t| <= digits
    requires forall i :: |s| <= i < |t| ==> t[i] == '0'
    ensures Shift(ValueOf(t), digits - |t|) == Shift(ValueOf(s), digits - |s|)
  {
    TrailingZeros(s, t);
    ShiftAdds(ValueOf(s), |t| - |s|, digits - |t|);
  }

  lemma {:induction false} ShiftOfZero(n: nat)
    ensures Shift(0, n) == 0
  {
    if n > 0 { ShiftOfZero(n - 1); }
  }

  // ----- the source's methods

  method Power10(n: nat) returns (value: U64)
    requires n <= DIGITS
    ensures value == Pow10(n)
  {
    value := 1;
    var left := n;
    while left > 0
      invariant 0 <= left <= n && value == Pow10(n - left)
    {
      Pow10Fits(n - left + 1);
      assert value * 10 == Pow10(n - left + 1);
      value := Mul(value, 10);
      left := left - 1;
    }
  }

  method TrimRight(str: string, ch: char) returns (r: string)
    ensures r <= str
    ensures forall i :: |r| <= i < |str| ==> str[i] == ch
    ensures r != "" ==> r[|r| - 1] != ch
  {
    var i := |str| - 1;
    while i >= 0
      invariant -1 <= i < |str|
      invariant forall j :: i < j < |str| ==> str[j] == ch
    {
      if str[i] != ch {
        return str[..i + 1];
      }
      i := i - 1;
    }
    return "";
  }

  function Whole(r: Rational): U64 { DivMod(r.a, r.b); MulMono(1, r.b, r.a / r.b); r.a / r.b }

  function Remainder(r: Rational): U64 { DivMod(r.a, r.b); r.a % r.b }

  /** The fraction rem / b, rounded, needs one digit more than there is room for. */
  ghost predicate RoundsUpToOne(rem: nat, b: nat, digits: nat)
    requires rem < b
  {
    2 * Shift(b - rem, digits) <= b
  }

  /** The rounded remainder has more digits than there is room for. */
  ghost predicate TooLong(rem: U64, b: U64, digits: nat)
    requires b > 0 && digits <= DIGITS
  {
    |Decimal(Round(rem, Power(digits), b))| > digits
  }

  /** The text of whole + rem / b. Repeating "0" a negative number of times throws. */
  method Format(whole: U64, rem: U64, b: U64, digits: nat) returns (s: Result<string>)
    requires rem < b && 0 < digits <= DIGITS
    ensures s == Err(RangeError) <==> TooLong(rem, b, digits)
    ensures s.Err? ==> s.error == RangeError
    ensures s.Ok? ==> IsFormatted(s.value, whole, Round(rem, Power(digits), b), digits)
  {
    var power := Power10(digits);
    var fraction := Decimal(Round(rem, power, b));
    if |fraction| > digits {
      return Err(RangeError);
    }
    var padded := Zeros(digits - |fraction|) + fraction;
    LeadingZeros(digits - |fraction|, fraction);
    var text := Decimal(whole) + "." + padded;
    assert text[..|Decimal(whole)|] == Decimal(whole) && text[|Decimal(whole)| + 1..] == padded;
    return Ok(text);
  }

  ghost predicate IsFormatted(s: string, whole: nat, fraction: nat, digits: nat) {
    var dot := |Decimal(whole)|;
    && |s| == dot + 1 + digits && IsDecimal(s, dot)
    && s[..dot] == Decimal(whole) && ValueOf(s[dot + 1..]) == fraction
  }

  method ToFixed(r: Rational, digits: nat) returns (s: Result<string>)
    requires digits <= DIGITS
    ensures digits == 0 ==> s == Ok(Decimal(Whole(r)))
    ensures digits > 0 ==> (s == Err(RangeError) <==> TooLong(Remainder(r), r.b, digits))
    ensures digits > 0 && r.b <= TWO63 ==> (s == Err(RangeError) <==> RoundsUpToOne(Remainder(r), r.b, digits))
    ensures digits > 0 && s.Ok? ==>
              IsFormatted(s.value, Whole(r), Round(Remainder(r), Power(digits), r.b), digits)
    ensures s.Err? ==> s.error == RangeError
  {
    if digits == 0 {
      return Ok(Decimal(Whole(r)));
    }
    s := Format(Whole(r), Remainder(r), r.b, digits);
    if r.b <= TWO63 { FractionLength(Remainder(r), r.b, digits); }
  }

  lemma FractionLength(rem: U64, b: U64, digits: nat)
    requires rem < b <= TWO63 && 1 <= digits <= DIGITS
    ensures TooLong(rem, b, digits) <==> RoundsUpToOne(rem, b, digits)
  {
    var power := Power(digits);
    FractionFits(rem, power, b);
    RoundMeaning(rem, power, b, rem * power);
    DecimalLength(Round(rem, power, b), digits);
    CarriesToPower(Round(rem, power, b), rem * power, power, b);
    GapScaled(rem, b, digits);
  }

  lemma GapScaled(rem: nat, b: nat, digits: nat)
    requires rem <= b
    ensures Shift(b - rem, digits) == Pow10(digits) * b - rem * Pow10(digits)
  {
    ShiftIsProduct(b - rem, digits);
    ProductOfDifference(b, rem, Pow10(digits));
  }

  lemma FractionFits(rem: U64, power: U64, b: U64)
    requires rem < b && power > 0
    ensures rem * power < MAX * b
  {
    MulMonoStrict(rem, b, power);
    MulMono(power, MAX, b);
    assert b * power == power * b;
  }

  /** A number rounded to the nearest integer, ties upwards, reaches p exactly from p - 1/2 on. */
  lemma CarriesToPower(q: nat, n: nat, p: nat, b: nat)
    requires b > 0 && 2 * n - b < 2 * (q * b) <= 2 * n + b
    ensures q < p <==> !(2 * (p * b - n) <= b)
  {
    if q < p { MulMonoStrict(q, p, b); } else { MulMono(p, q, b); }
  }

  /** The value stands for a / b to within half of 10^-19. */
  ghost predicate IsClose(scaled: nat, a: nat, b: nat) {
    var ideal := Shift(a, DIGITS);
    2 * ideal - b < 2 * (scaled * b) <= 2 * ideal + b
  }

  /** Printing never fails. The decimal stands for the whole part and the rounded remainder, and with a
      denominator up to 2^63 it is within half of 10^-19 of a / b. */
  method ToString(r: Rational) returns (s: string)
    ensures IsPrinted(s, Whole(r), Decimals19(r))
    ensures r.b <= TWO63 ==> IsClose(Scaled(s, |Decimal(Whole(r))|), r.a, r.b)
  {
    var fixed := ToFixed(r, DIGITS);
    NeverTooLong(Remainder(r), r.b);
    s := Trim(fixed.value, Whole(r), Decimals19(r));
    if r.b <= TWO63 { PrintedIsClose(s, r); }
  }

  /** The remainder in units of 10^-19. */
  ghost function Decimals19(r: Rational): U64 { Round(Remainder(r), Power(DIGITS), r.b) }

  /** With 19 digits there is always room for the remainder, for every denominator: a carry would need a
      remainder of the division that is at most b - 10^19, which is less than half of b. */
  lemma NeverTooLong(rem: U64, b: U64)
    requires rem < b
    ensures !TooLong(rem, b, DIGITS)
  {
    var p, n := Power(DIGITS), rem * Power(DIGITS);
    var d := MulDiv(rem, p, b);
    Pow10Fits(DIGITS);
    FractionFits(rem, p, b);
    NeverExceeds(rem, p, b, n);
    StaysBelowPower(d.quo, d.rem, rem, b, p);
    DecimalLength(Round(rem, p, b), DIGITS);
  }

  lemma StaysBelowPower(quo: nat, left: nat, rem: nat, b: nat, p: nat)
    requires rem < b && p > 0 && quo * b + left <= rem * p
    ensures quo < p && (quo == p - 1 ==> left + p <= b)
  {
    MulMonoStrict(rem, b, p);
    assert b * p == p * b;
    if quo >= p - 1 {
      MulMono(p - 1, quo, b);
      assert (p - 1) * b == p * b - b;
      if quo >= p { MulMono(p, quo, b); }
    }
  }

  lemma PrintedIsClose(s: string, r: Rational)
    requires r.b <= TWO63 && IsPrinted(s, Whole(r), Decimals19(r))
    ensures IsClose(Scaled(s, |Decimal(Whole(r))|), r.a, r.b)
  {
    DivMod(r.a, r.b);
    RoundedIsClose(r.a, Whole(r), Remainder(r), r.b);
  }

  method Trim(text: string, ghost whole: U64, ghost fraction: nat) returns (s: string)
    requires IsFormatted(text, whole, fraction, DIGITS)
    ensures IsPrinted(s, whole, fraction)
  {
    var str := TrimRight(text, '0');
    TrimStops(text, str, |Decimal(whole)|);
    s := if str[|str| - 1] == '.' then str[..|str| - 1] else str;
    TrimIsPrinted(s, text, whole, fraction);
  }

  /** A decimal without trailing zeros or a bare point, and what it denotes. */
  ghost predicate IsPrinted(s: string, whole: nat, fraction: nat) {
    var dot := |Decimal(whole)|;
    && IsDecimal(s, dot) && s[..dot] == Decimal(whole)
    && Scaled(s, dot) == Shift(whole, DIGITS) + fraction
    && (|s| > dot ==> |s| > dot + 1 && s[|s| - 1] != '0')
  }

  lemma TrimIsPrinted(s: string, text: string, whole: U64, fraction: nat)
    requires IsFormatted(text, whole, fraction, DIGITS) && s <= text && |s| >= |Decimal(whole)|
    requires forall i :: |s| <= i < |text| && i != |Decimal(whole)| ==> text[i] == '0'
    requires |s| != |Decimal(whole)| + 1 && (|s| > |Decimal(whole)| ==> s[|s| - 1] != '0')
    ensures IsPrinted(s, whole, fraction)
  {
    var dot := |Decimal(whole)|;
    TrimKeepsValue(s, text, dot);
    ScaledIs(text, whole, fraction);
    assert s[..dot] == text[..dot];
  }

  /** Trimming zeros does not go past the point. */
  lemma TrimStops(text: string, str: string, dot: nat)
    requires IsDecimal(text, dot) && dot < |text| && str <= text
    requires forall i :: |str| <= i < |text| ==> text[i] == '0'
    ensures |str| > dot && (str[|str| - 1] == '.' <==> |str| == dot + 1)
  {}

  lemma NeverRoundsUpToOne(rem: U64, b: U64)
    requires rem < b
    ensures !RoundsUpToOne(rem, b, DIGITS)
  {
    Pow10Fits(DIGITS);
    ShiftIsProduct(b - rem, DIGITS);
    MulMono(1, b - rem, Pow10(DIGITS));
  }

  lemma RoundedIsClose(a: U64, whole: U64, rem: U64, b: U64)
    requires rem < b <= TWO63 && a == whole * b + rem
    ensures IsClose(Shift(whole, DIGITS) + Round(rem, Power(DIGITS), b), a, b)
  {
    var f := Round(rem, Power(DIGITS), b);
    RoundedFraction(rem, b, f);
    WholeAndFraction(a, whole, rem, b, f);
    CloseFrom(Shift(whole, DIGITS) + f, a, b, f * b, Shift(rem, DIGITS));
  }

  lemma RoundedFraction(rem: U64, b: U64, f: U64)
    requires rem < b <= TWO63 && f == Round(rem, Power(DIGITS), b)
    ensures 2 * Shift(rem, DIGITS) - b < 2 * (f * b) <= 2 * Shift(rem, DIGITS) + b
  {
    var p := Power(DIGITS);
    FractionFits(rem, p, b);
    ShiftIsProduct(rem, DIGITS);
    RoundMeaning(rem, p, b, rem * p);
  }

  lemma CloseFrom(scaled: nat, a: nat, b: nat, printed: int, exact: int)
    requires scaled * b - Shift(a, DIGITS) == printed - exact
    requires 2 * exact - b < 2 * printed <= 2 * exact + b
    ensures IsClose(scaled, a, b)
  {}

  lemma ScaledIs(text: string, whole: U64, fraction: nat)
    requires IsFormatted(text, whole, fraction, DIGITS)
    ensures Scaled(text, |Decimal(whole)|) == Shift(whole, DIGITS) + fraction
  {}

  lemma WholeAndFraction(a: nat, whole: nat, rem: nat, b: nat, f: nat)
    requires a == whole * b + rem
    ensures (Shift(whole, DIGITS) + f) * b - Shift(a, DIGITS) == f * b - Shift(rem, DIGITS)
  {
    ShiftIsProduct(whole, DIGITS);
    ShiftIsProduct(a, DIGITS);
    ShiftIsProduct(rem, DIGITS);
    Distribution(whole, rem, b, f, Pow10(DIGITS));
  }

  lemma Distribution(whole: nat, rem: nat, b: nat, f: nat, p: nat)
    ensures (whole * p + f) * b - (whole * b + rem) * p == f * b - rem * p
  {
    assert (whole * p + f) * b == whole * p * b + f * b;
    assert (whole * b + rem) * p == whole * b * p + rem * p;
    assert whole * p * b == whole * b * p by { assert whole * p * b == whole * (p * b) == whole * (b * p); }
  }
}
