/** a * b / c in 64 bits without a wide product: the quotient and the remainder
    are built by doubling, one bit of `a` at a time. */
module MultiplyDivide {
  import opened Arith
  import opened Long64

  datatype QuoRem = QuoRem(quo: U64, rem: U64)

  /** Adds the current addend (qn, rn) to the result, carrying out of the remainder. */
  function AddBit(quo: U64, rem: U64, qn: U64, rn: U64, c: U64): QuoRem {
    var rem1 := Add(rem, rn);
    if rem1 >= c then
      QuoRem(Add(Add(quo, qn), 1), Sub(rem1, c))
    else
      QuoRem(Add(quo, qn), rem1)
  }

  /** Doubles the addend. */
  function NextBit(qn: U64, rn: U64, c: U64): QuoRem {
    var rn1 := Double(rn);
    if rn1 >= c then QuoRem(Add(Double(qn), 1), Sub(rn1, c)) else QuoRem(Double(qn), rn1)
  }

  /** The loop from the given locals; a quotient below the previous one is an overflow. */
  function Loop(a: U64, quo: U64, rem: U64, qn: U64, rn: U64, c: U64): QuoRem {
    if a == 0 then
      QuoRem(quo, rem)
    else
      var s := if a % 2 == 1 then AddBit(quo, rem, qn, rn, c) else QuoRem(quo, rem);
      if s.quo < quo then
        QuoRem(MAX, 0)
      else
        var next := NextBit(qn, rn, c);
        Loop(a / 2, s.quo, s.rem, next.quo, next.rem, c)
  }

  function MulDiv(a: U64, b: U64, c: U64): QuoRem
    requires c > 0
  {
    Loop(a, 0, 0, b / c, b % c, c)
  }

  function Floor(a: U64, b: U64, c: U64): U64
    requires c > 0
  {
    MulDiv(a, b, c).quo
  }

  function Ceil(a: U64, b: U64, c: U64): U64
    requires c > 0
  {
    var r := MulDiv(a, b, c);
    if r.quo == MAX then r.quo else Add(r.quo, if r.rem == 0 then 0 else 1)
  }

  function Round(a: U64, b: U64, c: U64): U64
    requires c > 0
  {
    var r := MulDiv(a, b, c);
    if r.quo == MAX then
      r.quo
    else
      var roundUp := r.rem != 0 && if c % 2 == 1 then r.rem > c / 2 else r.rem >= c / 2;
      if roundUp then Add(r.quo, 1) else r.quo
  }

  /** The loop of the source. */
  method Compute(a0: U64, b: U64, c: U64) returns (quo: U64, rem: U64)
    requires c > 0
    ensures QuoRem(quo, rem) == MulDiv(a0, b, c)
  {
    var a := a0;
    quo, rem := 0, 0;
    var qn: U64, rn: U64 := b / c, b % c;
    while a != 0
      invariant Loop(a, quo, rem, qn, rn, c) == MulDiv(a0, b, c)
    {
      var oldQuo := quo;
      if a % 2 == 1 {
        quo := Add(quo, qn);
        rem := Add(rem, rn);
        if rem >= c {
          quo := Add(quo, 1);
          rem := Sub(rem, c);
        }
      }
      if quo < oldQuo {
        return MAX, 0;
      }
      a := a / 2;
      qn := Double(qn);
      rn := Double(rn);
      if rn >= c {
        qn := Add(qn, 1);
        rn := Sub(rn, c);
      }
    }
  }

  // ----- one bit, without a width

  /** (q, r) stands for some number divided by c; these are twice that number and its division. */
  function TwiceQ(q: nat, r: nat, c: nat): nat { if 2 * r >= c then 2 * q + 1 else 2 * q }
  function TwiceR(r: nat, c: nat): nat { if 2 * r >= c then 2 * r - c else 2 * r }
  function SumQ(quo: nat, rem: nat, q: nat, r: nat, c: nat): nat { if rem + r >= c then quo + q + 1 else quo + q }
  function SumR(rem: nat, r: nat, c: nat): nat { if rem + r >= c then rem + r - c else rem + r }

  /** qn is q cut to a word, which matters only once q has left 64 bits. */
  lemma NextBitDoubles(qn: U64, q: nat, r: U64, c: U64)
    requires 0 < c <= TWO63 && r < c
    requires q < TWO64 ==> qn == q
    ensures NextBit(qn, r, c).rem == TwiceR(r, c) < c
    ensures TwiceQ(q, r, c) < TWO64 ==> NextBit(qn, r, c).quo == TwiceQ(q, r, c)
  {}

  lemma TwiceDivides(q: nat, r: nat, c: nat)
    requires r < c
    ensures Times(TwiceQ(q, r, c), c) + TwiceR(r, c) == 2 * (Times(q, c) + r)
  {
    TimesIsProduct(q, c);
    TimesIsProduct(TwiceQ(q, r, c), c);
    assert 2 * q * c == 2 * (q * c) && (2 * q + 1) * c == 2 * (q * c) + c;
  }

  lemma SumDivides(quo: nat, rem: nat, q: nat, r: nat, c: nat)
    requires rem < c && r < c
    ensures SumR(rem, r, c) < c
    ensures Times(SumQ(quo, rem, q, r, c), c) + SumR(rem, r, c) == Times(quo, c) + rem + Times(q, c) + r
  {
    TimesIsProduct(quo, c);
    TimesIsProduct(q, c);
    TimesIsProduct(SumQ(quo, rem, q, r, c), c);
    assert (quo + q) * c == quo * c + q * c && (quo + q + 1) * c == quo * c + q * c + c;
  }

  /** With an addend that fits, a wrap shows as a smaller quotient unless the
      addend is 2^64 - 1 and the remainder carries. */
  lemma AddBitWraps(quo: U64, rem: U64, q: U64, r: U64, c: U64)
    requires 0 < c <= TWO63 && rem < c && r < c
    ensures var s := AddBit(quo, rem, q, r, c);
            && s.rem == SumR(rem, r, c)
            && (SumQ(quo, rem, q, r, c) < TWO64 ==> s.quo == SumQ(quo, rem, q, r, c))
            && (SumQ(quo, rem, q, r, c) >= TWO64 && !(q == MAX && rem + r >= c) ==> s.quo < quo)
  {}

  lemma QuotientFits(q: nat, r: nat, c: nat)
    requires c > 0 && Times(q, c) + r < TWO64 * c
    ensures q < TWO64
  {
    TimesIsProduct(q, c);
    MulCancel(q, TWO64, c);
  }

  // ----- exactness

  /** What the bits of `a` still contribute when the current addend is worth x. */
  ghost function Rest(a: nat, x: nat): nat {
    if a == 0 then 0 else (if a % 2 == 1 then x else 0) + Rest(a / 2, 2 * x)
  }

  lemma {:induction false} RestIsProduct(a: nat, x: nat)
    ensures Rest(a, x) == a * x
  {
    if a > 0 {
      RestIsProduct(a / 2, 2 * x);
      HalfProduct(a, x);
    }
  }

  lemma {:induction false} LoopExact(a: U64, quo: U64, rem: U64, qn: U64, q: nat, r: U64, c: U64, n: nat)
    requires 0 < c <= TWO63 && rem < c && r < c
    requires q < TWO64 ==> qn == q
    requires Times(quo, c) + rem + Rest(a, Times(q, c) + r) == n < TWO64 * c
    ensures var s := Loop(a, quo, rem, qn, r, c); Times(s.quo, c) + s.rem == n && s.rem < c
  {
    if a != 0 {
      NextBitDoubles(qn, q, r, c);
      TwiceDivides(q, r, c);
      var next, q1 := NextBit(qn, r, c), TwiceQ(q, r, c);
      if a % 2 == 1 {
        SumDivides(quo, rem, q, r, c);
        QuotientFits(SumQ(quo, rem, q, r, c), SumR(rem, r, c), c);
        AddBitWraps(quo, rem, q, r, c);
        LoopExact(a / 2, SumQ(quo, rem, q, r, c), SumR(rem, r, c), next.quo, q1, next.rem, c, n);
      } else {
        LoopExact(a / 2, quo, rem, next.quo, q1, next.rem, c, n);
      }
    }
  }

  lemma ExactWhenFits(a: U64, b: U64, c: U64, ab: nat)
    requires 0 < c <= TWO63 && ab == a * b < TWO64 * c
    ensures var s := MulDiv(a, b, c); s.quo * c + s.rem == ab && s.rem < c
  {
    var q: U64, r: U64 := b / c, b % c;
    DivMod(b, c);
    TimesIsProduct(q, c);
    RestIsProduct(a, b);
    LoopExact(a, 0, 0, q, q, r, c, ab);
    TimesIsProduct(MulDiv(a, b, c).quo, c);
  }

  lemma ExactQuotient(a: U64, b: U64, c: U64, ab: nat)
    requires 0 < c <= TWO63 && ab == a * b < TWO64 * c
    ensures MulDiv(a, b, c).quo == ab / c && MulDiv(a, b, c).rem == ab % c
  {
    ExactWhenFits(a, b, c, ab);
    DivisionIsUnique(ab, MulDiv(a, b, c).quo, MulDiv(a, b, c).rem, c);
  }

  ghost predicate ExactFor(a: U64, b: U64, c: U64)
    requires c > 0
  {
    var s := MulDiv(a, b, c);
    a * b / c <= MAX ==> s.quo == a * b / c && s.rem == a * b % c
  }

  /** A divisor gives exact results for all operands whose quotient fits in 64 bits
      if and only if it is at most 2^63; above that the doubled remainder wraps. */
  lemma DivisorLimit(c: U64)
    requires c > 0
    ensures (forall a: U64, b: U64 :: ExactFor(a, b, c)) <==> c <= TWO63
  {
    if c <= TWO63 {
      forall a: U64, b: U64 ensures ExactFor(a, b, c) {
        var ab := a * b;
        DivBelow(ab, TWO64, c);
        if ab < TWO64 * c { ExactQuotient(a, b, c, ab); }
      }
    } else {
      DoubledRemainderWraps(c);
    }
  }

  lemma DoubledRemainderWraps(c: U64)
    requires c > TWO63
    ensures MulDiv(2, c - 1, c).quo == 0 && !ExactFor(2, c - 1, c)
  {
    var r := 2 * (c - 1) - TWO64;
    DivisionIsUnique(c - 1, 0, c - 1, c);
    assert Loop(0, 0, r, NextBit(0, r, c).quo, NextBit(0, r, c).rem, c) == QuoRem(0, r);
    assert Loop(1, 0, 0, 0, r, c) == QuoRem(0, r);
    assert MulDiv(2, c - 1, c) == QuoRem(0, r);
    DivisionIsUnique(2 * (c - 1), 1, c - 2, c);
  }

  // ----- divisors above 2^63: the remainder may wrap, but a wrap only ever loses

  lemma AddBitLoses(quo: U64, rem: U64, qn: U64, rn: U64, c: U64, done: nat, x: nat)
    requires c > 0 && quo * c + rem <= done && qn * c + rn <= x && done + x <= MAX * c
    ensures AddBit(quo, rem, qn, rn, c).quo >= quo
    ensures AddBit(quo, rem, qn, rn, c).quo * c + AddBit(quo, rem, qn, rn, c).rem <= done + x
  {
    var sum := quo + qn;
    assert sum * c == quo * c + qn * c && (sum + 1) * c == sum * c + c;
    MulCancel(sum, MAX + 1, c);
  }

  lemma NextBitLoses(qn: U64, rn: U64, c: U64, x: nat)
    requires c > 0 && qn * c + rn <= x
    ensures NextBit(qn, rn, c).quo * c + NextBit(qn, rn, c).rem <= 2 * x
  {}

  lemma {:induction false} LoopLoses(a: U64, quo: U64, rem: U64, qn: U64, rn: U64, c: U64, done: nat, x: nat)
    requires c > 0 && quo * c + rem <= done && qn * c + rn <= x && done + Rest(a, x) <= MAX * c
    ensures var s := Loop(a, quo, rem, qn, rn, c); s.quo * c + s.rem <= done + Rest(a, x)
  {
    if a != 0 {
      var next := NextBit(qn, rn, c);
      NextBitLoses(qn, rn, c, x);
      if a % 2 == 1 {
        var s := AddBit(quo, rem, qn, rn, c);
        AddBitLoses(quo, rem, qn, rn, c, done, x);
        LoopLoses(a / 2, s.quo, s.rem, next.quo, next.rem, c, done + x, 2 * x);
      } else {
        LoopLoses(a / 2, quo, rem, next.quo, next.rem, c, done, 2 * x);
      }
    }
  }

  /** For every divisor, what comes out never stands for more than went in. */
  lemma NeverExceeds(a: U64, b: U64, c: U64, ab: nat)
    requires c > 0 && ab == a * b <= MAX * c
    ensures MulDiv(a, b, c).quo * c + MulDiv(a, b, c).rem <= ab
  {
    DivMod(b, c);
    RestIsProduct(a, b);
    LoopLoses(a, 0, 0, b / c, b % c, c, 0, b);
  }

  // ----- saturation

  /** What the caller wants: the exact division, or (MAX, 0) when it does not fit. */
  ghost predicate IsSaturated(s: QuoRem, n: nat, c: U64) {
    if n < TWO64 * c then s.quo * c + s.rem == n && s.rem < c else s == QuoRem(MAX, 0)
  }

  /** A shifted addend 2^i * b whose quotient is 2^64 * m - 1 leaves a remainder
      at least 2^i below the divisor. */
  lemma AllOnesQuotient(i: nat, b: U64, c: U64, m: nat, r: nat, x: nat)
    requires i <= 64 && m >= 1 && r < c
    requires x == Pow2(i) * b && x == TWO64 * (m * c) - c + r
    ensures c - r >= Pow2(i)
  {
    Pow2At64();
    Pow2Adds(i, 64 - i);
    var p, h, mc := Pow2(i), Pow2(64 - i), m * c;
    var d := h * mc - b;
    Distribute(p, h, mc, b);
    PositiveMultiple(p, d, c - r);
  }

  lemma PositiveMultiple(p: nat, d: int, n: nat)
    requires n > 0 && p * d == n
    ensures n >= p
  {
    if d < 1 { MulMono(d, 0, p); } else { MulMono(1, d, p); }
  }

  /** A doubled quotient of 2^64 - 1 never meets a remainder carry, so comparing with
      the old quotient sees every wrap of a 64-bit addend. */
  lemma NoCarryAtAllOnes(i: nat, b: U64, c: U64, r: nat, rem: nat, x: nat)
    requires i <= 64 && r < c && rem < c
    requires x == Pow2(i) * b && x == MAX * c + r
    ensures rem + r < c
  {
    AllOnesQuotient(i, b, c, 1, r, x);
    var p := Pow2(i);
    MulMono(b, MAX, p);
    assert b * p == x && c <= p;
  }

  /** 2^i * b, the addend of bit i before it is divided. */
  ghost function Shifted(b: nat, i: nat): nat {
    if i == 0 then b else 2 * Shifted(b, i - 1)
  }

  lemma {:induction false} ShiftedIsProduct(b: nat, i: nat)
    ensures Shifted(b, i) == Pow2(i) * b
  {
    if i > 0 {
      ShiftedIsProduct(b, i - 1);
      assert 2 * Pow2(i - 1) * b == 2 * (Pow2(i - 1) * b);
    }
  }

  lemma {:induction false} ShiftedGrows(b: nat, i: nat, k: nat)
    requires i <= k
    ensures Shifted(b, i) <= Shifted(b, k)
  {
    if i < k { ShiftedGrows(b, i, k - 1); }
  }

  /** Up to the highest bit k every addend fits and shows its wraps. */
  lemma AddendFits(i: nat, k: nat, q: nat, r: nat, rem: nat, b: U64, c: U64)
    requires i <= k <= 64 && r < c && rem < c
    requires Times(q, c) + r == Shifted(b, i) && Shifted(b, k) < TWO64 * c
    ensures q < TWO64 && (q == MAX ==> rem + r < c)
  {
    ShiftedGrows(b, i, k);
    QuotientFits(q, r, c);
    if q == MAX {
      TimesIsProduct(q, c);
      ShiftedIsProduct(b, i);
      NoCarryAtAllOnes(i, b, c, r, rem, Shifted(b, i));
    }
  }

  /** One iteration with such an addend: either the overflow is reported, or the
      quotient is still exact. */
  lemma SaturatingBit(quo: U64, rem: U64, q: U64, r: U64, c: U64)
    requires 0 < c <= TWO63 && rem < c && r < c
    requires q == MAX ==> rem + r < c
    ensures var s := AddBit(quo, rem, q, r, c);
            s.quo < quo ||
            (s.rem < c && Times(s.quo, c) + s.rem == Times(quo, c) + rem + Times(q, c) + r)
  {
    SumDivides(quo, rem, q, r, c);
    AddBitWraps(quo, rem, q, r, c);
  }

  lemma BelowLimit(quo: U64, rem: nat, c: nat)
    requires rem < c
    ensures Times(quo, c) + rem < TWO64 * c
  {
    TimesIsProduct(quo, c);
    MulMono(quo, MAX, c);
  }

  /** A run that must overflow reports it. The current addend belongs to bit i, the
      operand's highest bit is k. */
  lemma {:induction false} LoopSaturates(a: U64, quo: U64, rem: U64, q: U64, r: U64, b: U64, c: U64, i: nat, k: nat)
    requires 0 < c <= TWO63 && rem < c && r < c
    requires i <= k < 64 && a < Pow2(k - i + 1)
    requires Times(q, c) + r == Shifted(b, i) && Shifted(b, k) < TWO64 * c
    requires Times(quo, c) + rem + Rest(a, Shifted(b, i)) >= TWO64 * c
    ensures Loop(a, quo, rem, q, r, c) == QuoRem(MAX, 0)
    decreases k - i
  {
    AddendFits(i, k, q, r, rem, b, c);
    SaturatingBit(quo, rem, q, r, c);
    BelowLimit(quo, rem, c);
    var s := if a % 2 == 1 then AddBit(quo, rem, q, r, c) else QuoRem(quo, rem);
    if s.quo >= quo {
      BelowLimit(s.quo, s.rem, c);
      if i < k {
        NextBitDoubles(q, q, r, c);
        TwiceDivides(q, r, c);
        AddendFits(i + 1, k, TwiceQ(q, r, c), TwiceR(r, c), rem, b, c);
        LoopSaturates(a / 2, s.quo, s.rem, TwiceQ(q, r, c), TwiceR(r, c), b, c, i + 1, k);
      }
    }
  }

  /** With the highest bit of `a` at k, the result is right whenever the addend
      of that bit fits in 64 bits. */
  lemma SaturatesBelow(a: U64, b: U64, c: U64, k: nat, ab: nat)
    requires 0 < c <= TWO63 && k < 64 && Pow2(k) <= a < Pow2(k + 1) && ab == a * b
    requires Pow2(k) * b < TWO64 * c
    ensures IsSaturated(MulDiv(a, b, c), ab, c)
  {
    if ab < TWO64 * c {
      ExactWhenFits(a, b, c, ab);
    } else {
      var q: U64, r: U64 := b / c, b % c;
      DivMod(b, c);
      ShiftedIsProduct(b, k);
      RestIsProduct(a, b);
      TimesIsProduct(q, c);
      LoopSaturates(a, 0, 0, q, r, b, c, 0, k);
    }
  }

  /** What the doubled quotient loses is a multiple of 2^64. */
  lemma NextBitWraps(qn: U64, q: nat, lost: nat, r: U64, c: U64) returns (lost1: nat)
    requires 0 < c <= TWO63 && r < c && q == lost * TWO64 + qn
    ensures TwiceQ(q, r, c) == lost1 * TWO64 + NextBit(qn, r, c).quo
  {
    lost1 := if 2 * qn >= TWO64 then 2 * lost + 1 else 2 * lost;
  }

  /** A single high bit picks out its wrapped addend. */
  lemma {:induction false} LoopOfPower(i: nat, k: nat, qn: U64, q: nat, lost: nat, r: U64, b: U64, c: U64)
    returns (q1: nat, lost1: nat, r1: U64)
    requires 0 < c <= TWO63 && r < c && i <= k < 64
    requires q == lost * TWO64 + qn && Times(q, c) + r == Shifted(b, i)
    ensures r1 < c && Times(q1, c) + r1 == Shifted(b, k)
    ensures Pow2(k - i) < TWO64 && q1 - lost1 * TWO64 == Loop(Pow2(k - i), 0, 0, qn, r, c).quo
    decreases k - i
  {
    PowerFits(k - i);
    var next := NextBit(qn, r, c);
    if i == k {
      q1, lost1, r1 := q, lost, r;
      assert Loop(0, qn, r, next.quo, next.rem, c) == QuoRem(qn, r);
    } else {
      NextBitDoubles(qn, q, r, c);
      TwiceDivides(q, r, c);
      var lost2 := NextBitWraps(qn, q, lost, r, c);
      q1, lost1, r1 := LoopOfPower(i + 1, k, next.quo, TwiceQ(q, r, c), lost2, next.rem, b, c);
      assert Pow2(k - i) == 2 * Pow2(k - i - 1);
    }
  }

  lemma PowerFits(k: nat)
    requires k < 64
    ensures Pow2(k) < TWO64
  {
    Pow2At64();
    Pow2Grows(k, 63);
  }

  /** The whole truth about saturation: among the operands with highest bit k every one
      is handled correctly if and only if 2^k * b / c fits in 64 bits. When it does not,
      2^k itself is an overflow that is missed. */
  lemma SaturationLimit(b: U64, c: U64, k: nat)
    requires 0 < c <= TWO63 && k < 64
    ensures (forall a: U64 :: Pow2(k) <= a < Pow2(k + 1) ==> IsSaturated(MulDiv(a, b, c), a * b, c))
            <==> Pow2(k) * b < TWO64 * c
  {
    var x := Pow2(k) * b;
    if x < TWO64 * c {
      forall a: U64 | Pow2(k) <= a < Pow2(k + 1) ensures IsSaturated(MulDiv(a, b, c), a * b, c) {
        SaturatesBelow(a, b, c, k, a * b);
      }
    } else {
      PowerFits(k);
      PowerMissesOverflow(b, c, k, x);
      assert !IsSaturated(MulDiv(Pow2(k), b, c), Pow2(k) * b, c);
    }
  }

  lemma PowerMissesOverflow(b: U64, c: U64, k: nat, x: nat)
    requires 0 < c <= TWO63 && k < 64 && Pow2(k) < TWO64
    requires x == Pow2(k) * b && x >= TWO64 * c
    ensures MulDiv(Pow2(k), b, c).quo != MAX
  {
    var q0: U64, r0: U64 := b / c, b % c;
    DivMod(b, c);
    TimesIsProduct(q0, c);
    var q, lost, r := LoopOfPower(0, k, q0, q0, 0, r0, b, c);
    ShiftedIsProduct(b, k);
    WrappedIsNotMax(b, c, k, x, q, lost, r);
  }

  lemma WrappedIsNotMax(b: U64, c: U64, k: nat, x: nat, q: nat, lost: nat, r: nat)
    requires c > 0 && k < 64 && r < c
    requires x == Pow2(k) * b && Times(q, c) + r == x && x >= TWO64 * c
    ensures q - lost * TWO64 != MAX
  {
    PowerExceedsDivisor(Pow2(k), b, c, x);
    TimesIsProduct(q, c);
    if q == lost * TWO64 + MAX {
      AllOnesProduct(q, lost, c);
      AllOnesQuotient(k, b, c, lost + 1, r, x);
    }
  }

  lemma PowerExceedsDivisor(p: nat, b: U64, c: nat, x: nat)
    requires p > 0 && x == p * b && x >= TWO64 * c
    ensures p > c
  {
    MulMono(b, MAX, p);
    assert b * p == x;
  }

  lemma AllOnesProduct(q: nat, lost: nat, c: nat)
    requires q == lost * TWO64 + MAX
    ensures q * c == TWO64 * ((lost + 1) * c) - c
  {
    assert (TWO64 * (lost + 1) - 1) * c == TWO64 * ((lost + 1) * c) - c;
  }

  /** Ratios below two saturate correctly on every operand. */
  lemma SaturatesForSmallRatio(a: U64, b: U64, c: U64)
    requires 0 < c <= TWO63 && b < 2 * c
    ensures IsSaturated(MulDiv(a, b, c), a * b, c)
  {
    if a > 0 {
      var k := TopBit(a);
      Pow2At64();
      Pow2Grows(k, 63);
      MulMono(Pow2(k), TWO63, b);
      SaturatesBelow(a, b, c, k, a * b);
    }
  }

  // ----- the roundings

  /** The least integer whose product with c reaches a * b, and the maximum when that does not fit. */
  lemma CeilMeaning(a: U64, b: U64, c: U64, ab: nat)
    requires 0 < c <= TWO63 && ab == a * b
    ensures ab <= MAX * c ==> ab <= Ceil(a, b, c) * c < ab + c
    ensures ab > MAX * c && IsSaturated(MulDiv(a, b, c), ab, c) ==> Ceil(a, b, c) == MAX
  {
    if ab < TWO64 * c {
      ExactWhenFits(a, b, c, ab);
      var s := MulDiv(a, b, c);
      assert (s.quo + 1) * c == s.quo * c + c;
      if ab > MAX * c { MulCancel(MAX, s.quo + 1, c); }
    }
  }

  /** Rounding is to the nearest integer, ties upwards, and to the maximum from there on. */
  lemma RoundMeaning(a: U64, b: U64, c: U64, ab: nat)
    requires 0 < c <= TWO63 && ab == a * b
    ensures ab < MAX * c ==> 2 * ab - c < 2 * (Round(a, b, c) * c) <= 2 * ab + c
    ensures ab >= MAX * c && IsSaturated(MulDiv(a, b, c), ab, c) ==> Round(a, b, c) == MAX
  {
    if ab < TWO64 * c {
      ExactWhenFits(a, b, c, ab);
      var s := MulDiv(a, b, c);
      assert (s.quo + 1) * c == s.quo * c + c;
      if ab < MAX * c { MulCancel(s.quo, MAX, c); } else { MulCancel(MAX, s.quo + 1, c); }
    }
  }
}
