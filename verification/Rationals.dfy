/** Unsigned rationals over 64-bit longs: exchange rates, slippage and the receive allowance. */
module Rationals {
  import opened Arith
  import opened Long64
  import opened MultiplyDivide
  import opened Wrappers

  datatype Fraction = Fraction(a: U64, b: U64)

  /** The constructor asserts a non-zero denominator. */
  type Rational = r: Fraction | r.b != 0 witness Fraction(0, 1)

  function Make(numer: U64, denom: U64): Result<Rational> {
    if denom == 0 then Err(ZeroDenominator) else Ok(Fraction(numer, denom))
  }

  function MultiplyByLong(r: Rational, v: U64): U64 { Floor(v, r.a, r.b) }

  function MultiplyByLongCeil(r: Rational, v: U64): U64 { Ceil(v, r.a, r.b) }

  predicate GreaterThanOne(r: Rational) { r.a > r.b }

  function Complement(r: Rational): Result<Rational> {
    if r.a > r.b then Err(ComplementAboveOne) else Ok(Fraction(Sub(r.b, r.a), r.b))
  }

  function Reciprocal(r: Rational): Result<Rational> { Make(r.b, r.a) }

  /** r * v fits in 64 bits and is computed without a loss other than the rounding. */
  ghost predicate Converts(r: Rational, v: U64) {
    r.b <= TWO63 && v * r.a < TWO64 * r.b
  }

  lemma ConversionFloors(r: Rational, v: U64)
    requires Converts(r, v)
    ensures MultiplyByLong(r, v) * r.b <= v * r.a < MultiplyByLong(r, v) * r.b + r.b
  {
    ExactWhenFits(v, r.a, r.b, v * r.a);
  }

  /** The clamp for rates above one lets no amount pass whose converted value exceeds 64 bits, so the
      packet's minimum destination amount never saturates. */
  lemma ClampStaysWithin(rate: Rational, amount: U64)
    requires GreaterThanOne(rate) && amount <= MultiplyByLong(Fraction(rate.b, rate.a), MAX)
    ensures amount * rate.a <= MAX * rate.b
  {
    MulMono(rate.b, rate.a, MAX);
    NeverExceeds(MAX, rate.b, rate.a, MAX * rate.b);
    MulMono(amount, MultiplyByLong(Fraction(rate.b, rate.a), MAX), rate.a);
  }

  /** For numerators up to 2^63 it is the largest such amount. */
  lemma ClampIsLargest(rate: Rational, amount: U64)
    requires GreaterThanOne(rate) && rate.a <= TWO63
    ensures Reciprocal(rate).Ok?
    ensures amount <= MultiplyByLong(Reciprocal(rate).value, MAX) <==> amount * rate.a <= MAX * rate.b
    ensures amount <= MultiplyByLong(Reciprocal(rate).value, MAX) ==> Converts(rate, amount)
  {
    var recip: Rational := Fraction(rate.b, rate.a);
    assert MAX * rate.b < TWO64 * rate.a;
    ConversionFloors(recip, MAX);
    var clamp := MultiplyByLong(recip, MAX);
    if amount <= clamp { MulMono(amount, clamp, rate.a); } else { MulMonoStrict(clamp, amount, rate.a); }
  }

  /** Rounding up the reciprocal gives the least source amount whose conversion reaches
      the destination amount. */
  lemma SourceAmountIsLeast(rate: Rational, destination: U64, amount: U64)
    requires 0 < rate.a <= TWO63 && destination * rate.b <= MAX * rate.a
    requires Converts(rate, amount)
    ensures Reciprocal(rate).Ok?
    ensures MultiplyByLong(rate, amount) >= destination <==>
            amount >= MultiplyByLongCeil(Reciprocal(rate).value, destination)
  {
    CeilMeaning(destination, rate.b, rate.a, destination * rate.b);
    ConversionFloors(rate, amount);
    LeastPreimage(Ceil(destination, rate.b, rate.a), destination, amount, MultiplyByLong(rate, amount), rate.a, rate.b);
  }

  lemma LeastPreimage(source: nat, destination: nat, amount: nat, converted: nat, a: nat, b: nat)
    requires a > 0 && b > 0
    requires destination * b <= source * a < destination * b + a
    requires converted * b <= amount * a < converted * b + b
    ensures converted >= destination <==> amount >= source
  {
    if amount >= source {
      MulMono(source, amount, a);
      assert (converted + 1) * b == converted * b + b;
      MulCancel(destination, converted + 1, b);
    } else {
      MulMonoStrict(amount, source, a);
      MulCancel(converted, destination, b);
    }
  }

  /** The minimum destination amount put into a packet: two nested floors. */
  function MinimumDestination(rate: Rational, slippage: Rational, amount: U64): Result<U64> {
    match Complement(slippage)
    case Ok(keep) => Ok(MultiplyByLong(keep, MultiplyByLong(rate, amount)))
    case Err(e) => Err(e)
  }

  /** It loses less than two units against the real number rate * (1 - slippage) * amount. */
  lemma MinimumDestinationBound(rate: Rational, slippage: Rational, amount: U64)
    requires Converts(rate, amount) && slippage.a <= slippage.b <= TWO63
    ensures MinimumDestination(rate, slippage, amount).Ok?
    ensures var scale := slippage.b * rate.b;
            var least := MinimumDestination(rate, slippage, amount).value * scale;
            var ideal := amount * rate.a * (slippage.b - slippage.a);
            least <= ideal < least + 2 * scale
  {
    var keep: Rational := Fraction(slippage.b - slippage.a, slippage.b);
    var x := MultiplyByLong(rate, amount);
    ConversionFloors(rate, amount);
    AtMostOneConverts(keep, x);
    ConversionFloors(keep, x);
    NestedFloors(amount * rate.a, x, MultiplyByLong(keep, x), rate.b, keep.a, keep.b);
  }

  /** And it never asks for more than that number, for every rate and slippage. */
  lemma MinimumNeverExceeds(rate: Rational, slippage: Rational, amount: U64)
    requires amount * rate.a <= MAX * rate.b && slippage.a <= slippage.b
    ensures MinimumDestination(rate, slippage, amount).Ok?
    ensures MinimumDestination(rate, slippage, amount).value * (slippage.b * rate.b) <=
            amount * rate.a * (slippage.b - slippage.a)
  {
    var x, keep := MultiplyByLong(rate, amount), slippage.b - slippage.a;
    var m := Floor(x, keep, slippage.b);
    NeverExceeds(amount, rate.a, rate.b, amount * rate.a);
    MulMono(keep, slippage.b, x);
    MulMono(x, MAX, slippage.b);
    NeverExceeds(x, keep, slippage.b, x * keep);
    NestedProducts(m, slippage.b, x, keep, amount * rate.a, rate.b);
  }

  lemma NestedProducts(m: nat, kb: nat, x: nat, ka: nat, n: nat, rb: nat)
    requires m * kb <= x * ka && x * rb <= n
    ensures m * (kb * rb) <= n * ka
  {
    MulMono(m * kb, x * ka, rb);
    MulMono(x * rb, n, ka);
    assert m * kb * rb == m * (kb * rb);
    assert x * ka * rb == x * rb * ka by { assert x * ka * rb == x * (ka * rb) == x * (rb * ka); }
  }

  /** The two constructions that can fail do so exactly on a slippage above one and on a rate of zero. */
  lemma FailuresOfRationals(r: Rational)
    ensures Complement(r).Ok? <==> r.a <= r.b
    ensures Complement(r).Ok? ==> Complement(r).value.a + r.a == r.b == Complement(r).value.b
    ensures Reciprocal(r).Ok? <==> r.a != 0
    ensures Reciprocal(r).Ok? ==> Reciprocal(r).value.a == r.b && Reciprocal(r).value.b == r.a
  {}

  lemma AtMostOneConverts(r: Rational, v: U64)
    requires r.a <= r.b <= TWO63
    ensures Converts(r, v)
  {
    MulMono(r.a, r.b, v);
    MulMonoStrict(v, TWO64, r.b);
  }

  lemma NestedFloors(n: nat, x: nat, m: nat, rb: nat, ka: nat, kb: nat)
    requires rb > 0 && ka <= kb && kb > 0
    requires x * rb <= n < x * rb + rb
    requires m * kb <= x * ka < m * kb + kb
    ensures m * (kb * rb) <= n * ka < m * (kb * rb) + 2 * (kb * rb)
  {
    Rescale(m, kb, x * ka, rb);
    Rescale(x, rb, n, ka);
    assert x * (rb * ka) == x * ka * rb by { assert x * (rb * ka) == x * (ka * rb) == x * ka * rb; }
    MulMono(ka, kb, rb);
    assert ka * rb == rb * ka;
    MulMono(1, kb, rb);
  }

  lemma Rescale(q: nat, d: nat, n: nat, k: nat)
    requires q * d <= n < q * d + d
    ensures q * (d * k) <= n * k <= q * (d * k) + d * k - k
  {
    MulMono(q * d, n, k);
    MulMono(n + 1, q * d + d, k);
    assert q * d * k == q * (d * k);
    assert (q * d + d) * k == q * d * k + d * k && (n + 1) * k == n * k + k;
  }
}
