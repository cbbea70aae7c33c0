/** Unsigned 64-bit integers, as the `Long` values of the source: a `U64` is a
    natural below 2^64 and every raw operation wraps. */
module Long64 {
  import opened Arith

  const TWO63: nat := 0x8000_0000_0000_0000
  const TWO64: nat := 0x1_0000_0000_0000_0000
  const MAX: nat := 0xFFFF_FFFF_FFFF_FFFF

  type U64 = n: nat | n < 0x1_0000_0000_0000_0000

  // ----- the operations of the Long library, which wrap modulo 2^64

  function Add(a: U64, b: U64): U64 { if a + b < TWO64 then a + b else a + b - TWO64 }

  function Sub(a: U64, b: U64): U64 { if b <= a then a - b else TWO64 + a - b }

  function Wrap(n: nat): U64 { n % TWO64 }

  function Mul(a: U64, b: U64): U64 { Wrap(a * b) }

  function Double(a: U64): U64 { Add(a, a) }

  function Min(a: U64, b: U64): U64 { if a < b then a else b }

  function Max(a: U64, b: U64): U64 { if a > b then a else b }

  // ----- checked operations

  datatype Checked = Checked(value: U64, wrapped: bool)

  /** Detecting a wrapped sum by comparing it with the operands is exact. */
  function CheckedAdd(a: U64, b: U64): (r: Checked)
    ensures r.wrapped <==> a + b > MAX
    ensures r.value == if a + b > MAX then MAX else a + b
  {
    var sum := Add(a, b);
    var overflow := sum < a || sum < b;
    Checked(if overflow then MAX else sum, overflow)
  }

  function CheckedSubtract(a: U64, b: U64): Checked {
    var difference := Sub(a, b);
    var underflow := difference > a && difference > b;
    Checked(if underflow then 0 else difference, underflow)
  }

  function CheckedMultiply(a: U64, b: U64): Checked {
    var product := Mul(a, b);
    var overflow := product < a || product < b;
    Checked(if overflow then MAX else product, overflow)
  }

  /** Subtraction saturates exactly on these operands; on all others an underflow
      goes unnoticed and the wrapped difference is returned. */
  lemma CheckedSubtractExact(a: U64, b: U64)
    ensures CheckedSubtract(a, b) == Checked(if b <= a then a - b else 0, b > a)
            <==> b <= a || 2 * b < TWO64 + a
    ensures !(b <= a || 2 * b < TWO64 + a) ==> CheckedSubtract(a, b) == Checked(TWO64 + a - b, false)
  {}

  /** n is the unbounded product. */
  ghost predicate MultipliesExactly(a: U64, b: U64, n: nat) {
    CheckedMultiply(a, b) == Checked(if n > MAX then MAX else n, n > MAX)
  }

  /** Doubling, the one use of the checked product, is exact for every operand but 0:
      the product 0 is smaller than the factor 2 and counts as an overflow. */
  lemma CheckedDoubleExact(a: U64)
    ensures MultipliesExactly(a, 2, 2 * a) <==> a != 0
  {}

  ghost predicate MissesOverflow(a: U64, b: U64) { !CheckedMultiply(a, b).wrapped && a * b > MAX }

  /** Exactly the factors 0, 1, 2 and 2^64 - 1 never overflow unnoticed. */
  lemma CheckedMultiplyMissesOverflow(b: U64)
    ensures (exists a: U64 :: MissesOverflow(a, b)) <==> 3 <= b < MAX
  {
    if b == MAX {
      forall a: U64 ensures !MissesOverflow(a, b) { LargestFactor(a); }
    } else if b > TWO63 {
      LargeFactorMisses(b, TWO64 - b);
    } else if b >= 3 {
      SmallFactorMisses(b);
    } else {
      forall a: U64 ensures !MissesOverflow(a, b) { if b == 2 && a != 0 { CheckedDoubleExact(a); } }
    }
  }

  lemma LargestFactor(a: U64)
    ensures !MissesOverflow(a, MAX)
  {
    if a > 0 { WrapLeaves(a * MAX, a - 1, TWO64 - a); }
  }

  /** The product of the largest operand that stays below 2 * 2^64 exceeds both operands even
      after it has lost 2^64. */
  lemma SmallFactorMisses(b: U64)
    requires 3 <= b <= TWO63
    ensures exists a: U64 :: MissesOverflow(a, b)
  {
    var q := (2 * TWO64 - 1) / b;
    DivMod(2 * TWO64 - 1, b);
    WitnessBound(q, b, q * b);
    WrapLeaves(q * b, 1, q * b - TWO64);
    assert MissesOverflow(q, b);
  }

  lemma WitnessBound(q: nat, b: U64, n: nat)
    requires 3 <= b <= TWO63 && n == q * b && 2 * TWO64 - b <= n < 2 * TWO64
    ensures q < TWO64 && TWO64 + q <= n && TWO64 + b <= n
  {
    if b > 3 { MulMono(4, b, q); }
    assert b * q == n;
  }

  /** With b = 2^64 - d, the least a with a * d above 2^64 leaves 2 * 2^64 - a * d, which is at least b. */
  lemma LargeFactorMisses(b: U64, d: nat)
    requires 2 <= d < TWO63 && b + d == TWO64
    ensures exists a: U64 :: MissesOverflow(a, b)
  {
    var a := TWO64 / d + 1;
    DivMod(TWO64, d);
    var n := a * d;
    assert n == TWO64 / d * d + d;
    MulMono(2, d, TWO64 / d);
    assert d * (TWO64 / d) == TWO64 / d * d;
    assert a * b == a * TWO64 - n;
    WrapLeaves(a * b, a - 2, 2 * TWO64 - n);
    assert MissesOverflow(a, b);
  }

  lemma WrapLeaves(n: nat, q: nat, r: nat)
    requires n == q * TWO64 + r && r < TWO64
    ensures Wrap(n) == r
  {
    DivisionIsUnique(n, q, r, TWO64);
  }

  // ----- powers of two

  function Pow2(k: nat): (p: nat)
    ensures p >= 1
  {
    if k == 0 then 1 else 2 * Pow2(k - 1)
  }

  lemma {:induction false} Pow2Adds(j: nat, k: nat)
    ensures Pow2(j + k) == Pow2(j) * Pow2(k)
  {
    if j > 0 {
      Pow2Adds(j - 1, k);
      assert Pow2(j + k) == 2 * Pow2(j - 1 + k);
    }
  }

  lemma {:induction false} Pow2Grows(j: nat, k: nat)
    requires j <= k
    ensures Pow2(j) <= Pow2(k)
  {
    if j < k { Pow2Grows(j, k - 1); }
  }

  lemma Pow2At32()
    ensures Pow2(32) == 0x1_0000_0000
  {
    assert Pow2(8) == 256;
    Pow2Adds(8, 8);
    Pow2Adds(16, 16);
  }

  lemma Pow2At64()
    ensures Pow2(63) == TWO63 && Pow2(64) == TWO64
  {
    Pow2At32();
    Pow2Adds(32, 32);
  }

  /** The position of the highest set bit. */
  lemma {:induction false} TopBit(a: U64) returns (k: nat)
    requires a > 0
    ensures k < 64 && Pow2(k) <= a < Pow2(k + 1)
  {
    k := 0;
    while Pow2(k + 1) <= a
      invariant Pow2(k) <= a
      invariant k < 64
      decreases a - Pow2(k)
    {
      Pow2At64();
      k := k + 1;
    }
  }
}
