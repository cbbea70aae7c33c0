/** The few facts about products and quotients that the other modules lean on. */
module Arith {
  lemma MulMono(x: int, y: int, c: int)
    requires x <= y && c >= 0
    ensures x * c <= y * c
  {
    assert (y - x) * c >= 0;
  }

  lemma MulMonoStrict(x: int, y: int, c: int)
    requires x < y && c >= 0
    ensures x * c + c <= y * c
  {
    MulMono(x + 1, y, c);
    assert (x + 1) * c == x * c + c;
  }

  lemma MulCancel(x: int, y: int, c: int)
    requires c > 0 && x * c < y * c
    ensures x < y
  {
    if y <= x { MulMono(y, x, c); }
  }

  lemma DivMod(n: int, c: int)
    requires c > 0
    ensures n == n / c * c + n % c && 0 <= n % c < c
  {}

  lemma DivisionIsUnique(n: int, q: int, r: int, c: int)
    requires c > 0 && n == q * c + r && 0 <= r < c
    ensures q == n / c && r == n % c
  {
    DivMod(n, c);
    var q' := n / c;
    assert q < q' ==> q * c + c <= q' * c by { if q < q' { MulMonoStrict(q, q', c); } }
    assert q' < q ==> q' * c + c <= q * c by { if q' < q { MulMonoStrict(q', q, c); } }
  }

  /** A quotient is below a bound exactly when the dividend is below bound * divisor. */
  lemma DivBelow(n: int, bound: int, c: int)
    requires c > 0
    ensures n / c < bound <==> n < bound * c
  {
    DivMod(n, c);
    var q := n / c;
    if q < bound { MulMonoStrict(q, bound, c); } else { MulMono(bound, q, c); }
  }

  /** x * y as repeated addition: a product that the solver does not multiply out. */
  ghost function Times(x: nat, y: nat): nat {
    if x == 0 then 0 else y + Times(x - 1, y)
  }

  lemma {:induction false} TimesIsProduct(x: nat, y: nat)
    ensures Times(x, y) == x * y
  {
    if x > 0 {
      TimesIsProduct(x - 1, y);
      assert x * y == (x - 1) * y + y;
    }
  }

  lemma ProductOfDifference(x: int, y: int, c: int)
    ensures (x - y) * c == c * x - y * c
  {}

  lemma Distribute(p: int, h: int, n: int, b: int)
    ensures p * (h * n - b) == p * h * n - p * b
  {
    assert p * (h * n) == p * h * n;
  }

  lemma HalfProduct(a: nat, x: int)
    ensures a * x == a / 2 * (2 * x) + (if a % 2 == 1 then x else 0)
  {
    var h := a / 2;
    assert a == 2 * h + a % 2;
    assert a * x == 2 * h * x + a % 2 * x;
  }
}
