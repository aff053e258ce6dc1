/** Small facts about products of reals, stated once so that no proof has to rediscover them. */
module Reals {
  /** The sign of a product, given by name. */
  lemma SignOfProduct(a: real, b: real, product: real)
    requires product == a * b
    ensures (a > 0.0 && b > 0.0) || (a < 0.0 && b < 0.0) ==> product > 0.0
    ensures a == 0.0 || b == 0.0 ==> product == 0.0
  {
    if a < 0.0 && b < 0.0 {
      ProductPositive(-a, -b);
    }
  }

  lemma ProductPositive(a: real, b: real)
    requires a > 0.0 && b > 0.0
    ensures a * b > 0.0
  {
  }

  lemma ProductNonNegative(a: real, b: real)
    requires a >= 0.0 && b >= 0.0
    ensures a * b >= 0.0
  {
  }

  function Square(x: real): (y: real)
    ensures y >= 0.0
    ensures y == 0.0 <==> x == 0.0
  {
    SignOfProduct(x, x, x * x);
    x * x
  }

  lemma SquareMonotone(a: real, b: real)
    requires 0.0 <= a <= b
    ensures Square(a) <= Square(b)
  {
    ProductNonNegative(b - a, b + a);
    assert (b - a) * (b + a) == b * b - a * a;
  }

  lemma ScaleMonotone(a: real, b: real, f: real)
    requires f > 0.0
    ensures a * f <= b * f <==> a <= b
  {
    if a <= b {
      ProductNonNegative(b - a, f);
    } else {
      ProductPositive(a - b, f);
    }
  }

  lemma ScaleKeepsOrder(a: real, b: real, f: real)
    requires a <= b && f >= 0.0
    ensures a * f <= b * f
  {
    ProductNonNegative(b - a, f);
  }

  lemma DivideBack(a: real, n: real)
    requires n > 0.0
    ensures (a / n) * n == a
  {
  }

  lemma QuotientTimes(a: real, n: real, q: real)
    requires n > 0.0 && q == a / n
    ensures a == n * q
  {
  }

  lemma DivideCompare(a: real, n: real, t: real)
    requires n > 0.0
    ensures a / n >= t <==> a >= t * n
    ensures a / n <= t <==> a <= t * n
  {
    DivideBack(a, n);
    ScaleMonotone(t, a / n, n);
    ScaleMonotone(a / n, t, n);
  }

  /** `count` equal shares. */
  function Shares(count: nat, share: real): real {
    count as real * share
  }

  /** Counting a sample adds its share once; not counting it adds nothing. */
  lemma SharesStep(before: nat, after: nat, counted: bool, share: real)
    requires after == before + if counted then 1 else 0
    ensures Shares(after, share) == Shares(before, share) + if counted then share else 0.0
  {
    var x := before as real;
    if counted {
      assert after as real == x + 1.0;
      assert (x + 1.0) * share == x * share + share;
    }
  }
}
