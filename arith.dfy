/** Small facts of integer and real arithmetic that the solver does not
    find on its own in a larger context. */
module Arith {

  function Abs(x: int): (a: nat)
    ensures a == x || a == -x
  {
    if x < 0 then -x else x
  }

  /** Multiples of a positive `den` are at least `den` apart. */
  lemma MulGap(a: int, b: int, den: int)
    requires den > 0 && a > b
    ensures a * den >= b * den + den
    ensures a >= b + 2 ==> a * den >= b * den + 2 * den
  {
    var d := a - b;
    MulDistribute(b, d, den);
    MulAtLeast(d, den);
  }

  lemma MulDistribute(b: int, d: int, den: int)
    ensures (b + d) * den == b * den + d * den
  {
  }

  lemma MulAtLeast(d: int, den: int)
    requires d >= 1 && den > 0
    ensures d * den >= den
    ensures d >= 2 ==> d * den >= 2 * den
  {
  }

  lemma CastMul(k: int, n: int)
    ensures (k * n) as real == k as real * n as real
  {
  }

  lemma DivMul(x: real, y: real)
    requires y > 0.0
    ensures (x / y) * y == x
  {
  }

  lemma Distribute(a: real, b: real, c: real)
    ensures (a - b) * c == a * c - b * c
  {
  }

  lemma HalfMul(a: real, b: real)
    ensures (a / 2.0) * b == a * b / 2.0
  {
  }

  lemma QuarterOf(d: real, n: real)
    requires n > 0.0 && -n <= 4.0 * (d * n) <= n
    ensures -0.25 <= d <= 0.25
  {
    if d > 0.25 {
      PositiveProduct(d - 0.25, n);
    }
    if d < -0.25 {
      PositiveProduct(-0.25 - d, n);
    }
  }

  /** The converse of `QuarterOf`: a ratio within 1/4 scales to a bound on `4 * (d * n)`. */
  lemma QuarterScaled(d: real, n: real)
    requires n > 0.0 && -0.25 <= d <= 0.25
    ensures -n <= 4.0 * (d * n) <= n
  {
    NonNegativeProduct(d + 0.25, n);
    NonNegativeProduct(0.25 - d, n);
    assert (d + 0.25) * n == d * n + 0.25 * n;
    assert (0.25 - d) * n == 0.25 * n - d * n;
  }

  lemma NonNegativeProduct(x: real, y: real)
    requires x >= 0.0 && y > 0.0
    ensures x * y >= 0.0
  {
  }

  lemma PositiveProduct(x: real, y: real)
    requires x > 0.0 && y > 0.0
    ensures x * y > 0.0
  {
  }

  lemma DoubleBounds(n: int, s: int, lo: int, hi: int)
    requires n * lo <= s <= n * hi
    ensures (2 * lo) * n <= 2 * s <= (2 * hi) * n
  {
    assert (2 * lo) * n == 2 * (n * lo);
    assert (2 * hi) * n == 2 * (n * hi);
  }
}
