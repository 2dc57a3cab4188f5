/** Python 3's `round` applied to an exact rational `num / den`: the
    nearest integer, with a tie (a fractional part of exactly one half)
    going to the even neighbour. Everything is integer arithmetic; `den`
    is positive, so Dafny's `/` and `%` are floor division and a
    non-negative remainder. */
module Rounding {
  import opened Arith

  /** `k` lies within half a unit of `num / den`: `|num / den - k| <= 1/2`. */
  predicate WithinHalf(num: int, den: int, k: int)
  {
    -den <= 2 * (num - k * den) <= den
  }

  /** `num / den` lies exactly half-way between `k` and a neighbour. */
  predicate IsTie(num: int, den: int, k: int)
  {
    2 * (num - k * den) == den || 2 * (num - k * den) == -den
  }

  /** The defining property of round-half-to-even. */
  predicate IsRoundHalfEven(num: int, den: int, k: int)
  {
    WithinHalf(num, den, k) && (IsTie(num, den, k) ==> k % 2 == 0)
  }

  function RoundHalfEven(num: int, den: int): (k: int)
    requires den > 0
    ensures IsRoundHalfEven(num, den, k)
  {
    var q, rem := num / den, num % den;
    assert num - q * den == rem;
    assert num - (q + 1) * den == rem - den;
    if 2 * rem < den then q
    else if 2 * rem > den then q + 1
    else if q % 2 == 0 then q
    else q + 1
  }

  /** The defining property admits exactly one integer, so it is a
      complete specification of `RoundHalfEven`. */
  lemma RoundHalfEvenUnique(num: int, den: int, k: int)
    requires den > 0
    ensures IsRoundHalfEven(num, den, k) <==> k == RoundHalfEven(num, den)
  {
    var r := RoundHalfEven(num, den);
    if IsRoundHalfEven(num, den, k) {
      OneRoundHalfEven(num, den, k, r);
    }
  }

  lemma OneRoundHalfEven(num: int, den: int, k1: int, k2: int)
    requires den > 0
    requires IsRoundHalfEven(num, den, k1) && IsRoundHalfEven(num, den, k2)
    ensures k1 == k2
  {
    if k1 < k2 {
      Apart(num, den, k1, k2);
    } else if k2 < k1 {
      Apart(num, den, k2, k1);
    }
  }

  /** Two distinct integers within half a unit of `num / den` are
      neighbours at an exact tie, one on each side. */
  lemma Apart(num: int, den: int, k1: int, k2: int)
    requires den > 0 && k1 < k2
    requires WithinHalf(num, den, k1) && WithinHalf(num, den, k2)
    ensures k2 == k1 + 1 && IsTie(num, den, k1) && IsTie(num, den, k2)
  {
    var p1, p2 := k1 * den, k2 * den;
    MulGap(k2, k1, den);
    assert p2 >= p1 + den;
  }

  /** `RoundHalfEven` picks a nearest integer: no integer `j` is closer to
      `num / den`. */
  lemma RoundHalfEvenNearest(num: int, den: int, j: int)
    requires den > 0
    ensures var k := RoundHalfEven(num, den);
      Abs(num - k * den) <= Abs(num - j * den)
  {
    var k := RoundHalfEven(num, den);
    NearestOf(num, den, k, j);
  }

  lemma NearestOf(num: int, den: int, k: int, j: int)
    requires den > 0 && WithinHalf(num, den, k)
    ensures Abs(num - k * den) <= Abs(num - j * den)
  {
    var pk, pj := k * den, j * den;
    assert -den <= 2 * (num - pk) <= den;
    if j > k {
      MulGap(j, k, den);
      assert pj >= pk + den;
    } else if j < k {
      MulGap(k, j, den);
      assert pk >= pj + den;
    }
  }

  /** Rounding never leaves an integer interval holding `num / den`. */
  lemma RoundHalfEvenBetween(num: int, den: int, lo: int, hi: int)
    requires den > 0
    requires lo * den <= num <= hi * den
    ensures lo <= RoundHalfEven(num, den) <= hi
  {
    var k := RoundHalfEven(num, den);
    BetweenOf(num, den, k, lo, hi);
  }

  lemma BetweenOf(num: int, den: int, k: int, lo: int, hi: int)
    requires den > 0 && WithinHalf(num, den, k)
    requires lo * den <= num <= hi * den
    ensures lo <= k <= hi
  {
    var pk, plo, phi := k * den, lo * den, hi * den;
    assert -den <= 2 * (num - pk) <= den;
    if k < lo {
      MulGap(lo, k, den);
    }
    if k > hi {
      MulGap(k, hi, den);
    }
  }

  /** An exact quotient is its own rounding. */
  lemma RoundHalfEvenExact(k: int, den: int)
    requires den > 0
    ensures RoundHalfEven(k * den, den) == k
  {
    RoundHalfEvenBetween(k * den, den, k, k);
  }
}
