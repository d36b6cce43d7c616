/** The rating fold shared by create, update and delete: the sum of a place's
    ratings and their mean rounded half-up to one decimal. An average is kept
    as an integer number of tenths (4.5 is 45), which is exact because every
    rating is an integer. */
module Aggregate {

  /** `ratings.reduce((sum, r) => sum + r, 0)`, defined from the front. */
  function Sum(ratings: seq<int>): int {
    if ratings == [] then 0 else ratings[0] + Sum(ratings[1..])
  }

  /** `reduce` folds from the left: the sum is the last rating added to the
      sum of the others, so the front-first definition computes the same. */
  lemma {:induction false} SumIsLeftFold(ratings: seq<int>)
    requires ratings != []
    ensures Sum(ratings) == Sum(ratings[..|ratings| - 1]) + ratings[|ratings| - 1]
    decreases |ratings|
  {
    var rest := ratings[1..];
    if rest != [] {
      SumIsLeftFold(rest);
      assert ratings[..|ratings| - 1][1..] == rest[..|rest| - 1];
    }
  }

  /** The arithmetic mean of a non-empty list of ratings. */
  function Mean(ratings: seq<int>): real
    requires |ratings| > 0
  {
    Sum(ratings) as real / |ratings| as real
  }

  /** `Math.round(x)`: the nearest integer, halves rounded up. */
  function JsRound(x: real): int {
    (x + 0.5).Floor
  }

  /** `Math.round(mean * 10)`, computed on integers as floor((20 * sum + n) / (2 * n)). */
  function RoundedMeanTenths(ratings: seq<int>): (t: int)
    requires |ratings| > 0
    ensures t == JsRound(10.0 * Mean(ratings))
  {
    var n := |ratings|;
    var t := (20 * Sum(ratings) + n) / (2 * n);
    RoundingIsHalfUp(Sum(ratings), n, t);
    t
  }

  /** The value an aggregate recomputation stores: the rounded mean, or 0
      when the place has no reviews left. */
  function AverageTenths(ratings: seq<int>): (t: int)
    ensures |ratings| == 0 ==> t == 0
    ensures |ratings| > 0 ==> t == JsRound(10.0 * Mean(ratings))
  {
    if |ratings| > 0 then RoundedMeanTenths(ratings) else 0
  }

  predicate AllRatingsValid(ratings: seq<int>) {
    forall i :: 0 <= i < |ratings| ==> 1 <= ratings[i] <= 5
  }

  lemma MulLeft(a: real, b: real, c: real)
    requires c > 0.0
    ensures a <= b <==> c * a <= c * b
    ensures a < b <==> c * a < c * b
  {
  }

  /** Floor division brackets its dividend. */
  lemma DivBracket(a: int, m: int)
    requires m > 0
    ensures m * (a / m) <= a < m * (a / m) + m
  {
    assert a == m * (a / m) + a % m;
  }

  lemma ScaleQuotient(sum: int, n: int)
    requires n > 0
    ensures (2 * n) as real * (10.0 * (sum as real / n as real) + 0.5) == (20 * sum + n) as real
  {
    var q := sum as real / n as real;
    assert q * n as real == sum as real;
    calc {
      (2 * n) as real * (10.0 * q + 0.5);
      20.0 * (q * n as real) + n as real;
      (20 * sum + n) as real;
    }
  }

  /** An integer bracket on `m * t` carries over to the real quotient. */
  lemma BracketToReal(m: int, t: int, a: int, x: real)
    requires m > 0
    requires m * t <= a < m * t + m
    requires m as real * x == a as real
    ensures t as real <= x < t as real + 1.0
  {
    var mr := m as real;
    assert (m * t) as real == mr * (t as real);
    assert (m * t + m) as real == mr * (t as real + 1.0);
    MulLeft(t as real, x, mr);
    MulLeft(x, t as real + 1.0, mr);
  }

  lemma FloorUnique(x: real, t: int)
    requires t as real <= x < t as real + 1.0
    ensures x.Floor == t
  {
  }

  /** The integer formula is `Math.round` on the exact quotient. */
  lemma RoundingIsHalfUp(sum: int, n: int, t: int)
    requires n > 0
    requires t == (20 * sum + n) / (2 * n)
    ensures t == JsRound(10.0 * (sum as real / n as real))
  {
    var x := 10.0 * (sum as real / n as real) + 0.5;
    DivBracket(20 * sum + n, 2 * n);
    ScaleQuotient(sum, n);
    BracketToReal(2 * n, t, 20 * sum + n, x);
    FloorUnique(x, t);
  }

  /** Bounds on a dividend give bounds on its floor quotient. */
  lemma QuotientBetween(a: int, m: int, lo: int, hi: int)
    requires m > 0
    requires m * lo <= a < m * (hi + 1)
    ensures lo <= a / m <= hi
  {
    var q := a / m;
    DivBracket(a, m);
    assert m * lo < m * (q + 1);
    MulCancelLt(lo, q + 1, m);
    assert m * q < m * (hi + 1);
    MulCancelLt(q, hi + 1, m);
  }

  lemma MulCancelLt(x: int, y: int, m: int)
    requires m > 0 && m * x < m * y
    ensures x < y
  {
  }

  /** With ratings from 1 to 5 the sum lies between n and 5n. */
  lemma {:induction false} SumBounds(ratings: seq<int>)
    requires AllRatingsValid(ratings)
    ensures |ratings| <= Sum(ratings) <= 5 * |ratings|
  {
    if ratings != [] {
      assert AllRatingsValid(ratings[1..]) by {
        forall i | 0 <= i < |ratings[1..]| ensures 1 <= ratings[1..][i] <= 5 {
          assert ratings[1..][i] == ratings[i + 1];
        }
      }
      SumBounds(ratings[1..]);
    }
  }

  /** A positive count of valid ratings averages between 1.0 and 5.0. */
  lemma RoundedMeanInRange(ratings: seq<int>)
    requires |ratings| > 0 && AllRatingsValid(ratings)
    ensures 10 <= RoundedMeanTenths(ratings) <= 50
  {
    var n := |ratings|;
    var s := Sum(ratings);
    SumBounds(ratings);
    assert (2 * n) * 10 <= 20 * s + n < (2 * n) * (50 + 1);
    QuotientBetween(20 * s + n, 2 * n, 10, 50);
  }

  /** Repeated ratings average to themselves: n copies of r give 10r tenths. */
  lemma {:induction false} ConstantMean(r: int, n: nat)
    requires n > 0
    ensures RoundedMeanTenths(seq(n, _ => r)) == 10 * r
  {
    SumOfConstant(r, n);
    assert (2 * n) * (10 * r) <= 20 * (n * r) + n < (2 * n) * (10 * r + 1);
    QuotientBetween(20 * (n * r) + n, 2 * n, 10 * r, 10 * r);
  }

  lemma {:induction false} SumOfConstant(r: int, n: nat)
    ensures Sum(seq(n, _ => r)) == n * r
  {
    if n > 0 {
      assert seq(n, _ => r)[1..] == seq(n - 1, _ => r);
      SumOfConstant(r, n - 1);
    }
  }
}
