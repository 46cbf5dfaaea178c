/**
 * Exact rounding of the quotients the pages display. `Math.round(x)` rounds to
 * the nearest integer with halves going up, and `x.toFixed(1)` keeps one
 * decimal; both are computed here on exact rationals, and a one-decimal value
 * is held as a whole number of tenths (73 stands for 7.3).
 */
module Rounding {
  import opened Seqs

  /** `Math.round(num / den)`: the integer nearest to the quotient, halves rounded up. */
  function RoundHalfUp(num: int, den: int): (r: int)
    requires den != 0
    ensures den > 0 ==> 2 * den * r - den <= 2 * num < 2 * den * r + den
    ensures den < 0 ==> 2 * den * r + den < 2 * num <= 2 * den * r - den
  {
    if den > 0 then
      var q := (2 * num + den) / (2 * den);
      assert (2 * den) * q + (2 * num + den) % (2 * den) == 2 * num + den;
      q
    else
      var q := (-2 * num - den) / (-2 * den);
      assert (-2 * den) * q + (-2 * num - den) % (-2 * den) == -2 * num - den;
      q
  }

  /**
   * The mean of `count` scores summing to `sum`, rounded to one decimal, in
   * tenths: `Math.round(sum / count * 10)`, and also `(sum / count).toFixed(1)`.
   */
  function MeanTenths(sum: int, count: int): (t: int)
    requires count > 0
    ensures 2 * count * t - count <= 20 * sum < 2 * count * t + count
  {
    RoundHalfUp(10 * sum, count)
  }

  /** The guarded average the pages compute: 0 for no scores, else the rounded mean. */
  function Average(scores: seq<int>): (t: int)
    ensures |scores| == 0 ==> t == 0
    ensures |scores| > 0 ==> 2 * |scores| * t - |scores| <= 20 * Sum(scores) < 2 * |scores| * t + |scores|
  {
    if |scores| == 0 then 0 else MeanTenths(Sum(scores), |scores|)
  }

  /**
   * `(sum / count).toFixed(1)` in tenths. `toFixed` rounds the magnitude, so a
   * half tenth goes away from zero: up for a positive mean, down for a
   * negative one.
   */
  function FixedTenths(sum: int, count: int): (t: int)
    requires count > 0
    ensures 2 * count * t - count <= 20 * sum <= 2 * count * t + count
    ensures sum >= 0 ==> t >= 0
    ensures sum <= 0 ==> t <= 0
  {
    if sum >= 0 then RoundHalfUp(10 * sum, count) else -RoundHalfUp(-10 * sum, count)
  }

  /** The guarded average the admin page formats with `toFixed(1)`: 0 for no scores. */
  function FixedAverage(scores: seq<int>): (t: int)
    ensures |scores| == 0 ==> t == 0
    ensures |scores| > 0 ==> 2 * |scores| * t - |scores| <= 20 * Sum(scores) <= 2 * |scores| * t + |scores|
  {
    if |scores| == 0 then 0 else FixedTenths(Sum(scores), |scores|)
  }

  /** A value within half a unit of a quotient bounded by `bound` is bounded by it too. */
  lemma RoundedBound(n: int, t: int, s: int, bound: int)
    requires n > 0
    requires 2 * n * t - n <= 20 * s <= 2 * n * t + n
    ensures s <= n * bound ==> t <= 10 * bound
    ensures n * bound <= s ==> 10 * bound <= t
  {
    var u := t - 10 * bound;
    assert 2 * n * u == 2 * n * t - 20 * (n * bound);
    if s <= n * bound {
      assert 2 * n * u <= n;
    }
    if n * bound <= s {
      assert 2 * n * u + n > 0;
    }
  }

  /** A rounded mean lies between the least and the greatest of the scores. */
  lemma AverageWithinRange(scores: seq<int>)
    requires |scores| > 0
    ensures 10 * Min(scores) <= Average(scores) <= 10 * Max(scores)
  {
    SumBetween(scores, Min(scores), Max(scores));
    RoundedBound(|scores|, Average(scores), Sum(scores), Max(scores));
    RoundedBound(|scores|, Average(scores), Sum(scores), Min(scores));
  }

  /** A mean formatted by `toFixed(1)` lies between the least and the greatest of the scores. */
  lemma FixedAverageWithinRange(scores: seq<int>)
    requires |scores| > 0
    ensures 10 * Min(scores) <= FixedAverage(scores) <= 10 * Max(scores)
  {
    SumBetween(scores, Min(scores), Max(scores));
    RoundedBound(|scores|, FixedAverage(scores), Sum(scores), Max(scores));
    RoundedBound(|scores|, FixedAverage(scores), Sum(scores), Min(scores));
  }

  /** For a mean that is not negative, `toFixed(1)` and `Math.round(mean * 10) / 10` agree. */
  lemma FixedMatchesRoundForNonNegative(sum: int, count: int)
    requires count > 0 && sum >= 0
    ensures FixedTenths(sum, count) == MeanTenths(sum, count)
  {
  }
}
