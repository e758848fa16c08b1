/**
 * The score-decay rule of the planner: a visit adds the attraction's score
 * divided by `score_factor ** k` (app.py:119-122).
 */
module Scoring {

  /** `x ** k` for a natural exponent. */
  function Pow(x: real, k: nat): (r: real)
    ensures x > 0.0 ==> r > 0.0
  {
    if k == 0 then 1.0 else x * Pow(x, k - 1)
  }

  /** The contribution of a visit to an attraction whose count is `count`. */
  function Decayed(score: real, factor: real, count: nat): real
    requires factor > 0.0
  {
    score / Pow(factor, count)
  }

  /**
   * `new_score` at app.py:119-122: the predecessor's cumulative score plus
   * the full score when the predecessor's count is 0, otherwise plus the
   * score decayed by the count read from the target attraction's row.
   */
  function NewScore(previous: real, score: real, factor: real, fromCount: nat, toCount: nat): real
    requires factor > 0.0
  {
    if fromCount == 0 then previous + score else previous + Decayed(score, factor, toCount)
  }

  /** A first visit (count 0) is worth the full score. */
  lemma DecayedFirstVisit(score: real, factor: real)
    requires factor > 0.0
    ensures Decayed(score, factor, 0) == score
  {
  }

  /** Each further count divides the contribution once more by the factor. */
  lemma DecayedStep(score: real, factor: real, count: nat)
    requires factor > 0.0
    ensures Decayed(score, factor, count + 1) == Decayed(score, factor, count) / factor
  {
    var p := Pow(factor, count);
    assert Pow(factor, count + 1) == factor * p;
    assert score / (factor * p) == (score / p) / factor;
  }

  lemma {:induction false} PowAtLeastOne(x: real, k: nat)
    requires x >= 1.0
    ensures Pow(x, k) >= 1.0
  {
    if k > 0 {
      PowAtLeastOne(x, k - 1);
      var p := Pow(x, k - 1);
      assert x * p - p == (x - 1.0) * p;
    }
  }

  /** For a factor of at least 1 the power grows with the exponent. */
  lemma {:induction false} PowMonotone(x: real, j: nat, k: nat)
    requires x >= 1.0 && j <= k
    ensures Pow(x, j) <= Pow(x, k)
  {
    if j < k {
      PowMonotone(x, j, k - 1);
      PowAtLeastOne(x, k - 1);
      var p := Pow(x, k - 1);
      assert x * p - p == (x - 1.0) * p;
    }
  }

  /** For a fixed exponent the power grows with the base. */
  lemma {:induction false} PowBaseMonotone(x: real, y: real, k: nat)
    requires 1.0 <= x <= y
    ensures Pow(x, k) <= Pow(y, k)
  {
    if k > 0 {
      PowBaseMonotone(x, y, k - 1);
      PowAtLeastOne(x, k - 1);
      ProductMonotone(x, y, Pow(x, k - 1), Pow(y, k - 1));
    }
  }

  lemma ProductMonotone(a: real, b: real, c: real, d: real)
    requires 0.0 <= a <= b && 0.0 <= c <= d
    ensures a * c <= b * d
  {
    assert b * d - a * c == b * (d - c) + (b - a) * c;
    assert b * (d - c) >= 0.0 by { assert b >= 0.0 && d - c >= 0.0; }
    assert (b - a) * c >= 0.0 by { assert b - a >= 0.0 && c >= 0.0; }
  }

  lemma DivideByLarger(score: real, small: real, large: real)
    requires score >= 0.0 && 0.0 < small <= large
    ensures score / large <= score / small
  {
    assert score / small - score / large == score * (large - small) / (small * large);
  }

  /**
   * Repeated visits are worth less: with a factor of at least 1 and a
   * non-negative score, a larger count never gives a larger contribution.
   */
  lemma DecayedNonIncreasing(score: real, factor: real, j: nat, k: nat)
    requires score >= 0.0 && factor >= 1.0 && j <= k
    ensures 0.0 <= Decayed(score, factor, k) <= Decayed(score, factor, j) <= score
  {
    PowMonotone(factor, j, k);
    PowMonotone(factor, 0, j);
    DivideByLarger(score, Pow(factor, j), Pow(factor, k));
    DivideByLarger(score, 1.0, Pow(factor, j));
  }

  /** A larger factor never makes a visit worth more. */
  lemma DecayedFactorMonotone(score: real, f1: real, f2: real, count: nat)
    requires score >= 0.0 && 1.0 <= f1 <= f2
    ensures Decayed(score, f2, count) <= Decayed(score, f1, count)
  {
    PowBaseMonotone(f1, f2, count);
    DivideByLarger(score, Pow(f1, count), Pow(f2, count));
  }
}
