/**
 * Raising `score_factor` can raise the best score that `find_best_itinerary`
 * finds. The decay at app.py:119-122 reads the count of the target show's
 * cell at `current_time`, and that count depends on which predecessor won
 * a cell earlier in the sweep. A larger factor can change that winner, and
 * with it the count a later visit is decayed by.
 *
 * The input: two shows of 10 minutes, no walks, no buffer, show 0 at
 * minutes 0, 20 and 40, show 1 at minute 5, scores 10 and 4.9. The facts
 * used are the ones `find_best_itinerary` establishes of its final tables
 * (Itinerary.FindBestItinerary): the invariant, the closure and every base
 * state reachable.
 */
module DecayFactor {
  import opened Scoring
  import opened DpTables

  function Example(factor: real): Plan {
    Plan([10, 10], [[0, 0], [0, 0]], [[0, 20, 40], [5]], [10.0, 4.9], factor, 0)
  }

  /** The final tables of the sweep over the example, as far as the proofs below need them. */
  ghost predicate Final(factor: real, T: Tables) {
    && ValidPlan(Example(factor))
    && Inv(Example(factor), T, Width)
    && Closure(Example(factor), T, Width)
    && AllBaseReachable(Example(factor), T)
  }

  /** The only reachable states are the ends of the four showtimes. */
  lemma Unreachable(factor: real, T: Tables, s: nat, t: nat)
    requires ValidPlan(Example(factor)) && Inv(Example(factor), T, Width)
    requires s < 2 && t < Width
    requires !(s == 0 && (t == 10 || t == 30 || t == 50)) && !(s == 1 && t == 15)
    ensures T.dp[s][t].NegInf? && T.seenCount[s][t] == 0
  {
    var P := Example(factor);
    assert StateOk(P, T, s, t, Width);
  }

  /**
   * A reachable state whose every link would lead to an unreachable state
   * is a base state: it holds the show's own score with count 1.
   */
  lemma BaseOnly(factor: real, T: Tables, s: nat, t: nat)
    requires ValidPlan(Example(factor)) && Inv(Example(factor), T, Width)
    requires (s == 0 && t == 10) || (s == 1 && t == 15)
    requires T.dp[s][t].Finite?
    ensures T.dp[s][t] == Finite(Example(factor).scores[s]) && T.seenCount[s][t] == 1
  {
    assert StateOk(Example(factor), T, s, t, Width);
    if T.backtrack[s][t].From? {
      var link := T.backtrack[s][t];
      Unreachable(factor, T, link.show, link.time);
    }
  }

  /** The first two visits: (0, 10) and (1, 15) are base states, and nothing ends at (0, 15). */
  lemma FirstVisits(factor: real, T: Tables)
    requires Final(factor, T)
    ensures T.dp[0][10] == Finite(10.0) && T.seenCount[0][10] == 1
    ensures T.dp[1][15] == Finite(4.9) && T.seenCount[1][15] == 1
    ensures T.dp[0][15].NegInf? && T.seenCount[0][15] == 0
  {
    var P := Example(factor);
    assert P.showtimes[0][0] + P.durations[0] == 10;
    assert P.showtimes[1][0] + P.durations[1] == 15;
    BaseOnly(factor, T, 0, 10);
    BaseOnly(factor, T, 1, 15);
    Unreachable(factor, T, 0, 15);
  }

  /**
   * (0, 30) is won by staying at show 0 when 10 / factor beats 4.9, with
   * count 2, and by coming from show 1 when it does not, with count 1.
   */
  lemma SecondVisit(factor: real, T: Tables)
    requires factor >= 1.0 && Final(factor, T)
    ensures 10.0 / factor > 4.9 ==> T.dp[0][30] == Finite(10.0 + 10.0 / factor) && T.seenCount[0][30] == 2
    ensures 10.0 / factor < 4.9 ==> T.dp[0][30] == Finite(14.9) && T.seenCount[0][30] == 1
  {
    var P := Example(factor);
    FirstVisits(factor, T);
    assert Pow(factor, 1) == factor && Pow(factor, 0) == 1.0;
    assert Candidate(P, T, 0, 10, 0) == 10.0 + 10.0 / factor;
    assert Candidate(P, T, 1, 15, 0) == 14.9;
    assert Relaxed(P, T, 0, 10, 0, 1) && Relaxed(P, T, 1, 15, 0, 1);
    assert StateOk(P, T, 0, 30, Width);
    match T.backtrack[0][30] {
      case From(p, pt, _) =>
        if !((p == 0 && pt == 10) || (p == 1 && pt == 15)) {
          Unreachable(factor, T, p, pt);
        }
      case Unset =>
    }
  }

  /** The last showtime of show 0 ends at (0, 50), reached from one of the three states before it. */
  lemma ThirdVisit(factor: real, T: Tables)
    requires factor >= 1.0 && Final(factor, T)
    ensures T.dp[0][50].Finite?
    ensures 10.0 / factor > 4.9 ==> T.dp[0][50].value == 10.0 + 10.0 / factor + 10.0 / (factor * factor)
    ensures 10.0 / factor < 4.9 ==> T.dp[0][50].value == 14.9 + 10.0 / factor
  {
    var P := Example(factor);
    assert P.showtimes[0][2] + P.durations[0] == 50;
    FirstVisits(factor, T);
    SecondVisit(factor, T);
    assert Pow(factor, 2) == factor * factor && Pow(factor, 1) == factor && Pow(factor, 0) == 1.0;
    assert Relaxed(P, T, 0, 10, 0, 2) && Relaxed(P, T, 1, 15, 0, 2) && Relaxed(P, T, 0, 30, 0, 2);
    assert StateOk(P, T, 0, 50, Width);
    match T.backtrack[0][50] {
      case From(p, pt, _) =>
        if !((p == 0 && pt == 10) || (p == 1 && pt == 15) || (p == 0 && pt == 30)) {
          Unreachable(factor, T, p, pt);
        }
      case Unset =>
    }
  }

  /** With factor 2, no state of the final tables scores more than 17.5. */
  lemma BestAtFactorTwo(T: Tables)
    requires Final(2.0, T)
    ensures forall s: nat, t: nat :: s < 2 && t < Width && T.dp[s][t].Finite? ==> T.dp[s][t].value <= 17.5
  {
    FirstVisits(2.0, T);
    SecondVisit(2.0, T);
    ThirdVisit(2.0, T);
    forall s: nat, t: nat | s < 2 && t < Width && T.dp[s][t].Finite?
      ensures T.dp[s][t].value <= 17.5
    {
      if !(s == 0 && (t == 10 || t == 30 || t == 50)) && !(s == 1 && t == 15) {
        Unreachable(2.0, T, s, t);
      }
    }
  }

  /**
   * Raising the factor from 2 to 2.1 raises the best score of the final
   * tables from at most 17.5 to more than 19.6, although every single
   * visit is worth no more (Scoring.DecayedFactorMonotone).
   */
  lemma LargerFactorScoresMore(T2: Tables, T21: Tables)
    requires Final(2.0, T2) && Final(2.1, T21)
    ensures forall s: nat, t: nat :: s < 2 && t < Width && T2.dp[s][t].Finite? ==> T2.dp[s][t].value <= 17.5
    ensures T21.dp[0][50].Finite? && T21.dp[0][50].value > 19.6
  {
    BestAtFactorTwo(T2);
    ThirdVisit(2.1, T21);
    assert 10.0 / 2.1 < 4.9;
  }
}
