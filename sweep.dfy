/**
 * The first two phases of `find_best_itinerary`: the base states
 * (app.py:102-109) and the forward sweep over `current_time`
 * (app.py:111-127). Each loop of the source is a loop of its own method
 * here, innermost first.
 */
module Sweep {
  import opened Wrappers
  import opened Scoring
  import opened DpTables

  /** app.py:97-109: fresh tables, then one base state per showtime that ends by MaxTime. */
  method BaseStates(P: Plan) returns (T: Tables)
    requires ValidPlan(P)
    ensures Inv(P, T, 0) && AllBaseReachable(P, T) && AllEarlierLose(P, T)
    ensures forall s: nat, t: nat :: s < |P.durations| && t < Width ==> (T.dp[s][t].Finite? <==> Fits(P, s, t))
  {
    var n := |P.durations|;
    T := InitialTables(n);
    InitialInv(P);
    for show := 0 to n
      invariant Inv(P, T, 0)
      invariant forall s, k :: 0 <= s < show && 0 <= k < |P.showtimes[s]| && P.showtimes[s][k] + P.durations[s] <= MaxTime ==>
        T.dp[s][P.showtimes[s][k] + P.durations[s]].Finite?
    {
      for k := 0 to |P.showtimes[show]|
        invariant Inv(P, T, 0)
        invariant forall s, j ::
          (((0 <= s < show && 0 <= j < |P.showtimes[s]|) || (s == show && 0 <= j < k)) &&
           P.showtimes[s][j] + P.durations[s] <= MaxTime) ==>
          T.dp[s][P.showtimes[s][j] + P.durations[s]].Finite?
      {
        var startTime := P.showtimes[show][k];
        var endTime := startTime + P.durations[show];
        if endTime <= MaxTime {
          SetBaseKeepsInv(P, T, show, k);
          T := SetBase(P, T, show, startTime);
        }
      }
    }
    forall s: nat, t: nat | s < |P.durations| && t < Width && Fits(P, s, t)
      ensures T.dp[s][t].Finite?
    {
      var k :| 0 <= k < |P.showtimes[s]| && P.showtimes[s][k] == t - P.durations[s];
    }
    forall s: nat, t: nat | s < |P.durations| && t < Width && T.dp[s][t].Finite?
      ensures Fits(P, s, t)
    {
      assert StateOk(P, T, s, t, 0);
    }
    NoLinksYet(P, T);
  }

  /**
   * app.py:115-127 for one reachable state (show, ct) and one next show:
   * every showtime of `next` that is far enough after ct is tried, and the
   * target state is overwritten when the new score is strictly greater.
   */
  method RelaxEdges(P: Plan, T0: Tables, ct: nat, show: nat, next: nat) returns (T: Tables)
    requires ValidPlan(P) && ct < Width && show < |P.durations| && next < |P.durations|
    requires Inv(P, T0, ct + 1) && AllBaseReachable(P, T0) && T0.dp[show][ct].Finite?
    requires AllEarlierLose(P, T0) && TriedBeforeRelaxed(P, T0, ct, show)
    ensures Inv(P, T, ct + 1) && AllBaseReachable(P, T) && Settled(P, T0, T, ct)
    ensures AllEarlierLose(P, T)
    ensures forall k: nat :: k < |P.showtimes[next]| ==> Relaxed(P, T, show, ct, next, k)
  {
    T := T0;
    var travelTime := Travel(P, show, next);
    for k := 0 to |P.showtimes[next]|
      invariant Inv(P, T, ct + 1) && AllBaseReachable(P, T) && Settled(P, T0, T, ct)
      invariant AllEarlierLose(P, T) && TriedBeforeRelaxed(P, T, ct, show)
      invariant forall j: nat :: j < k ==> Relaxed(P, T, show, ct, next, j)
    {
      var nextStartTime := P.showtimes[next][k];
      var nextEndTime := nextStartTime + P.durations[next];
      if nextStartTime >= ct + travelTime + P.buffer && nextEndTime <= MaxTime {
        assert TransitionOk(P, T, ct, show, next, k);
        var newScore := NewScore(T.dp[show][ct].value, P.scores[next], P.scoreFactor,
                                 T.seenCount[show][ct], T.seenCount[next][ct]);
        if Greater(Finite(newScore), T.dp[next][nextEndTime]) {
          WinKeepsEdgeFacts(P, T0, T, ct, show, next, k);
          var U := Record(T, next, nextEndTime, newScore, From(show, ct, T.startRecord[show][ct]),
                          T.seenCount[show][ct] + (if next == show then 1 else 0));
          assert U == Transition(P, T, ct, show, next, k);
          T := U;
        }
      }
    }
  }

  /** The facts RelaxEdges carries survive a winning transition, which is itself relaxed afterwards. */
  lemma WinKeepsEdgeFacts(P: Plan, T0: Tables, T: Tables, ct: nat, show: nat, next: nat, k: nat)
    requires ValidPlan(P) && Inv(P, T, ct + 1) && AllBaseReachable(P, T) && Settled(P, T0, T, ct)
    requires AllEarlierLose(P, T) && TriedBeforeRelaxed(P, T, ct, show)
    requires TransitionOk(P, T, ct, show, next, k)
    requires forall j: nat :: j < k ==> Relaxed(P, T, show, ct, next, j)
    requires Greater(Finite(Candidate(P, T, show, ct, next)), T.dp[next][P.showtimes[next][k] + P.durations[next]])
    ensures var U := Transition(P, T, ct, show, next, k);
      && Inv(P, U, ct + 1) && AllBaseReachable(P, U) && Settled(P, T0, U, ct)
      && AllEarlierLose(P, U) && TriedBeforeRelaxed(P, U, ct, show)
      && forall j: nat :: j <= k ==> Relaxed(P, U, show, ct, next, j)
  {
    var U := Transition(P, T, ct, show, next, k);
    TransitionKeepsInv(P, T, ct, show, next, k);
    TransitionSettles(P, T, ct, show, next, k);
    TransitionKeepsOrder(P, T, ct, show, next, k);
    forall j: nat | j < k
      ensures Relaxed(P, U, show, ct, next, j)
    {
      RelaxedKept(P, T, U, ct, show, ct, next, j);
    }
    TriedBeforeRelaxedKept(P, T, U, ct, show);
    SettledTrans(P, T0, T, U, ct);
  }

  /** app.py:114-127 for one reachable state (show, ct): every next show in index order. */
  method RelaxState(P: Plan, T0: Tables, ct: nat, show: nat) returns (T: Tables)
    requires ValidPlan(P) && ct < Width && show < |P.durations|
    requires Inv(P, T0, ct + 1) && AllBaseReachable(P, T0) && T0.dp[show][ct].Finite?
    requires AllEarlierLose(P, T0) && TriedBeforeRelaxed(P, T0, ct, show)
    ensures Inv(P, T, ct + 1) && AllBaseReachable(P, T) && Settled(P, T0, T, ct)
    ensures AllEarlierLose(P, T)
    ensures forall s: nat, k: nat :: s < |P.durations| && k < |P.showtimes[s]| ==> Relaxed(P, T, show, ct, s, k)
  {
    T := T0;
    for next := 0 to |P.durations|
      invariant Inv(P, T, ct + 1) && AllBaseReachable(P, T) && Settled(P, T0, T, ct)
      invariant AllEarlierLose(P, T) && TriedBeforeRelaxed(P, T, ct, show)
      invariant forall s: nat, k: nat :: s < next && k < |P.showtimes[s]| ==> Relaxed(P, T, show, ct, s, k)
    {
      var U := RelaxEdges(P, T, ct, show, next);
      forall s: nat, k: nat | s < next && k < |P.showtimes[s]|
        ensures Relaxed(P, U, show, ct, s, k)
      {
        RelaxedKept(P, T, U, ct, show, ct, s, k);
      }
      TriedBeforeRelaxedKept(P, T, U, ct, show);
      SettledTrans(P, T0, T, U, ct);
      T := U;
    }
  }

  /** app.py:112-127 for one `current_time`: every show in index order, skipping unreachable ones. */
  method SweepTime(P: Plan, T0: Tables, ct: nat) returns (T: Tables)
    requires ValidPlan(P) && ct < Width
    requires Inv(P, T0, ct) && AllBaseReachable(P, T0) && Closure(P, T0, ct) && AllEarlierLose(P, T0)
    ensures Inv(P, T, ct + 1) && AllBaseReachable(P, T) && Closure(P, T, ct + 1) && Settled(P, T0, T, ct)
    ensures AllEarlierLose(P, T)
  {
    InvWeaken(P, T0, ct, ct + 1);
    T := T0;
    for show := 0 to |P.durations|
      invariant Inv(P, T, ct + 1) && AllBaseReachable(P, T) && Settled(P, T0, T, ct)
      invariant AllEarlierLose(P, T) && Closure(P, T, ct)
      invariant forall p: nat, s: nat, k: nat :: p < show && s < |P.durations| && k < |P.showtimes[s]| ==>
        Relaxed(P, T, p, ct, s, k)
    {
      if T.dp[show][ct].Finite? {
        assert TriedBeforeRelaxed(P, T, ct, show);
        var U := RelaxState(P, T, ct, show);
        ClosureKept(P, T, U, ct, ct);
        forall p: nat, s: nat, k: nat | p < show && s < |P.durations| && k < |P.showtimes[s]|
          ensures Relaxed(P, U, p, ct, s, k)
        {
          RelaxedKept(P, T, U, ct, p, ct, s, k);
        }
        SettledTrans(P, T0, T, U, ct);
        T := U;
      }
    }
  }

  /**
   * app.py:111-127. Afterwards every transition out of every reachable
   * state has been tried, no state became reachable that was not a base
   * state, and no score went down.
   */
  method SweepAll(P: Plan, T0: Tables) returns (T: Tables)
    requires ValidPlan(P) && Inv(P, T0, 0) && AllBaseReachable(P, T0) && AllEarlierLose(P, T0)
    ensures Inv(P, T, Width) && AllBaseReachable(P, T) && Closure(P, T, Width) && AllEarlierLose(P, T)
    ensures Settled(P, T0, T, -1)
    ensures forall s: nat, t: nat :: s < |P.durations| && t < Width ==> (T.dp[s][t].Finite? <==> T0.dp[s][t].Finite?)
  {
    T := T0;
    for ct := 0 to Width
      invariant Inv(P, T, ct) && AllBaseReachable(P, T) && Closure(P, T, ct) && Settled(P, T0, T, -1)
      invariant AllEarlierLose(P, T)
    {
      var U := SweepTime(P, T, ct);
      SettledLess(P, T, U, ct, -1);
      SettledTrans(P, T0, T, U, -1);
      T := U;
    }
    forall s: nat, t: nat | s < |P.durations| && t < Width && T.dp[s][t].Finite?
      ensures T0.dp[s][t].Finite?
    {
      assert StateOk(P, T, s, t, Width);
      var k :| 0 <= k < |P.showtimes[s]| && P.showtimes[s][k] == t - P.durations[s];
    }
  }
}
