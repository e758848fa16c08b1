/**
 * The state of `find_best_itinerary` (app.py:94-146): its inputs, its four
 * tables indexed by (show, end minute), and the facts that each phase of
 * the algorithm establishes about them.
 */
module DpTables {
  import opened Wrappers
  import opened Scoring

  /** The horizon of app.py:96, a day in minutes; the tables have MaxTime + 1 columns. */
  const MaxTime: nat := 24 * 60
  const Width: nat := MaxTime + 1

  /** A `dp` cell: `-float('inf')` or a finite cumulative score. */
  datatype Score = NegInf | Finite(value: real)

  /**
   * A `backtrack` cell (and the `(last_show, last_time, last_start_time)`
   * cursor of the reconstruction): `None` is Unset, `(None, None, None)` is
   * Origin, anything else names the predecessor state and its start minute.
   */
  datatype Link = Unset | Origin | From(show: nat, time: nat, start: Option<int>)

  /** The arguments of `find_best_itinerary` other than `min_value`. */
  datatype Plan = Plan(
    durations: seq<int>,
    distances: seq<seq<int>>,
    showtimes: seq<seq<int>>,
    scores: seq<real>,
    scoreFactor: real,
    buffer: int)

  /** `dp`, `backtrack`, `seen_count` and `start_times_record`, each n rows of Width cells. */
  datatype Tables = Tables(
    dp: seq<seq<Score>>,
    backtrack: seq<seq<Link>>,
    seenCount: seq<seq<nat>>,
    startRecord: seq<seq<Option<int>>>)

  /** What the caller guarantees: positive durations, non-negative walks, buffer and (rebased) showtimes. */
  ghost predicate ValidPlan(P: Plan) {
    var n := |P.durations|;
    && |P.distances| >= n && |P.showtimes| >= n && |P.scores| >= n
    && (forall s :: 0 <= s < n ==> |P.distances[s]| >= n)
    && (forall s :: 0 <= s < n ==> P.durations[s] > 0)
    && (forall s, x :: 0 <= s < n && 0 <= x < n ==> P.distances[s][x] >= 0)
    && (forall s, k :: 0 <= s < n && 0 <= k < |P.showtimes[s]| ==> P.showtimes[s][k] >= 0)
    && P.buffer >= 0
    && P.scoreFactor > 0.0
  }

  /** The walk between two shows; staying at the same show costs nothing (app.py:115). */
  function Travel(P: Plan, show: nat, next: nat): int
    requires show < |P.durations| && next < |P.durations| && |P.distances| >= |P.durations|
    requires |P.distances[show]| >= |P.durations|
  {
    if next != show then P.distances[show][next] else 0
  }

  ghost predicate Shape(P: Plan, T: Tables) {
    var n := |P.durations|;
    && |T.dp| == n && |T.backtrack| == n && |T.seenCount| == n && |T.startRecord| == n
    && forall s :: 0 <= s < n ==>
         |T.dp[s]| == Width && |T.backtrack[s]| == Width && |T.seenCount[s]| == Width && |T.startRecord[s]| == Width
  }

  /** One cell of a list of lists replaced. */
  function Put<X>(table: seq<seq<X>>, i: nat, j: nat, x: X): seq<seq<X>>
    requires i < |table| && j < |table[i]|
  {
    table[i := table[i][j := x]]
  }

  /** Strictly greater, with -inf below every finite score: the tests of app.py:113, app.py:124 and app.py:134. */
  predicate Greater(a: Score, b: Score) {
    a.Finite? && (b.NegInf? || a.value > b.value)
  }

  /** `a >= b` in the extended order with -inf at the bottom. */
  predicate AtLeast(a: Score, b: Score) {
    b.NegInf? || (a.Finite? && a.value >= b.value)
  }

  /** A state (show, end) that some showtime of the show ends at, within the horizon. */
  ghost predicate Fits(P: Plan, s: nat, t: nat)
    requires s < |P.durations| && |P.showtimes| >= |P.durations|
  {
    t <= MaxTime && t - P.durations[s] in P.showtimes[s]
  }

  /** Every showtime that ends within the horizon has a reachable state. */
  ghost predicate AllBaseReachable(P: Plan, T: Tables)
    requires ValidPlan(P) && Shape(P, T)
  {
    forall s, k ::
      (0 <= s < |P.durations| && 0 <= k < |P.showtimes[s]| && P.showtimes[s][k] + P.durations[s] <= MaxTime) ==>
      T.dp[s][P.showtimes[s][k] + P.durations[s]].Finite?
  }

  /** The score that extending the reachable state (p, pt) with a visit to s would produce (app.py:119-122). */
  ghost function Candidate(P: Plan, T: Tables, p: nat, pt: nat, s: nat): real
    requires ValidPlan(P) && Shape(P, T)
    requires p < |P.durations| && s < |P.durations| && pt < Width && T.dp[p][pt].Finite?
  {
    NewScore(T.dp[p][pt].value, P.scores[s], P.scoreFactor, T.seenCount[p][pt], T.seenCount[s][pt])
  }

  /**
   * What one cell holds. An untouched cell keeps its initial values. A
   * reachable cell is the end of a showtime of its show, records that
   * showtime's start, has a count of at least 1 and a score of at least
   * the show's own score; it is either a base state with exactly that
   * score and count 1, or it links to a reachable predecessor at a time
   * before `bound` from which the visit is feasible, and its score and
   * count are the ones that transition computes.
   */
  ghost predicate StateOk(P: Plan, T: Tables, s: nat, t: nat, bound: int)
    requires ValidPlan(P) && Shape(P, T) && s < |P.durations| && t < Width
  {
    if T.dp[s][t].NegInf? then
      T.backtrack[s][t] == Unset && T.seenCount[s][t] == 0 && T.startRecord[s][t] == None
    else
      && Fits(P, s, t)
      && T.startRecord[s][t] == Some(t - P.durations[s])
      && T.seenCount[s][t] >= 1
      && T.dp[s][t].value >= P.scores[s]
      && match T.backtrack[s][t]
         case Unset => false
         case Origin => T.dp[s][t].value == P.scores[s] && T.seenCount[s][t] == 1
         case From(p, pt, pst) =>
           && p < |P.durations| && pt < bound && pt < Width
           && T.dp[p][pt].Finite?
           && pst == Some(pt - P.durations[p])
           && t - P.durations[s] >= pt + Travel(P, p, s) + P.buffer
           && T.dp[s][t].value > P.scores[s]
           && T.dp[s][t].value == Candidate(P, T, p, pt, s)
           && T.seenCount[s][t] == T.seenCount[p][pt] + (if p == s then 1 else 0)
  }

  /** The table invariant: every cell is as StateOk says, with links to times before `bound`. */
  ghost predicate Inv(P: Plan, T: Tables, bound: int)
    requires ValidPlan(P)
  {
    && Shape(P, T)
    && forall s: nat, t: nat :: s < |P.durations| && t < Width ==> StateOk(P, T, s, t, bound)
  }

  /**
   * The transition from (p, pt) to the k-th showtime of s has been tried:
   * if it is feasible, its target is reachable with a score at least the
   * candidate's.
   */
  ghost predicate Relaxed(P: Plan, T: Tables, p: nat, pt: nat, s: nat, k: nat)
    requires ValidPlan(P) && Shape(P, T)
    requires p < |P.durations| && pt < Width && s < |P.durations| && k < |P.showtimes[s]|
  {
    var start := P.showtimes[s][k];
    var end := start + P.durations[s];
    T.dp[p][pt].Finite? && start >= pt + Travel(P, p, s) + P.buffer && end <= MaxTime ==>
      T.dp[s][end].Finite? && T.dp[s][end].value >= Candidate(P, T, p, pt, s)
  }

  /** Every transition out of a state that ends before `bound` has been tried. */
  ghost predicate Closure(P: Plan, T: Tables, bound: int)
    requires ValidPlan(P) && Shape(P, T)
  {
    forall p: nat, pt: nat, s: nat, k: nat ::
      p < |P.durations| && pt < bound && pt < Width && s < |P.durations| && k < |P.showtimes[s]| ==>
      Relaxed(P, T, p, pt, s, k)
  }

  /**
   * From T to U: no cell at a time up to `upTo` changed and no dp value
   * went down.
   */
  ghost predicate Settled(P: Plan, T: Tables, U: Tables, upTo: int)
  {
    && Shape(P, T) && Shape(P, U)
    && (forall s: nat, t: nat :: s < |P.durations| && t < Width && t <= upTo ==>
          U.dp[s][t] == T.dp[s][t] && U.backtrack[s][t] == T.backtrack[s][t] &&
          U.seenCount[s][t] == T.seenCount[s][t] && U.startRecord[s][t] == T.startRecord[s][t])
    && (forall s: nat, t: nat :: s < |P.durations| && t < Width ==> AtLeast(U.dp[s][t], T.dp[s][t]))
  }

  // ---------------------------------------------------------------------
  // The writes of the algorithm
  // ---------------------------------------------------------------------

  /** The tables before the first phase (app.py:97-100). */
  function InitialTables(n: nat): Tables {
    Tables(
      seq(n, _ => seq(Width, _ => NegInf)),
      seq(n, _ => seq(Width, _ => Unset)),
      seq(n, _ => seq(Width, _ => 0)),
      seq(n, _ => seq(Width, _ => None)))
  }

  /** The four writes of a base state (app.py:106-109). */
  function SetBase(P: Plan, T: Tables, s: nat, start: int): Tables
    requires ValidPlan(P) && Shape(P, T) && s < |P.durations|
    requires 0 <= start && start + P.durations[s] <= MaxTime
  {
    var end := start + P.durations[s];
    T.(dp := Put(T.dp, s, end, Finite(P.scores[s])),
       backtrack := Put(T.backtrack, s, end, Origin),
       startRecord := Put(T.startRecord, s, end, Some(start)),
       seenCount := Put(T.seenCount, s, end, 1))
  }

  /** The three writes of a winning transition (app.py:125-127); `start_times_record` is not written. */
  function Record(T: Tables, s: nat, t: nat, score: real, link: Link, count: nat): Tables
    requires s < |T.dp| && s < |T.backtrack| && s < |T.seenCount|
    requires t < |T.dp[s]| && t < |T.backtrack[s]| && t < |T.seenCount[s]|
  {
    T.(dp := Put(T.dp, s, t, Finite(score)),
       backtrack := Put(T.backtrack, s, t, link),
       seenCount := Put(T.seenCount, s, t, count))
  }

  // ---------------------------------------------------------------------
  // Lemmas: each write keeps the invariant
  // ---------------------------------------------------------------------

  /** The initial tables satisfy the invariant: every cell is untouched. */
  lemma InitialInv(P: Plan)
    requires ValidPlan(P)
    ensures Inv(P, InitialTables(|P.durations|), 0)
    ensures forall s: nat, t: nat :: s < |P.durations| && t < Width ==> InitialTables(|P.durations|).dp[s][t].NegInf?
  {
  }

  /** A base write keeps the invariant and makes its state reachable without touching any other reachability. */
  lemma {:induction false} SetBaseKeepsInv(P: Plan, T: Tables, s: nat, k: nat)
    requires ValidPlan(P) && Inv(P, T, 0)
    requires s < |P.durations| && k < |P.showtimes[s]|
    requires P.showtimes[s][k] + P.durations[s] <= MaxTime
    ensures var U := SetBase(P, T, s, P.showtimes[s][k]);
      && Inv(P, U, 0)
      && U.dp[s][P.showtimes[s][k] + P.durations[s]].Finite?
      && forall x: nat, t: nat :: x < |P.durations| && t < Width && T.dp[x][t].Finite? ==> U.dp[x][t].Finite?
  {
    var start := P.showtimes[s][k];
    var end := start + P.durations[s];
    var U := SetBase(P, T, s, start);
    forall x: nat, t: nat | x < |P.durations| && t < Width
      ensures StateOk(P, U, x, t, 0)
    {
      if x == s && t == end {
        assert end - P.durations[s] == start;
        assert U.backtrack[x][t] == Origin;
      } else {
        assert StateOk(P, T, x, t, 0);
        assert U.dp[x][t] == T.dp[x][t] && U.backtrack[x][t] == T.backtrack[x][t];
        assert U.seenCount[x][t] == T.seenCount[x][t] && U.startRecord[x][t] == T.startRecord[x][t];
      }
    }
  }

  /** Links to times before b1 are links to times before any b2 >= b1. */
  lemma InvWeaken(P: Plan, T: Tables, b1: int, b2: int)
    requires ValidPlan(P) && Inv(P, T, b1) && b1 <= b2
    ensures Inv(P, T, b2)
  {
    forall s: nat, t: nat | s < |P.durations| && t < Width
      ensures StateOk(P, T, s, t, b2)
    {
      assert StateOk(P, T, s, t, b1);
    }
  }

  /** A reachable cell always has a count of at least 1, so the branch of app.py:119-120 is never taken. */
  lemma ReachableCounted(P: Plan, T: Tables, bound: int, s: nat, t: nat, score: real, toCount: nat)
    requires ValidPlan(P) && Inv(P, T, bound) && s < |P.durations| && t < Width
    requires T.dp[s][t].Finite?
    ensures T.seenCount[s][t] >= 1
    ensures NewScore(T.dp[s][t].value, score, P.scoreFactor, T.seenCount[s][t], toCount) ==
      T.dp[s][t].value + Decayed(score, P.scoreFactor, toCount)
  {
    assert StateOk(P, T, s, t, bound);
  }

  /** The source of a transition tried at sweep time ct: a reachable state at ct, a feasible showtime of s. */
  ghost predicate TransitionOk(P: Plan, T: Tables, ct: nat, p: nat, s: nat, k: nat)
    requires ValidPlan(P) && Shape(P, T)
  {
    && ct < Width && p < |P.durations| && s < |P.durations| && k < |P.showtimes[s]|
    && T.dp[p][ct].Finite?
    && P.showtimes[s][k] >= ct + Travel(P, p, s) + P.buffer
    && P.showtimes[s][k] + P.durations[s] <= MaxTime
  }

  /** The tables after the transition from (p, ct) to the k-th showtime of s wins (app.py:125-127). */
  ghost function Transition(P: Plan, T: Tables, ct: nat, p: nat, s: nat, k: nat): Tables
    requires ValidPlan(P) && Shape(P, T) && TransitionOk(P, T, ct, p, s, k)
  {
    Record(T, s, P.showtimes[s][k] + P.durations[s], Candidate(P, T, p, ct, s),
           From(p, ct, T.startRecord[p][ct]), T.seenCount[p][ct] + (if s == p then 1 else 0))
  }

  /** A transition's target lies strictly after the time it is tried at. */
  lemma TransitionIsLater(P: Plan, T: Tables, ct: nat, p: nat, s: nat, k: nat)
    requires ValidPlan(P) && Shape(P, T) && TransitionOk(P, T, ct, p, s, k)
    ensures P.showtimes[s][k] + P.durations[s] > ct
  {
  }

  /** The winning transition changes nothing at times up to ct and only raises one score. */
  lemma TransitionSettles(P: Plan, T: Tables, ct: nat, p: nat, s: nat, k: nat)
    requires ValidPlan(P) && Inv(P, T, ct + 1) && AllBaseReachable(P, T) && TransitionOk(P, T, ct, p, s, k)
    requires Greater(Finite(Candidate(P, T, p, ct, s)), T.dp[s][P.showtimes[s][k] + P.durations[s]])
    ensures Settled(P, T, Transition(P, T, ct, p, s, k), ct)
    ensures AllBaseReachable(P, Transition(P, T, ct, p, s, k))
    ensures Relaxed(P, Transition(P, T, ct, p, s, k), p, ct, s, k)
  {
    var U := Transition(P, T, ct, p, s, k);
    TransitionIsLater(P, T, ct, p, s, k);
    assert Candidate(P, U, p, ct, s) == Candidate(P, T, p, ct, s);
  }

  /** After the winning transition, each cell still satisfies StateOk. */
  lemma TransitionCellOk(P: Plan, T: Tables, ct: nat, p: nat, s: nat, k: nat, x: nat, t: nat)
    requires ValidPlan(P) && Inv(P, T, ct + 1) && AllBaseReachable(P, T) && TransitionOk(P, T, ct, p, s, k)
    requires Greater(Finite(Candidate(P, T, p, ct, s)), T.dp[s][P.showtimes[s][k] + P.durations[s]])
    requires x < |P.durations| && t < Width
    ensures StateOk(P, Transition(P, T, ct, p, s, k), x, t, ct + 1)
  {
    TransitionIsLater(P, T, ct, p, s, k);
    if x == s && t == P.showtimes[s][k] + P.durations[s] {
      WrittenCellOk(P, T, ct, p, s, k);
    } else {
      UntouchedCellOk(P, T, ct, p, s, k, x, t);
    }
  }

  /** The written cell links to the reachable (p, ct), whose candidate it now holds. */
  lemma WrittenCellOk(P: Plan, T: Tables, ct: nat, p: nat, s: nat, k: nat)
    requires ValidPlan(P) && Inv(P, T, ct + 1) && AllBaseReachable(P, T) && TransitionOk(P, T, ct, p, s, k)
    requires Greater(Finite(Candidate(P, T, p, ct, s)), T.dp[s][P.showtimes[s][k] + P.durations[s]])
    requires P.showtimes[s][k] + P.durations[s] > ct
    ensures Shape(P, Transition(P, T, ct, p, s, k))
    ensures StateOk(P, Transition(P, T, ct, p, s, k), s, P.showtimes[s][k] + P.durations[s], ct + 1)
  {
    var end := P.showtimes[s][k] + P.durations[s];
    var U := Transition(P, T, ct, p, s, k);
    assert StateOk(P, T, s, end, ct + 1);
    assert StateOk(P, T, p, ct, ct + 1);
    assert T.dp[s][end].Finite?;
    assert Candidate(P, U, p, ct, s) == Candidate(P, T, p, ct, s);
  }

  /** Every other cell is unchanged, and so is the candidate of its link. */
  lemma UntouchedCellOk(P: Plan, T: Tables, ct: nat, p: nat, s: nat, k: nat, x: nat, t: nat)
    requires ValidPlan(P) && Inv(P, T, ct + 1) && TransitionOk(P, T, ct, p, s, k)
    requires x < |P.durations| && t < Width && (x != s || t != P.showtimes[s][k] + P.durations[s])
    requires P.showtimes[s][k] + P.durations[s] > ct
    ensures Shape(P, Transition(P, T, ct, p, s, k))
    ensures StateOk(P, Transition(P, T, ct, p, s, k), x, t, ct + 1)
  {
    var U := Transition(P, T, ct, p, s, k);
    assert StateOk(P, T, x, t, ct + 1);
    assert U.dp[x][t] == T.dp[x][t] && U.backtrack[x][t] == T.backtrack[x][t];
    assert U.seenCount[x][t] == T.seenCount[x][t] && U.startRecord[x][t] == T.startRecord[x][t];
    match T.backtrack[x][t]
    case From(q, qt, _) =>
      if T.dp[x][t].Finite? {
        assert Candidate(P, U, q, qt, x) == Candidate(P, T, q, qt, x);
      }
    case _ =>
  }

  /** The winning transition keeps the invariant. */
  lemma TransitionKeepsInv(P: Plan, T: Tables, ct: nat, p: nat, s: nat, k: nat)
    requires ValidPlan(P) && Inv(P, T, ct + 1) && AllBaseReachable(P, T) && TransitionOk(P, T, ct, p, s, k)
    requires Greater(Finite(Candidate(P, T, p, ct, s)), T.dp[s][P.showtimes[s][k] + P.durations[s]])
    ensures Inv(P, Transition(P, T, ct, p, s, k), ct + 1)
  {
    var U, bound := Transition(P, T, ct, p, s, k), ct + 1;
    forall x: nat, t: nat | x < |P.durations| && t < Width
      ensures StateOk(P, U, x, t, bound)
    {
      TransitionCellOk(P, T, ct, p, s, k, x, t);
    }
  }

  // ---------------------------------------------------------------------
  // Tie-breaking: a link names the first winner in sweep order
  // ---------------------------------------------------------------------

  /** The sweep tries the state (q, qt) before (p, pt): earlier time, or the same time and a lower show. */
  predicate TriedBefore(q: nat, qt: nat, p: nat, pt: nat) {
    qt < pt || (qt == pt && q < p)
  }

  /** The transition from (q, qt) to the k-th showtime of s passes the test of app.py:113 and app.py:118. */
  ghost predicate Feasible(P: Plan, T: Tables, q: nat, qt: nat, s: nat, k: nat)
    requires ValidPlan(P) && Shape(P, T)
    requires q < |P.durations| && qt < Width && s < |P.durations| && k < |P.showtimes[s]|
  {
    && T.dp[q][qt].Finite?
    && P.showtimes[s][k] >= qt + Travel(P, q, s) + P.buffer
    && P.showtimes[s][k] + P.durations[s] <= MaxTime
  }

  /**
   * A linked state's score is strictly greater than what any transition
   * into it tried before its recorded predecessor gives: since the update
   * of app.py:124 is strict, ties keep the earliest candidate.
   */
  ghost predicate EarlierLose(P: Plan, T: Tables, s: nat, t: nat)
    requires ValidPlan(P) && Shape(P, T) && s < |P.durations| && t < Width
  {
    T.dp[s][t].Finite? && T.backtrack[s][t].From? ==>
      forall q: nat, qt: nat, k: nat ::
        q < |P.durations| && qt < Width && k < |P.showtimes[s]| &&
        TriedBefore(q, qt, T.backtrack[s][t].show, T.backtrack[s][t].time) &&
        P.showtimes[s][k] + P.durations[s] == t && Feasible(P, T, q, qt, s, k) ==>
        Candidate(P, T, q, qt, s) < T.dp[s][t].value
  }

  ghost predicate AllEarlierLose(P: Plan, T: Tables)
    requires ValidPlan(P) && Shape(P, T)
  {
    forall s: nat, t: nat :: s < |P.durations| && t < Width ==> EarlierLose(P, T, s, t)
  }

  /** Before the sweep there are no links, so nothing is to be checked. */
  lemma NoLinksYet(P: Plan, T: Tables)
    requires ValidPlan(P) && Inv(P, T, 0)
    ensures AllEarlierLose(P, T)
  {
    forall s: nat, t: nat | s < |P.durations| && t < Width
      ensures EarlierLose(P, T, s, t)
    {
      assert StateOk(P, T, s, t, 0);
    }
  }

  /** Every transition tried before the state (p, ct) has been relaxed. */
  ghost predicate TriedBeforeRelaxed(P: Plan, T: Tables, ct: nat, p: nat)
    requires ValidPlan(P) && Shape(P, T)
  {
    && Closure(P, T, ct)
    && forall q: nat, s: nat, k: nat :: q < p && q < |P.durations| && s < |P.durations| && k < |P.showtimes[s]| && ct < Width ==>
         Relaxed(P, T, q, ct, s, k)
  }

  /** The winning transition keeps the tie-breaking fact, for the written cell and every other. */
  lemma TransitionKeepsOrder(P: Plan, T: Tables, ct: nat, p: nat, s: nat, k: nat)
    requires ValidPlan(P) && Inv(P, T, ct + 1) && AllBaseReachable(P, T) && TransitionOk(P, T, ct, p, s, k)
    requires Greater(Finite(Candidate(P, T, p, ct, s)), T.dp[s][P.showtimes[s][k] + P.durations[s]])
    requires AllEarlierLose(P, T) && TriedBeforeRelaxed(P, T, ct, p)
    ensures AllEarlierLose(P, Transition(P, T, ct, p, s, k))
  {
    var U := Transition(P, T, ct, p, s, k);
    TransitionIsLater(P, T, ct, p, s, k);
    forall x: nat, t: nat | x < |P.durations| && t < Width
      ensures EarlierLose(P, U, x, t)
    {
      if x == s && t == P.showtimes[s][k] + P.durations[s] {
        WinnerBeatsEarlier(P, T, ct, p, s, k);
      } else {
        OtherCellKeepsOrder(P, T, ct, p, s, k, x, t);
      }
    }
  }

  /** The written cell: every transition tried before the winner was relaxed and lost to the old score. */
  lemma WinnerBeatsEarlier(P: Plan, T: Tables, ct: nat, p: nat, s: nat, k: nat)
    requires ValidPlan(P) && Inv(P, T, ct + 1) && AllBaseReachable(P, T) && TransitionOk(P, T, ct, p, s, k)
    requires Greater(Finite(Candidate(P, T, p, ct, s)), T.dp[s][P.showtimes[s][k] + P.durations[s]])
    requires TriedBeforeRelaxed(P, T, ct, p)
    ensures Shape(P, Transition(P, T, ct, p, s, k))
    ensures EarlierLose(P, Transition(P, T, ct, p, s, k), s, P.showtimes[s][k] + P.durations[s])
  {
    var U := Transition(P, T, ct, p, s, k);
    var t := P.showtimes[s][k] + P.durations[s];
    TransitionIsLater(P, T, ct, p, s, k);
    forall q: nat, qt: nat, j: nat |
      q < |P.durations| && qt < Width && j < |P.showtimes[s]| && TriedBefore(q, qt, p, ct) &&
      P.showtimes[s][j] + P.durations[s] == t && Feasible(P, U, q, qt, s, j)
      ensures Candidate(P, U, q, qt, s) < U.dp[s][t].value
    {
      assert Relaxed(P, T, q, qt, s, j);
      assert Candidate(P, U, q, qt, s) == Candidate(P, T, q, qt, s);
    }
  }

  /** Any other cell keeps its score, its link and the candidates of everything tried before its link. */
  lemma OtherCellKeepsOrder(P: Plan, T: Tables, ct: nat, p: nat, s: nat, k: nat, x: nat, t: nat)
    requires ValidPlan(P) && Inv(P, T, ct + 1) && TransitionOk(P, T, ct, p, s, k)
    requires AllEarlierLose(P, T)
    requires x < |P.durations| && t < Width && (x != s || t != P.showtimes[s][k] + P.durations[s])
    requires P.showtimes[s][k] + P.durations[s] > ct
    ensures Shape(P, Transition(P, T, ct, p, s, k))
    ensures EarlierLose(P, Transition(P, T, ct, p, s, k), x, t)
  {
    var U := Transition(P, T, ct, p, s, k);
    assert EarlierLose(P, T, x, t);
    assert StateOk(P, T, x, t, ct + 1);
    if T.dp[x][t].Finite? && T.backtrack[x][t].From? {
      forall q: nat, qt: nat, j: nat |
        q < |P.durations| && qt < Width && j < |P.showtimes[x]| &&
        TriedBefore(q, qt, T.backtrack[x][t].show, T.backtrack[x][t].time) &&
        P.showtimes[x][j] + P.durations[x] == t && Feasible(P, U, q, qt, x, j)
        ensures Candidate(P, U, q, qt, x) < U.dp[x][t].value
      {
        assert Candidate(P, U, q, qt, x) == Candidate(P, T, q, qt, x);
        assert Feasible(P, T, q, qt, x, j);
      }
    }
  }

  /** A tried transition stays tried while its source is settled and scores only rise. */
  lemma RelaxedKept(P: Plan, T: Tables, U: Tables, upTo: int, p: nat, pt: nat, s: nat, k: nat)
    requires ValidPlan(P) && Settled(P, T, U, upTo)
    requires p < |P.durations| && pt < Width && pt <= upTo && s < |P.durations| && k < |P.showtimes[s]|
    requires Relaxed(P, T, p, pt, s, k)
    ensures Relaxed(P, U, p, pt, s, k)
  {
    if T.dp[p][pt].Finite? {
      assert Candidate(P, U, p, pt, s) == Candidate(P, T, p, pt, s);
    }
  }

  lemma ClosureKept(P: Plan, T: Tables, U: Tables, upTo: int, bound: int)
    requires ValidPlan(P) && Settled(P, T, U, upTo) && bound <= upTo + 1
    requires Closure(P, T, bound)
    ensures Closure(P, U, bound)
  {
    forall p: nat, pt: nat, s: nat, k: nat |
      p < |P.durations| && pt < bound && pt < Width && s < |P.durations| && k < |P.showtimes[s]|
      ensures Relaxed(P, U, p, pt, s, k)
    {
      RelaxedKept(P, T, U, upTo, p, pt, s, k);
    }
  }

  lemma TriedBeforeRelaxedKept(P: Plan, T: Tables, U: Tables, ct: nat, p: nat)
    requires ValidPlan(P) && Settled(P, T, U, ct) && TriedBeforeRelaxed(P, T, ct, p)
    ensures TriedBeforeRelaxed(P, U, ct, p)
  {
    ClosureKept(P, T, U, ct, ct);
    forall q: nat, s: nat, k: nat | q < p && q < |P.durations| && s < |P.durations| && k < |P.showtimes[s]| && ct < Width
      ensures Relaxed(P, U, q, ct, s, k)
    {
      RelaxedKept(P, T, U, ct, q, ct, s, k);
    }
  }

  lemma SettledTrans(P: Plan, T: Tables, U: Tables, V: Tables, upTo: int)
    requires Settled(P, T, U, upTo) && Settled(P, U, V, upTo)
    ensures Settled(P, T, V, upTo)
  {
  }

  lemma SettledLess(P: Plan, T: Tables, U: Tables, upTo: int, less: int)
    requires Settled(P, T, U, upTo) && less <= upTo
    ensures Settled(P, T, U, less)
  {
  }
}
