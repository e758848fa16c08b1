/**
 * The last two phases of `find_best_itinerary` (app.py:129-146): picking
 * the best final state and walking the `backtrack` links back from it,
 * and the whole function put together.
 */
module Itinerary {
  import opened Wrappers
  import opened TimeFormat
  import opened DpTables
  import opened Sweep

  /** One visit in minutes since the rebased start of the day. */
  datatype Visit = Visit(show: nat, start: nat, end: nat)

  /** One element of the returned list: `(last_show, start, end)` with "HH:MM" strings. */
  datatype Entry = Entry(show: nat, start: string, end: string)

  /** A visit is a showtime of its show, lasts the show's duration and ends by MaxTime. */
  ghost predicate ValidVisit(P: Plan, v: Visit)
    requires ValidPlan(P)
  {
    && v.show < |P.durations|
    && v.start in P.showtimes[v.show]
    && v.end == v.start + P.durations[v.show]
    && v.end <= MaxTime
  }

  /** The next visit starts no earlier than the walk plus the buffer after the previous one ends. */
  ghost predicate Connected(P: Plan, a: Visit, b: Visit)
    requires ValidPlan(P) && ValidVisit(P, a) && ValidVisit(P, b)
  {
    b.start >= a.end + Travel(P, a.show, b.show) + P.buffer
  }

  ghost predicate ValidItinerary(P: Plan, visits: seq<Visit>)
    requires ValidPlan(P)
  {
    && (forall i :: 0 <= i < |visits| ==> ValidVisit(P, visits[i]))
    && (forall i :: 0 < i < |visits| ==> Connected(P, visits[i - 1], visits[i]))
  }

  /** The backtrack entry that points at the state a visit ends in. */
  function LinkTo(v: Visit): Link {
    From(v.show, v.end, Some(v.start))
  }

  /** Each visit after the first is linked to the one before it. */
  ghost predicate Linked(P: Plan, T: Tables, visits: seq<Visit>)
    requires ValidPlan(P) && Shape(P, T) && ValidItinerary(P, visits)
  {
    forall i :: 0 < i < |visits| ==> T.backtrack[visits[i].show][visits[i].end] == LinkTo(visits[i - 1])
  }

  /** A linked itinerary that starts at a base state. */
  ghost predicate Chained(P: Plan, T: Tables, visits: seq<Visit>)
    requires ValidPlan(P) && Shape(P, T) && ValidItinerary(P, visits)
  {
    && Linked(P, T, visits)
    && (|visits| > 0 ==> T.backtrack[visits[0].show][visits[0].end] == Origin)
  }

  /** The "HH:MM" formatting of app.py:140-142, shifted back by `min_value`. */
  function FormatVisit(v: Visit, minValue: int): Entry {
    Entry(v.show, FormatHhmm(v.start + minValue), FormatHhmm(v.end + minValue))
  }

  function Formatted(visits: seq<Visit>, minValue: int): seq<Entry> {
    seq(|visits|, i requires 0 <= i < |visits| => FormatVisit(visits[i], minValue))
  }

  /** (s, t) comes before (s2, t2) in the show-major, then time, scan of app.py:132-133. */
  predicate ScannedBefore(s: nat, t: nat, s2: nat, t2: nat) {
    s < s2 || (s == s2 && t < t2)
  }

  /** (s, t) is reachable, no state scores more, and every state scanned before it scores less. */
  ghost predicate IsFirstMax(P: Plan, T: Tables, s: nat, t: nat)
    requires ValidPlan(P) && Shape(P, T)
  {
    && s < |P.durations| && t < Width && T.dp[s][t].Finite?
    && (forall x: nat, y: nat :: x < |P.durations| && y < Width ==> AtLeast(T.dp[s][t], T.dp[x][y]))
    && (forall x: nat, y: nat :: x < |P.durations| && y < Width && ScannedBefore(x, y, s, t) ==>
          Greater(T.dp[s][t], T.dp[x][y]))
  }

  /**
   * app.py:129-136: the first state, scanning show-major then by time,
   * whose score is strictly greater than every score seen before it; the
   * cursor stays `(None, None, None)` when no state is reachable.
   */
  method SelectBest(P: Plan, T: Tables) returns (last: Link)
    requires ValidPlan(P) && Shape(P, T)
    ensures last.Origin? || last.From?
    ensures last.Origin? <==> forall s: nat, t: nat :: s < |P.durations| && t < Width ==> T.dp[s][t].NegInf?
    ensures last.From? ==> IsFirstMax(P, T, last.show, last.time) && last.start == T.startRecord[last.show][last.time]
  {
    var maxScore := NegInf;
    last := Origin;
    for show := 0 to |P.durations|
      invariant last.Origin? <==> maxScore.NegInf?
      invariant last.Origin? || last.From?
      invariant last.From? ==>
        && last.show < show && last.time < Width && maxScore == T.dp[last.show][last.time]
        && last.start == T.startRecord[last.show][last.time]
      invariant forall s: nat, t: nat :: s < show && t < Width ==> AtLeast(maxScore, T.dp[s][t])
      invariant maxScore.Finite? ==> forall s: nat, t: nat :: s < show && t < Width && ScannedBefore(s, t, last.show, last.time) ==>
        Greater(maxScore, T.dp[s][t])
    {
      for time := 0 to Width
        invariant last.Origin? <==> maxScore.NegInf?
        invariant last.Origin? || last.From?
        invariant last.From? ==>
          && ScannedBefore(last.show, last.time, show, time) && last.time < Width
          && maxScore == T.dp[last.show][last.time] && last.start == T.startRecord[last.show][last.time]
        invariant forall s: nat, t: nat :: ScannedBefore(s, t, show, time) && t < Width ==> AtLeast(maxScore, T.dp[s][t])
        invariant maxScore.Finite? ==> forall s: nat, t: nat ::
          ScannedBefore(s, t, show, time) && t < Width && ScannedBefore(s, t, last.show, last.time) ==>
          Greater(maxScore, T.dp[s][t])
      {
        if Greater(T.dp[show][time], maxScore) {
          maxScore := T.dp[show][time];
          last := From(show, time, T.startRecord[show][time]);
        }
      }
    }
  }

  /** The cursor of the reconstruction names a reachable state and that state's start minute. */
  ghost predicate CursorOk(P: Plan, T: Tables, cursor: Link)
    requires ValidPlan(P) && Shape(P, T)
  {
    match cursor
    case Origin => true
    case From(s, t, start) =>
      s < |P.durations| && t < Width && T.dp[s][t].Finite? && start == T.startRecord[s][t]
    case Unset => false
  }

  /**
   * One step back along the links: the state under a From cursor is a
   * valid visit, and the link stored there is again a usable cursor whose
   * visit leaves time for the walk and the buffer.
   */
  lemma StepBack(P: Plan, T: Tables, cursor: Link)
    requires ValidPlan(P) && Inv(P, T, Width) && CursorOk(P, T, cursor) && cursor.From?
    ensures cursor.start.Some? && 0 <= cursor.start.value
    ensures var v := Visit(cursor.show, cursor.start.value, cursor.time);
      var next := T.backtrack[cursor.show][cursor.time];
      && ValidVisit(P, v)
      && LinkTo(v) == cursor
      && CursorOk(P, T, next)
      && (next.From? ==> next.time < cursor.time && v.start >= next.time + Travel(P, next.show, v.show) + P.buffer)
  {
    assert StateOk(P, T, cursor.show, cursor.time, Width);
    var next := T.backtrack[cursor.show][cursor.time];
    if next.From? {
      assert StateOk(P, T, next.show, next.time, Width);
    }
  }

  /** Putting a connected visit in front keeps an itinerary valid and linked. */
  lemma PrependVisit(P: Plan, T: Tables, v: Visit, visits: seq<Visit>)
    requires ValidPlan(P) && Shape(P, T) && ValidVisit(P, v) && ValidItinerary(P, visits) && Linked(P, T, visits)
    requires visits != [] ==>
      visits[0].start >= v.end + Travel(P, v.show, visits[0].show) + P.buffer &&
      T.backtrack[visits[0].show][visits[0].end] == LinkTo(v)
    ensures ValidItinerary(P, [v] + visits) && Linked(P, T, [v] + visits)
  {
    var w := [v] + visits;
    forall i | 0 < i < |w|
      ensures w[i] == visits[i - 1]
    {
    }
  }

  lemma FormattedPrepend(v: Visit, visits: seq<Visit>, minValue: int)
    ensures Formatted([v] + visits, minValue) == [FormatVisit(v, minValue)] + Formatted(visits, minValue)
  {
    var longer, joined := Formatted([v] + visits, minValue), [FormatVisit(v, minValue)] + Formatted(visits, minValue);
    forall i | 0 <= i < |longer|
      ensures longer[i] == joined[i]
    {
      if i > 0 {
        assert ([v] + visits)[i] == visits[i - 1];
      }
    }
  }

  /** `list.reverse()`: the same elements, last first. */
  function Reversed<X>(xs: seq<X>): (r: seq<X>)
    ensures |r| == |xs|
    ensures forall i :: 0 <= i < |xs| ==> r[i] == xs[|xs| - 1 - i]
  {
    if |xs| == 0 then [] else Reversed(xs[1..]) + [xs[0]]
  }

  /** Reversing twice gives the list back. */
  lemma ReversedTwice<X>(xs: seq<X>)
    ensures Reversed(Reversed(xs)) == xs
  {
    var r := Reversed(Reversed(xs));
    assert forall i :: 0 <= i < |xs| ==> r[i] == xs[i];
  }

  /** An element put in front of a list comes last in its reverse. */
  lemma ReversedPrepend<X>(x: X, xs: seq<X>)
    ensures Reversed([x] + xs) == Reversed(xs) + [x]
  {
    assert ([x] + xs)[1..] == xs;
  }

  /**
   * What the walk back of app.py:139-143 knows between two steps: the
   * visits collected so far form a valid, linked itinerary that ends at
   * the selected state `last`, and `cursor` is the link stored at the
   * first of them, leaving time for the walk and the buffer before it.
   */
  ghost predicate WalkedBack(P: Plan, T: Tables, last: Link, cursor: Link, visits: seq<Visit>)
    requires ValidPlan(P) && Shape(P, T)
  {
    && CursorOk(P, T, cursor)
    && ValidItinerary(P, visits) && Linked(P, T, visits)
    && (visits == [] ==> cursor == last)
    && (last.Origin? ==> visits == [])
    && (visits != [] ==> T.backtrack[visits[0].show][visits[0].end] == cursor)
    && (visits != [] && cursor.From? ==>
          visits[0].start >= cursor.time + Travel(P, cursor.show, visits[0].show) + P.buffer)
    && (last.From? && visits != [] ==>
          visits[|visits| - 1].show == last.show && visits[|visits| - 1].end == last.time)
  }

  /** One step back: the visit under the cursor goes in front, and the cursor moves to its link, at an earlier time. */
  lemma WalkBackStep(P: Plan, T: Tables, last: Link, cursor: Link, visits: seq<Visit>)
    requires ValidPlan(P) && Inv(P, T, Width) && WalkedBack(P, T, last, cursor, visits) && cursor.From?
    ensures cursor.start.Some? && 0 <= cursor.start.value
    ensures var next := T.backtrack[cursor.show][cursor.time];
      && WalkedBack(P, T, last, next, [Visit(cursor.show, cursor.start.value, cursor.time)] + visits)
      && (next.From? ==> next.time < cursor.time)
  {
    StepBack(P, T, cursor);
    var v := Visit(cursor.show, cursor.start.value, cursor.time);
    PrependVisit(P, T, v, visits);
  }

  /** When the cursor reaches `(None, None, None)` the visits are the whole chain, from a base state to `last`. */
  lemma WalkBackDone(P: Plan, T: Tables, last: Link, cursor: Link, visits: seq<Visit>)
    requires ValidPlan(P) && Inv(P, T, Width) && CursorOk(P, T, last)
    requires WalkedBack(P, T, last, cursor, visits) && !cursor.From?
    ensures ValidItinerary(P, visits) && Chained(P, T, visits)
    ensures last.Origin? <==> visits == []
    ensures last.From? ==> visits[|visits| - 1].show == last.show && visits[|visits| - 1].end == last.time
  {
  }

  /**
   * app.py:138-146: follow the links from the selected state back to a
   * base state, appending one entry per state, then reverse the list.
   * The ghost `visits` are the same states in itinerary order.
   */
  method Reconstruct(P: Plan, T: Tables, last: Link, minValue: int)
    returns (itinerary: seq<Entry>, ghost visits: seq<Visit>)
    requires ValidPlan(P) && Inv(P, T, Width) && CursorOk(P, T, last)
    ensures ValidItinerary(P, visits) && Chained(P, T, visits)
    ensures itinerary == Formatted(visits, minValue)
    ensures last.Origin? <==> visits == []
    ensures last.From? ==> visits[|visits| - 1].show == last.show && visits[|visits| - 1].end == last.time
  {
    var cursor := last;
    var backwards: seq<Entry> := [];
    visits := [];
    while cursor.From?
      invariant WalkedBack(P, T, last, cursor, visits)
      invariant backwards == Reversed(Formatted(visits, minValue))
      decreases if cursor.From? then cursor.time + 1 else 0
    {
      WalkBackStep(P, T, last, cursor, visits);
      var show, time, start := cursor.show, cursor.time, cursor.start.value;
      var entry := FormatVisit(Visit(show, start, time), minValue);
      ghost var v := Visit(show, start, time);
      FormattedPrepend(v, visits, minValue);
      ReversedPrepend(entry, Formatted(visits, minValue));
      visits := [v] + visits;
      backwards := backwards + [entry];
      cursor := T.backtrack[show][time];
    }
    WalkBackDone(P, T, last, cursor, visits);
    itinerary := Reversed(backwards);
    ReversedTwice(Formatted(visits, minValue));
  }

  /** Whether some showtime ends within the horizon, i.e. whether any base state exists. */
  ghost predicate SomeShowtimeFits(P: Plan)
    requires ValidPlan(P)
  {
    exists s, k :: 0 <= s < |P.durations| && 0 <= k < |P.showtimes[s]| && P.showtimes[s][k] + P.durations[s] <= MaxTime
  }

  /**
   * `find_best_itinerary`. The itinerary is empty exactly when no showtime
   * fits the day; otherwise it is the chain of links that ends in the
   * first best-scoring state of the final tables, every visit is a real
   * showtime and every change of show leaves time for the walk and the
   * buffer. The final tables (ghost) satisfy the invariant and every
   * transition out of every reachable state has been tried.
   */
  method FindBestItinerary(durations: seq<int>, distances: seq<seq<int>>, showtimes: seq<seq<int>>,
                           scores: seq<real>, scoreFactor: real, buffer: int, minValue: int)
    returns (bestItinerary: seq<Entry>, ghost visits: seq<Visit>, ghost T: Tables)
    requires ValidPlan(Plan(durations, distances, showtimes, scores, scoreFactor, buffer))
    ensures var P := Plan(durations, distances, showtimes, scores, scoreFactor, buffer);
      && Inv(P, T, Width) && AllBaseReachable(P, T) && Closure(P, T, Width)
      && ValidItinerary(P, visits) && Chained(P, T, visits)
      && bestItinerary == Formatted(visits, minValue)
      && (visits == [] <==> !SomeShowtimeFits(P))
      && (visits != [] ==> IsFirstMax(P, T, visits[|visits| - 1].show, visits[|visits| - 1].end))
      && AllEarlierLose(P, T)
  {
    var P := Plan(durations, distances, showtimes, scores, scoreFactor, buffer);
    var base := BaseStates(P);
    var tables := SweepAll(P, base);
    var last := SelectBest(P, tables);
    assert CursorOk(P, tables, last);
    bestItinerary, visits := Reconstruct(P, tables, last, minValue);
    T := tables;
    if last.From? {
      assert Fits(P, last.show, last.time);
      var k :| 0 <= k < |P.showtimes[last.show]| && P.showtimes[last.show][k] == last.time - P.durations[last.show];
      assert SomeShowtimeFits(P);
    }
    if SomeShowtimeFits(P) {
      var s, k :| 0 <= s < |P.durations| && 0 <= k < |P.showtimes[s]| && P.showtimes[s][k] + P.durations[s] <= MaxTime;
      assert T.dp[s][P.showtimes[s][k] + P.durations[s]].Finite?;
    }
  }

  // ---------------------------------------------------------------------
  // Properties of the returned itinerary
  // ---------------------------------------------------------------------

  /**
   * The recurrence the final tables solve, for one reachable state (s, t):
   * its score is at least the show's own score and at least every
   * candidate of a feasible transition into it; a base link means the
   * show's own score won, and a link to (p, pt) means that transition
   * gives exactly the score while every transition tried before it gives
   * strictly less.
   */
  lemma FinalScoreIsFirstBest(P: Plan, T: Tables, s: nat, t: nat)
    requires ValidPlan(P) && Inv(P, T, Width) && Closure(P, T, Width) && AllEarlierLose(P, T)
    requires s < |P.durations| && t < Width && T.dp[s][t].Finite?
    ensures T.dp[s][t].value >= P.scores[s]
    ensures forall q: nat, qt: nat, k: nat ::
      q < |P.durations| && qt < Width && k < |P.showtimes[s]| &&
      P.showtimes[s][k] + P.durations[s] == t && Feasible(P, T, q, qt, s, k) ==>
      Candidate(P, T, q, qt, s) <= T.dp[s][t].value
    ensures T.backtrack[s][t].Origin? ==> T.dp[s][t].value == P.scores[s]
    ensures T.backtrack[s][t].Origin? || T.backtrack[s][t].From?
    ensures T.backtrack[s][t].From? ==>
      var p, pt := T.backtrack[s][t].show, T.backtrack[s][t].time;
      && p < |P.durations| && pt < Width && T.dp[p][pt].Finite?
      && t - P.durations[s] >= pt + Travel(P, p, s) + P.buffer
      && Candidate(P, T, p, pt, s) == T.dp[s][t].value
      && forall q: nat, qt: nat, k: nat ::
           q < |P.durations| && qt < Width && k < |P.showtimes[s]| && TriedBefore(q, qt, p, pt) &&
           P.showtimes[s][k] + P.durations[s] == t && Feasible(P, T, q, qt, s, k) ==>
           Candidate(P, T, q, qt, s) < T.dp[s][t].value
  {
    assert StateOk(P, T, s, t, Width);
    assert EarlierLose(P, T, s, t);
    forall q: nat, qt: nat, k: nat |
      q < |P.durations| && qt < Width && k < |P.showtimes[s]| &&
      P.showtimes[s][k] + P.durations[s] == t && Feasible(P, T, q, qt, s, k)
      ensures Candidate(P, T, q, qt, s) <= T.dp[s][t].value
    {
      assert Relaxed(P, T, q, qt, s, k);
    }
  }

  /** Visits never overlap: each one ends no later than any later one starts. */
  lemma {:induction false} VisitsInOrder(P: Plan, visits: seq<Visit>, i: nat, j: nat)
    requires ValidPlan(P) && ValidItinerary(P, visits) && i < j < |visits|
    ensures visits[i].end <= visits[j].start
    ensures visits[i].end < visits[j].end
    decreases j - i
  {
    assert Connected(P, visits[j - 1], visits[j]);
    if i < j - 1 {
      VisitsInOrder(P, visits, i, j - 1);
    }
  }

  /** Entry i of the formatted list is the formatting of visit i. */
  lemma FormattedAt(visits: seq<Visit>, minValue: int, i: nat)
    requires i < |visits|
    ensures Formatted(visits, minValue)[i] == FormatVisit(visits[i], minValue)
  {
  }

  /** Any text produced by the reconstruction's formatting of `minute` reads back as `minute`. */
  lemma ReadsBackAs(text: string, minute: int)
    requires text == FormatHhmm(minute)
    ensures HhmmToMinutes(text) == Some(minute)
  {
    HhmmRoundTrip(minute);
  }

  /** The start string of visit i of the result reads back, via hhmm_to_minutes, as its clock minute. */
  lemma StartReadsBack(visits: seq<Visit>, minValue: int, i: nat)
    requires i < |visits|
    ensures HhmmToMinutes(Formatted(visits, minValue)[i].start) == Some(visits[i].start + minValue)
  {
    var minute := visits[i].start + minValue;
    FormattedAt(visits, minValue, i);
    ReadsBackAs(Formatted(visits, minValue)[i].start, minute);
  }

  /** The end string of visit i of the result reads back, via hhmm_to_minutes, as its clock minute. */
  lemma EndReadsBack(visits: seq<Visit>, minValue: int, i: nat)
    requires i < |visits|
    ensures HhmmToMinutes(Formatted(visits, minValue)[i].end) == Some(visits[i].end + minValue)
  {
    var minute := visits[i].end + minValue;
    FormattedAt(visits, minValue, i);
    ReadsBackAs(Formatted(visits, minValue)[i].end, minute);
  }

  /** Every start string of the result reads back, via hhmm_to_minutes, as the clock minute it stands for. */
  lemma StartsReadBack(visits: seq<Visit>, minValue: int)
    ensures forall i :: 0 <= i < |visits| ==>
      HhmmToMinutes(Formatted(visits, minValue)[i].start) == Some(visits[i].start + minValue)
  {
    forall i | 0 <= i < |visits|
      ensures HhmmToMinutes(Formatted(visits, minValue)[i].start) == Some(visits[i].start + minValue)
    {
      StartReadsBack(visits, minValue, i);
    }
  }

  /** Every end string of the result reads back, via hhmm_to_minutes, as the clock minute it stands for. */
  lemma EndsReadBack(visits: seq<Visit>, minValue: int)
    ensures forall i :: 0 <= i < |visits| ==>
      HhmmToMinutes(Formatted(visits, minValue)[i].end) == Some(visits[i].end + minValue)
  {
    forall i | 0 <= i < |visits|
      ensures HhmmToMinutes(Formatted(visits, minValue)[i].end) == Some(visits[i].end + minValue)
    {
      EndReadsBack(visits, minValue, i);
    }
  }
}
