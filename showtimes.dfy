/**
 * `adjust_showtimes` (app.py:87-92): every showtime list is shifted in place
 * so that the earliest showtime of the day becomes minute 0, and the shift
 * is returned so that the itinerary can be printed in clock time again.
 */
module Showtimes {
  import opened Wrappers

  /** Python's `min` over a non-empty list. */
  function MinOf(xs: seq<int>): (m: int)
    requires |xs| > 0
    ensures m in xs
    ensures forall i :: 0 <= i < |xs| ==> m <= xs[i]
  {
    if |xs| == 1 then xs[0]
    else
      var rest := MinOf(xs[1..]);
      if rest < xs[0] then rest else xs[0]
  }

  predicate AllNonEmpty(lists: seq<seq<int>>) {
    forall i :: 0 <= i < |lists| ==> |lists[i]| > 0
  }

  /** The smallest entry of all the lists, as the minimum of the per-list minima (app.py:88). */
  function GlobalMin(lists: seq<seq<int>>): (m: int)
    requires |lists| > 0 && AllNonEmpty(lists)
    ensures exists i, k :: 0 <= i < |lists| && 0 <= k < |lists[i]| && lists[i][k] == m
    ensures forall i, k :: 0 <= i < |lists| && 0 <= k < |lists[i]| ==> m <= lists[i][k]
  {
    var mins := seq(|lists|, i requires 0 <= i < |lists| => MinOf(lists[i]));
    var m := MinOf(mins);
    assert forall i, k :: 0 <= i < |lists| && 0 <= k < |lists[i]| ==> mins[i] <= lists[i][k];
    var i :| 0 <= i < |mins| && mins[i] == m;
    var k :| 0 <= k < |lists[i]| && lists[i][k] == mins[i];
    m
  }

  /** Every entry shifted down by `shift`; list lengths and order are kept. */
  function Rebase(lists: seq<seq<int>>, shift: int): (r: seq<seq<int>>)
  {
    seq(|lists|, i requires 0 <= i < |lists| => Shifted(lists[i], shift))
  }

  function Shifted(xs: seq<int>, shift: int): seq<int> {
    seq(|xs|, k requires 0 <= k < |xs| => xs[k] - shift)
  }

  /**
   * Rebasing on the global minimum keeps the shape and the order of every
   * list, leaves every entry non-negative and makes at least one entry 0.
   */
  lemma RebasedOnMinimum(lists: seq<seq<int>>)
    requires |lists| > 0 && AllNonEmpty(lists)
    ensures var r := Rebase(lists, GlobalMin(lists));
      && |r| == |lists|
      && (forall i :: 0 <= i < |r| ==> |r[i]| == |lists[i]|)
      && (forall i, k :: 0 <= i < |r| && 0 <= k < |r[i]| ==> r[i][k] >= 0)
      && (forall i, j, k :: 0 <= i < |r| && 0 <= j < k < |r[i]| ==>
            r[i][k] - r[i][j] == lists[i][k] - lists[i][j])
      && (exists i, k :: 0 <= i < |r| && 0 <= k < |r[i]| && r[i][k] == 0)
  {
    var m := GlobalMin(lists);
    var r := Rebase(lists, m);
    var i, k :| 0 <= i < |lists| && 0 <= k < |lists[i]| && lists[i][k] == m;
    assert r[i][k] == 0;
  }

  /** The values of the lists, as Python would print them. */
  function Contents(showtimes: seq<array<int>>): seq<seq<int>>
    reads showtimes
  {
    seq(|showtimes|, i requires 0 <= i < |showtimes| reads showtimes => showtimes[i][..])
  }

  /** The inner loop of `adjust_showtimes` (app.py:90-91): every entry of one list lowered by the shift, in place. */
  method ShiftDown(sublist: array<int>, shift: int)
    modifies sublist
    ensures sublist[..] == Shifted(old(sublist[..]), shift)
  {
    for k := 0 to sublist.Length
      invariant forall j :: 0 <= j < k ==> sublist[j] == old(sublist[j]) - shift
      invariant forall j :: k <= j < sublist.Length ==> sublist[j] == old(sublist[j])
    {
      sublist[k] := sublist[k] - shift;
    }
  }

  /**
   * `adjust_showtimes`. Python's `min` raises ValueError on an empty list
   * before anything is changed; that outcome is None with every list
   * untouched. Otherwise every list is rebased in place on the global
   * minimum, which is returned.
   */
  method AdjustShowtimes(showtimes: seq<array<int>>) returns (minValue: Option<int>)
    requires forall i, j :: 0 <= i < j < |showtimes| ==> showtimes[i] != showtimes[j]
    modifies showtimes
    ensures minValue.None? <==> |old(Contents(showtimes))| == 0 || !AllNonEmpty(old(Contents(showtimes)))
    ensures minValue.None? ==> Contents(showtimes) == old(Contents(showtimes))
    ensures minValue.Some? ==>
      && minValue.value == GlobalMin(old(Contents(showtimes)))
      && Contents(showtimes) == Rebase(old(Contents(showtimes)), minValue.value)
  {
    var lists := Contents(showtimes);
    assert forall j :: 0 <= j < |showtimes| ==> lists[j] == showtimes[j][..];
    if |lists| == 0 || !AllNonEmpty(lists) {
      return None;
    }
    var m := GlobalMin(lists);
    var rebased := Rebase(lists, m);
    for i := 0 to |showtimes|
      invariant forall j :: 0 <= j < i ==> showtimes[j][..] == rebased[j]
      invariant forall j :: i <= j < |showtimes| ==> showtimes[j][..] == lists[j]
    {
      ghost var before := Contents(showtimes);
      ShiftDown(showtimes[i], m);
      assert showtimes[i][..] == rebased[i];
      assert forall j :: 0 <= j < |showtimes| && j != i ==> showtimes[j][..] == before[j];
    }
    assert Contents(showtimes) == rebased;
    return Some(m);
  }
}
