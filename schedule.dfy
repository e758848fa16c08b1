/**
 * `print_schedule` (app.py:148-158): the human-readable lines shown for an
 * itinerary, one "Watch" line per visit with a "Walk to" line between
 * consecutive visits.
 */
module Schedule {
  import opened Wrappers
  import opened TimeFormat
  import opened Itinerary

  /** `str(x)` for any integer: a minus sign before the digits when negative. */
  function IntString(x: int): (s: string)
    ensures |s| >= 1
    ensures x >= 0 ==> AllDigits(s)
  {
    if x < 0 then "-" + Decimal(-x) else Decimal(x)
  }

  /** The walk minutes printed in a "Walk to" line read back, with int(), as the same number. */
  lemma IntStringParses(x: int)
    ensures ParseInt(IntString(x)) == Some(x)
  {
    if x < 0 {
      NegativeParses(-x);
    } else {
      DecimalParses(x);
    }
  }

  /** app.py:153: the line for one visit. */
  function WatchLine(entry: Entry, names: map<nat, string>): string
    requires entry.show in names
  {
    "Watch " + names[entry.show] + " from " + entry.start + "-" + entry.end
  }

  /** app.py:155-157: the line for the walk to the next visit; the matrix holds whole minutes. */
  function WalkLine(next: Entry, names: map<nat, string>, minutes: int): string
    requires next.show in names
  {
    "Walk to " + names[next.show] + " (" + IntString(minutes) + " mins)"
  }

  /** One line per visit and one between each consecutive pair. */
  function ScheduleLength(visits: nat): nat {
    if visits == 0 then 0 else 2 * visits - 1
  }

  /**
   * app.py:148-158. Line 2i is the watch line of visit i, and line 2i+1
   * the walk from visit i to visit i+1, with the matrix entry for that pair.
   * Every show id is looked up in `names` (a missing one raises KeyError),
   * and the matrix is read only for consecutive pairs, the row of the
   * earlier visit and the column of the later one (an id outside raises
   * IndexError); the model requires exactly these reads to succeed.
   */
  method PrintSchedule(shows: seq<Entry>, names: map<nat, string>, distances: array2<int>)
    returns (schedule: seq<string>)
    requires forall i :: 0 <= i < |shows| ==> shows[i].show in names
    requires forall i :: 0 <= i < |shows| - 1 ==> shows[i].show < distances.Length0
    requires forall i :: 0 < i < |shows| ==> shows[i].show < distances.Length1
    ensures |schedule| == ScheduleLength(|shows|)
    ensures forall i :: 0 <= i < |shows| ==> schedule[2 * i] == WatchLine(shows[i], names)
    ensures forall i :: 0 <= i < |shows| - 1 ==>
      schedule[2 * i + 1] == WalkLine(shows[i + 1], names, distances[shows[i].show, shows[i + 1].show])
  {
    schedule := [];
    for i := 0 to |shows|
      invariant |schedule| == (if i < |shows| then 2 * i else ScheduleLength(|shows|))
      invariant forall j :: 0 <= j < i ==> schedule[2 * j] == WatchLine(shows[j], names)
      invariant forall j :: 0 <= j < i && j < |shows| - 1 ==>
        schedule[2 * j + 1] == WalkLine(shows[j + 1], names, distances[shows[j].show, shows[j + 1].show])
    {
      var entry := shows[i];
      schedule := schedule + [WatchLine(entry, names)];
      if i < |shows| - 1 {
        var next := shows[i + 1];
        var walkTime := distances[entry.show, next.show];
        schedule := schedule + [WalkLine(next, names, walkTime)];
      }
    }
  }
}
