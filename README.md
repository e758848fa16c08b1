# Puy du Fou day planner: the itinerary engine in Dafny

The planner builds the best day at the park from a list of attractions:
each has a duration, a score chosen by the visitor, and the minutes at
which it starts. Walking times between the seven attractions come from a
fixed table, and a buffer is kept between visits. Seeing an attraction
again is worth less: its score is divided by a power of the score factor.

This project models the engine of `app.py`:

- `find_best_itinerary` is a dynamic program over states
  (attraction, end minute), where the end minute runs from 0 to 1440.
  These are shifted minutes: before the call, app.py:169 rebases every
  showtime on the earliest one, so the horizon test `<= max_time`
  (app.py:105, app.py:118) ends the day 1440 minutes after the earliest
  showtime, not at midnight.
  It has four phases:
  - base states, one per showtime that fits in the day;
  - a forward sweep over `current_time` that extends every reachable state to every later showtime it can reach in time, keeping a new score only when it is strictly better;
  - the choice of the first best state, scanning attraction-major and then by time;
  - the walk back along the `backtrack` links, which formats every visit as `HH:MM` text in clock time and then reverses the list.
- `adjust_showtimes` rebases all showtimes in place on the earliest one. It returns that earliest minute so times can be printed back in clock time.
- `hhmm_to_minutes` parses `HH:MM` text. It is the inverse of the reconstruction's formatting.
- `create_distance_matrix` fills a symmetric 7x7 walking-time table from its upper triangle.
- `print_schedule` turns an itinerary into "Watch …" and "Walk to …" lines.

Module by module:

- `Wrappers`: `Option`. A `None` stands for Python's `None` or for a call that raises.
- `TimeFormat`: decimal digits and Python's `int()`. Also `str.split` on one character, the `:02` format, `hhmm_to_minutes`, and the reconstruction's `HH:MM` formatting.
- `Scoring`: the decay `score / score_factor ** k` and the new-score rule of the sweep.
- `Showtimes`:
  - `adjust_showtimes` is a method over the caller's lists, held as arrays and changed in place;
  - it is specified by the pure `GlobalMin` and `Rebase`.
- `DistanceMatrix`: `create_distance_matrix`, as two double loops over a 2-D array.
- `DpTables`:
  - the four tables (`dp`, `backtrack`, `seen_count`, `start_times_record`) and the invariant each phase keeps;
  - lemmas that every single write of the algorithm preserves it.
- `Sweep`:
  - the base states and the sweep;
  - one method per loop of the source, innermost first.
- `Itinerary`: the selection, the reconstruction, and the whole `find_best_itinerary`, together with the properties of its result.
- `Schedule`: `print_schedule`.
- `DecayFactor`: a two-show input on which a larger `score_factor` gives a better best score.

How the source is represented:

- `-float('inf')` is `Score.NegInf`.
- A `backtrack` entry of `None` is `Link.Unset`.
- `(None, None, None)` is `Link.Origin`.
- A predecessor triple is `Link.From`.
- Python floats are `real`.
- The tables are `seq<seq<…>>` values. The loops reassign them cell by cell.

## Model

| member | source | states |
|---|---|---|
| TimeFormat.ParseInt | app.py:39 | defines Python's `int()` on an optional sign and ASCII digits, `None` where `int()` raises; specified by `DecimalParses`, `NegativeParses`, `PaddedDigitParses` and `Pad2Parses` |
| TimeFormat.Decimal | app.py:140-141 | the decimal text of a natural number is non-empty and all digits, and has one digit exactly when the number is below 10 |
| TimeFormat.DecimalValue | app.py:39 | reading the digits of `str(x)` back gives x |
| TimeFormat.Pad2 | app.py:140-141 | the two-digit padded text has at least two characters and no colon; for 0..99 it is exactly two digits |
| TimeFormat.Pad2Parses | app.py:39 | `int()` of the padded text of any integer, negative included, gives that integer back |
| TimeFormat.DecimalParses | app.py:39 | `int()` of `str(x)` is x for every natural x |
| TimeFormat.NegativeParses | app.py:39 | `int()` of a minus sign followed by the digits of m is -m |
| TimeFormat.PaddedDigitParses | app.py:39 | `int()` of a zero followed by one digit is that digit |
| TimeFormat.Split | app.py:39 | `split` returns at least one field, and no field contains the separator |
| TimeFormat.SplitGluesPrefix | app.py:39 | text without the separator stays glued to the first field of what follows it |
| TimeFormat.SplitJoin | app.py:39 | splitting the joined fields gives the fields back when none holds the separator |
| TimeFormat.JoinSplit | app.py:39 | joining the fields of any split gives the text back |
| TimeFormat.SplitPair | app.py:39 | two separator-free fields joined by the separator split into exactly those two |
| TimeFormat.FormatHhmm | app.py:140-141 | the formatted time has at least five characters, and exactly five for minutes 0..5999 |
| TimeFormat.HhmmToMinutes | app.py:38-40 | defines `hhmm_to_minutes`: split on the colon, `None` unless there are exactly two fields that both parse, else hours * 60 + minutes; specified by `HhmmRoundTrip` |
| TimeFormat.HhmmRoundTrip | app.py:38-40 | `hhmm_to_minutes` of the reconstruction's formatting of any minute count, negative or beyond a day included, is that minute count |
| Scoring.Decayed | app.py:122 | defines `scores[next_show] / score_factor ** count`; specified by `DecayedFirstVisit`, `DecayedStep`, `DecayedNonIncreasing` and `DecayedFactorMonotone` |
| Scoring.NewScore | app.py:119-122 | defines `new_score`: the full score when the predecessor's count is 0, otherwise the score decayed by the target row's count; `DpTables.ReachableCounted` shows the first branch is never taken |
| Scoring.Pow | app.py:122 | a positive base gives a positive power |
| Scoring.DecayedFirstVisit | app.py:122 | with count 0 the decayed score is the full score |
| Scoring.DecayedStep | app.py:122 | each further count divides the contribution once more by the factor |
| Scoring.PowAtLeastOne | app.py:122 | a factor of at least 1 gives a power of at least 1 |
| Scoring.PowMonotone | app.py:122 | with a factor of at least 1 the power grows with the exponent |
| Scoring.PowBaseMonotone | app.py:122 | for a fixed exponent the power grows with the base |
| Scoring.DecayedNonIncreasing | app.py:122 | with a factor of at least 1, a non-negative score decays to a value between 0 and the score, never rising with the count |
| Scoring.DecayedFactorMonotone | app.py:122 | a larger factor never makes a visit worth more |
| Showtimes.MinOf | app.py:88 | `min` of a non-empty list is an element of it and no larger than any element |
| Showtimes.GlobalMin | app.py:88 | the minimum of the per-list minima is an entry of some list and no larger than any entry |
| Showtimes.Shifted | app.py:90-91 | defines one list after the inner loop, each entry minus the shift; `ShiftDown` is proved to produce it |
| Showtimes.Rebase | app.py:89-91 | defines every list after the outer loop; `AdjustShowtimes` is proved to produce it and `RebasedOnMinimum` states its properties |
| Showtimes.RebasedOnMinimum | app.py:87-92 | rebasing on the global minimum keeps every list's length, leaves every entry non-negative, keeps every difference within a list (so the order) and makes some entry 0 |
| Showtimes.ShiftDown | app.py:90-91 | after the inner loop the list holds each old entry minus the shift |
| Showtimes.AdjustShowtimes | app.py:87-92 | None, with nothing changed, exactly when the outer list or any inner list is empty (Python's `min` raises); otherwise it returns the global minimum and every list holds its old entries minus it |
| DistanceMatrix.WalkingMinutesIsTriangle | app.py:44-51 | the literal rows form the strict upper triangle of a 7x7 table (row i has 6-i entries), all non-negative |
| DistanceMatrix.CreateDistanceMatrix | app.py:42-56 | the result is 7x7, symmetric, zero on the diagonal and non-negative, and `matrix[i][i+j+1]` is the j-th entry of row i of the triangle |
| DpTables.InitialTables | app.py:97-100 | defines the four fresh tables: every score `-inf`, every link `None`, every count 0 and no start minute; specified by `InitialInv` |
| DpTables.Travel | app.py:115 | defines `travel_time`: the table entry between two different shows, 0 for a stay; used by `StateOk`, `Relaxed` and `Itinerary.Connected`, and read by `Sweep.RelaxEdges` |
| DpTables.Greater | app.py:124 | defines the strict `>` of a score against `-inf` or a finite score, as also used at app.py:113 and app.py:134; `TransitionKeepsOrder` and `Itinerary.SelectBest` state the first-winner order it creates |
| DpTables.Candidate | app.py:119-122 | defines the score a transition out of a reachable state would produce; `Sweep.RelaxEdges` and `Itinerary.FinalScoreIsFirstBest` state what the sweep does with it |
| DpTables.SetBase | app.py:106-109 | defines the four writes of a base state; specified by `SetBaseKeepsInv` |
| DpTables.Record | app.py:125-127 | defines the three writes of a winning transition, `start_times_record` untouched; specified by `WrittenCellOk` and `UntouchedCellOk` |
| DpTables.Transition | app.py:119-127 | defines the tables after one winning transition; specified by `TransitionKeepsInv`, `TransitionSettles` and `TransitionKeepsOrder` |
| DpTables.InitialInv | app.py:97-100 | the fresh tables satisfy the invariant with no cell reachable |
| DpTables.SetBaseKeepsInv | app.py:102-109 | a base write keeps the invariant, makes its state reachable and keeps every reachable state reachable |
| DpTables.InvWeaken | app.py:111 | links to times before one bound are links to times before any later bound |
| DpTables.ReachableCounted | app.py:119-122 | every reachable state has a count of at least 1, so a transition out of it always adds the decayed score: the branch of app.py:119-120 is never taken |
| DpTables.TransitionIsLater | app.py:117-118 | a feasible transition tried at `current_time` ends strictly after it, because durations are positive and walks and buffer are non-negative |
| DpTables.TransitionSettles | app.py:124-127 | a winning write changes no cell at or before `current_time`, lowers no score, keeps every base state reachable, and leaves the transition relaxed |
| DpTables.TransitionCellOk | app.py:124-127 | after a winning write every cell still satisfies the cell invariant |
| DpTables.WrittenCellOk | app.py:124-127 | the written cell links to the reachable predecessor, with the predecessor's score plus the decayed score and the count incremented only for the same attraction |
| DpTables.UntouchedCellOk | app.py:124-127 | every other cell keeps its values and the candidate score of its link |
| DpTables.TransitionKeepsInv | app.py:124-127 | a winning write keeps the table invariant |
| DpTables.NoLinksYet | app.py:102-109 | after the base phase no cell has a predecessor link, so the tie-break fact holds |
| DpTables.TransitionKeepsOrder | app.py:111-127 | a winning write keeps every link pointing at the first predecessor, in sweep order, that reaches the cell's score |
| DpTables.WinnerBeatsEarlier | app.py:124 | every transition into the written cell tried before the winner gives strictly less than the new score |
| DpTables.OtherCellKeepsOrder | app.py:124-127 | cells other than the written one keep the tie-break fact |
| DpTables.RelaxedKept | app.py:111-127 | a tried transition stays tried while its source cell is settled and scores only rise |
| DpTables.ClosureKept | app.py:111-127 | the same for every transition out of every state before a bound |
| DpTables.TriedBeforeRelaxedKept | app.py:112-127 | the same for every transition tried before a given state at the current time |
| Sweep.BaseStates | app.py:97-109 | after the base phase the reachable states are exactly the ends of showtimes that fit in the day, each a base state |
| Sweep.RelaxEdges | app.py:116-127 | every showtime of the next attraction has been tried from the current state: where feasible, its end state is reachable with at least the candidate score; nothing at or before `current_time` changed and no score fell |
| Sweep.WinKeepsEdgeFacts | app.py:124-127 | a winning write keeps every fact the showtime loop carries and leaves the written transition tried |
| Sweep.RelaxState | app.py:114-127 | every transition out of the current state, to every attraction and showtime, has been tried |
| Sweep.SweepTime | app.py:112-127 | after one `current_time` every transition out of every reachable state ending at or before it has been tried, and the columns up to it are final |
| Sweep.SweepAll | app.py:111-127 | after the sweep every transition out of every reachable state has been tried, scores only rose, links give the first best predecessor, and the reachable states are exactly the base states |
| Itinerary.SelectBest | app.py:129-136 | the cursor stays `(None, None, None)` exactly when no state is reachable; otherwise it names the first maximum in attraction-major then time order, with that state's start minute |
| Itinerary.StepBack | app.py:139-143 | the state under a cursor is a valid visit, and the link stored there is again a cursor whose state ends strictly earlier, leaving time for the walk and the buffer |
| Itinerary.FormatVisit | app.py:140-142 | defines one entry of the result: the show and its start and end as `HH:MM` in clock time; specified by `StartsReadBack` and `EndsReadBack` |
| Itinerary.Formatted | app.py:140-145 | defines the formatting of every visit of a chain; `Reconstruct` is proved to return it for the linked chain |
| Itinerary.PrependVisit | app.py:142-145 | putting a connected visit in front keeps an itinerary valid and linked |
| Itinerary.FormattedPrepend | app.py:140-142 | formatting a list with a visit in front puts that visit's entry in front |
| Itinerary.Reversed | app.py:145 | the reversed list has the same length and holds element i at position n-1-i |
| Itinerary.ReversedTwice | app.py:145 | reversing twice gives the list back |
| Itinerary.ReversedPrepend | app.py:142-145 | an element put in front comes last in the reverse |
| Itinerary.WalkBackStep | app.py:139-143 | one step of the walk back puts the visit under the cursor in front of a valid linked itinerary ending at the selected state, and moves the cursor to a strictly earlier state |
| Itinerary.WalkBackDone | app.py:139-143 | when the cursor reaches `(None, None, None)` the collected visits start at a base state, and they are empty exactly when the selection found nothing |
| Itinerary.Reconstruct | app.py:138-146 | the loop ends; the result is the formatted chain of linked visits, starting at a base state and ending at the selected state; it is empty exactly when the cursor is `(None, None, None)` |
| Itinerary.FindBestItinerary | app.py:94-146 | every visit is a real showtime ending by minute 1440, each change of visit leaves time for the walk and the buffer, and each visit is linked to the one before; the last visit is the first best state; the result is empty exactly when no showtime fits the day; the final tables satisfy the invariant, the closure and the tie-break fact |
| Itinerary.FinalScoreIsFirstBest | app.py:111-127 | the score of a reachable state is at least its attraction's score and at least every feasible candidate into it; a base link means the attraction's own score; a link means that transition gives exactly the score and every transition tried before it gives strictly less |
| Itinerary.VisitsInOrder | app.py:139-145 | visits never overlap, and their ends strictly increase |
| Itinerary.ReadsBackAs | app.py:38-40 | any text equal to the formatting of a minute value reads back as that minute value |
| Itinerary.StartReadsBack | app.py:140 | the start text of one visit of the result reads back as its clock minute |
| Itinerary.EndReadsBack | app.py:141 | the end text of one visit of the result reads back as its clock minute |
| Itinerary.StartsReadBack | app.py:38-40 | every start text of the result, read with `hhmm_to_minutes`, is the visit's start in clock minutes |
| Itinerary.EndsReadBack | app.py:38-40 | the same for every end text |
| Schedule.IntString | app.py:157 | `str()` of an integer is non-empty, and all digits when the integer is non-negative |
| Schedule.IntStringParses | app.py:157 | the printed walk minutes read back with `int()` as the same number |
| Schedule.WatchLine | app.py:153 | defines the "Watch" line of one visit; `PrintSchedule` is proved to emit it at every even position |
| Schedule.WalkLine | app.py:155-157 | defines the "Walk to" line to the next visit; `PrintSchedule` is proved to emit it at every odd position with the table entry for the pair |
| Schedule.PrintSchedule | app.py:148-158 | n visits give 2n-1 lines (none for no visit); line 2i is the watch line of visit i, and line 2i+1 is the walk to visit i+1, with the table entry for that pair |
| DecayFactor.Unreachable | app.py:102-127 | in the two-show example below, only the ends of the four showtimes are reachable |
| DecayFactor.BaseOnly | app.py:102-109 | in the example, (0, 10) and (1, 15) can only be base states |
| DecayFactor.FirstVisits | app.py:102-109 | in the example's final tables, (0, 10) scores 10 and (1, 15) scores 4.9, both with count 1, and (0, 15) is unreachable |
| DecayFactor.SecondVisit | app.py:119-127 | in the example, (0, 30) is won by staying at show 0 with count 2 when 10 / factor beats 4.9, and by coming from show 1 with count 1 when it does not |
| DecayFactor.ThirdVisit | app.py:119-127 | in the example, (0, 50) scores 10 + 10/f + 10/f² in the first case and 14.9 + 10/f in the second |
| DecayFactor.BestAtFactorTwo | app.py:111-136 | in the example with factor 2, no state of the final tables scores more than 17.5 |
| DecayFactor.LargerFactorScoresMore | app.py:111-136 | in the example, raising the factor from 2 to 2.1 raises the best score of the final tables from at most 17.5 to more than 19.6 |

## Left out

- The Flask route `index`, `render_template` and `app.run` (app.py:160-176): web plumbing.
- `read_pdf` (app.py:58-67): an HTTP download, file writes and PDF text extraction. These are I/O and a foreign library.
- `get_showtimes` and `find_string_in_lines` (app.py:69-85): a scraper tied to the line layout of one document's extracted text.
- `get_scores` and `get_buffer_and_start_end_time` (app.py:18-36): reading HTML form fields.
- The display names of `name_dict` (app.py:8-16). `PrintSchedule` takes the names as a parameter.
- IEEE floating point:
  - scores, the factor and the decay are exact reals, so rounding and overflow are not modelled;
  - the walking table is a table of integers, where numpy holds whole-valued floats;
  - `int(walk_time)` is therefore the identity.
- TimeFormat.ParseInt: models `int()` on an optional sign followed by ASCII digits. It does not model surrounding whitespace, underscores between digits, or non-ASCII digits, which Python also accepts.
- Showtimes.AdjustShowtimes:
  - requires the inner lists to be distinct objects. If one list appeared twice, Python would shift it twice; the caller builds a fresh list per attraction.
  - does not model ValueError as an exception: it returns None with every list unchanged, as the raise leaves them.
- Itinerary.FindBestItinerary: assumes what the caller provides:
  - positive durations;
  - non-negative walks, buffer and showtimes (rebased);
  - a positive score factor;
  - at least one score, showtime list and walking-table row per attraction.
  
  The source checks none of these, and `int(form["buffer"])` at app.py:25 accepts a negative buffer. With a zero duration, or a negative buffer, a state can link to itself and the walk back at app.py:139-143 never ends. Example: buffer -100 and a show with showtime 90 and duration 10. At `current_time` 100 the state (show, 100) beats its own score, because 90 >= 100 + 0 - 100, and stores a link to itself.
- Itinerary.FindBestItinerary: the final tables and the visits in minutes are ghost results. Only the formatted list is a real result, as in the source.
- Itinerary.FindBestItinerary: returns the itinerary without its total score, as the source does.
- Schedule.PrintSchedule: requires the reads the source makes to succeed: every attraction id in the name map, the row of every visit but the last and the column of every visit but the first inside the walking table. The source raises KeyError or IndexError where one fails; the model does not describe that error.

## Behaviour of the code worth knowing

The model follows the code in each of these.

- **A show with no showtime in the window.** Its list is empty, and `min` raises at app.py:88. `Showtimes.AdjustShowtimes` returns None in that case.
- **Nothing fits the day.** `find_best_itinerary` returns an empty list (app.py:138-146), with no separate outcome. `Itinerary.FindBestItinerary` states when this happens.
- **Repeated visits.** The count is not the number of earlier visits along the path:
  - it is copied along each transition and grows only on a stay at the same attraction (app.py:127);
  - the decay reads the count of the target attraction's cell at `current_time` (app.py:122), a cell that need not lie on the path.
- **A larger factor can give a better day.** Every single visit is worth no more with a larger `score_factor` (`Scoring.DecayedFactorMonotone`), but the best score can rise. The reason is that the winner of an earlier cell can change, and with it the count a later visit reads. `DecayFactor.LargerFactorScoresMore` proves this for one input:
  - two shows of 10 minutes, no walks and no buffer;
  - show 0 at minutes 0, 20 and 40, and show 1 at minute 5;
  - scores 10 and 4.9.

  With factor 2, (0, 30) is won by staying at show 0 (15 > 14.9, count 2), so the last visit adds 10/4 and no state scores more than 17.5. With factor 2.1, show 1 wins (0, 30) (14.9 > 10 + 10/2.1, count 1), so the last visit adds 10/2.1 and (0, 50) scores more than 19.6.
- **Back-to-back visits.** The next start may equal the previous end plus walk and buffer: the test at app.py:118 is `>=`. Because every duration is positive, ends still strictly increase along a chain, so the walk back ends (`Itinerary.VisitsInOrder`, `Itinerary.StepBack`).
