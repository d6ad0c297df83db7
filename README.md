# planNAV conflict engine, modelled in Dafny

This project models the trajectory and conflict-detection engine of planNAV
(`app/engine/trajectory.py`). It covers the following steps:

- Reading a flight's route: the departure airport, the `49.97N/110.935W`
  waypoints, then the arrival airport.
- Chaining the route into great-circle legs flown at constant speed and
  altitude.
- Sampling a flight's trajectory every `interval_sec` seconds.
- Finding the loss-of-separation intervals of two flights. A pair of legs is
  examined when the legs overlap in time and are less than 2000 ft apart. A
  quadratic on the linearised relative motion gives the times it may be under
  5 NM. Two 15-step bisections on the great-circle distance refine them. The
  intervals are then sorted and merged when at most one second apart.
- Building the per-pair conflict summaries of `find_conflicts`, including
  the closest-approach scan.
- Answering `get_legs_for_flight` and `get_conflict_pair_data`.
- Choosing altitude and speed bands by aircraft type (`get_constraints`).

Structure:

- One module per stage: `Routes`, `Legs`, `Quadratics`, `Pruning`,
  `Bisection`, `Intervals`, `Detection`, `Grouping`, `Approach`, `Conflicts`,
  `Engine`, `Trajectory`, `Constraints`.
- Each loop of the source is a method, proved equal to a specification
  function.
- The properties the engine promises are proved as lemmas about those
  functions.
- `FlightEngine` is a class: its flights, airport table and precomputed legs
  are fixed once the constructor has run, as in the source.

Floating-point numbers are modelled as reals. The library functions (`haversine`, the
great-circle interpolation, `cos(radians(x))`, `sqrt`) are function-valued
fields of a `Numerics` value, so every result holds for whatever functions
are supplied. The few results that need more assume `Sound`: distances are
non-negative and `sqrt` is a square root.

Where Python would raise, the model returns `None`. These cases are:

- a waypoint that does not parse;
- `next(...)` finding no flight;
- `conflict_lat` read before any assignment (`UnboundLocalError`).

The model follows the code in these respects:

- The bisection searches the whole time the two legs share, not just the
  candidate window. The candidate's ends are only the fallback values of
  `refined_start` and `refined_end` (lines 360-388).
- Before merging, the intervals are sorted as Python lists, by start and then
  by finish (line 391).
- The closest-approach point is a variable of the whole function and is never
  reset between pairs. The model carries it from pair to pair (lines 273-284).

## Model

| member | source | states |
|---|---|---|
| Numerics.Interpolate | app/engine/trajectory.py:22-49 | a fraction at most 0 gives the start point, at least 1 the end point, anything in between the great-circle point |
| Numerics.Trunc | app/engine/trajectory.py:281 | `int()` truncates toward zero: the result is within one below a non-negative value and within one above a negative one |
| Numerics.Abs | app/engine/trajectory.py:289 | the absolute value is non-negative and is the value or its negation |
| Numerics.Max | app/engine/trajectory.py:234 | the maximum is at least both arguments and is one of them |
| Numerics.Min | app/engine/trajectory.py:235 | the minimum is at most both arguments and is one of them |
| Routes.SplitOn | app/engine/trajectory.py:109 | `split("/")` gives one more piece than there are separators, none containing one |
| Routes.SplitJoin | app/engine/trajectory.py:109 | splitting pieces joined by a separator none of them contains gives the pieces back |
| Routes.SplitPiece | app/engine/trajectory.py:109 | text without the separator splits into itself alone |
| Routes.SplitPrefix | app/engine/trajectory.py:109 | a separator-free piece followed by the separator splits off as the first piece |
| Routes.WordLength | app/engine/trajectory.py:127 | the first word is free of whitespace and is followed by whitespace or the end |
| Routes.Words | app/engine/trajectory.py:127 | `str.split()` gives only non-empty words without whitespace |
| Routes.WordsJoin | app/engine/trajectory.py:127 | splitting words joined by spaces gives the words back |
| Routes.WordsOfWord | app/engine/trajectory.py:127 | a word followed by whitespace or nothing is the first word |
| Routes.WordLengthOf | app/engine/trajectory.py:127 | a word followed by whitespace or nothing has its own length as the first-word length |
| Routes.Pow10 | app/engine/trajectory.py:110 | powers of ten are at least 1 |
| Routes.ParseUnsigned | app/engine/trajectory.py:110 | an unsigned numeral reads as a non-negative number |
| Routes.ShowNat | app/engine/trajectory.py:110 | the decimal numeral of a natural number is a non-empty string of digits |
| Routes.DigitsOfShowNat | app/engine/trajectory.py:110 | reading back the numeral of a natural number gives the number |
| Routes.ParseShowNat | app/engine/trajectory.py:110-113 | `float` reads an integer numeral, with or without a minus sign, as that integer |
| Routes.ParseFixedPoint | app/engine/trajectory.py:110-113 | `float` reads `w.frac` as w plus frac over ten to the number of fraction digits |
| Routes.SplitFixedPoint | app/engine/trajectory.py:110 | a fixed-point numeral splits at its dot into whole and fraction digits |
| Routes.ParseUnsignedFixedPoint | app/engine/trajectory.py:110 | an unsigned fixed-point numeral reads as its value |
| Routes.ParseWaypoint | app/engine/trajectory.py:107-116 | a token without exactly one `/` is rejected (the tuple unpacking raises) |
| Routes.ParseWaypointHemispheres | app/engine/trajectory.py:107-116 | two numerals each followed by a hemisphere letter decode to their values, negated for `S` and for `W` |
| Routes.ParseEach | app/engine/trajectory.py:127-128 | a successful parse gives one point per token |
| Routes.ParseAllSpec | app/engine/trajectory.py:127-128 | the tokens parse exactly when each one does, and point k is the parse of token k |
| Routes.ParseEachSucceeds | app/engine/trajectory.py:127-128 | parsing a token list succeeds exactly when every token parses |
| Routes.ParseEachValues | app/engine/trajectory.py:127-128 | after a successful parse, point k is the parse of token k |
| Routes.ParseAllFails | app/engine/trajectory.py:127-128 | one bad token makes the whole route fail |
| Routes.Endpoint | app/engine/trajectory.py:119-124 | an airport contributes at most one point |
| Routes.RouteFails | app/engine/trajectory.py:118-132 | a route fails exactly when some token of it does not parse |
| Routes.RouteShape | app/engine/trajectory.py:118-132 | a route has the known departure point first, one point per token in order, and the known arrival point last |
| Routes.PointsShape | app/engine/trajectory.py:118-132 | the shape of a route holds for any token list |
| Routes.Concat3 | app/engine/trajectory.py:123-131 | indexing into departure, waypoints and arrival appended together |
| Routes.ParseTokens | app/engine/trajectory.py:126-128 | the waypoint loop computes the parse of all tokens, failing on the first bad one |
| Routes.FullRoute | app/engine/trajectory.py:118-132 | `get_full_route` computes the specified route |
| Legs.Duration | app/engine/trajectory.py:67 | a speed that is not positive gives a duration of zero |
| Legs.NewLeg | app/engine/trajectory.py:53-74 | `Leg.__init__` stores its arguments, the (lon, lat) vectors, the haversine distance and the duration; a leg without duration has zero velocity |
| Legs.LegProperties | app/engine/trajectory.py:53-74 | a speed that is not positive gives a still leg ending when it starts; a positive speed flies the distance in the duration; legs never end before they start; the velocity carries the start point onto the end point over the duration |
| Legs.LegsForShape | app/engine/trajectory.py:134-149 | m route points give max(0, m-1) legs, leg i joins points i and i+1, the first starts at departure and each next leg starts when the previous ends |
| Legs.LegsForOrdered | app/engine/trajectory.py:134-149 | every leg starts no earlier than the departure and ends no earlier than it starts |
| Legs.CalculateLegsForFlight | app/engine/trajectory.py:134-149 | `_calculate_legs_for_flight` computes the specified legs of the flight |
| Legs.LegsAlong | app/engine/trajectory.py:138-148 | the leg loop builds one leg per point pair, advancing the clock by each duration |
| Legs.LegsForStep | app/engine/trajectory.py:138-148 | the legs from point i are leg i followed by the legs from point i+1 |
| Legs.PrecalculateLegs | app/engine/trajectory.py:151-155 | `_precalculate_legs` concatenates every flight's legs in flight order |
| Legs.AllLegsSnoc | app/engine/trajectory.py:153-154 | one more flight appends its legs |
| Legs.AllLegsFails | app/engine/trajectory.py:151-155 | one flight whose route fails makes the precomputation fail |
| Legs.LegsWithAcid | app/engine/trajectory.py:405 | the filter keeps exactly the legs with that ACID |
| Legs.LegsWithAcidAppend | app/engine/trajectory.py:405 | filtering distributes over concatenation |
| Legs.LegsWithAcidAll | app/engine/trajectory.py:405 | filtering legs that all have the ACID keeps them all |
| Legs.LegsWithAcidNone | app/engine/trajectory.py:405 | filtering legs none of which has the ACID keeps none |
| Legs.FlightLegsFields | app/engine/trajectory.py:139-146 | every leg of a flight carries its ACID and altitude |
| Legs.LegsConsistent | app/engine/trajectory.py:151-155 | with unique ACIDs, filtering all legs by a flight's ACID gives exactly the legs built from that flight |
| Legs.OwnLegs | app/engine/trajectory.py:405 | a flight's legs filtered by its own ACID are all kept |
| Legs.OtherFlightLegs | app/engine/trajectory.py:405 | a flight's legs filtered by another ACID are all dropped |
| Legs.OthersLegs | app/engine/trajectory.py:151-155 | the legs of flights without the ACID filter to nothing |
| Legs.AcidsOfAllLegs | app/engine/trajectory.py:151-155 | every precomputed leg carries the ACID of some flight |
| Legs.ToView | app/engine/trajectory.py:76-84 | `to_dict` shows start and end as (lon, lat) |
| Legs.GetLegsForFlight | app/engine/trajectory.py:404-405 | `get_legs_for_flight` gives one view for each leg carrying the ACID, in the legs' order; which views it shows is stated by `Legs.ShownLegsOfAcid` |
| Quadratics.QuadIdentity | app/engine/trajectory.py:320-326 | completing the square: 4a q(x) = (2ax + b)^2 - disc |
| Quadratics.SignOfScaled | app/engine/trajectory.py:320-333 | scaling by a positive factor keeps the sign |
| Quadratics.SquareBound | app/engine/trajectory.py:326-333 | y^2 is at most s^2 exactly when y is in [-s, s] |
| Quadratics.DivBound | app/engine/trajectory.py:328-329 | comparing a quotient by a positive divisor |
| Quadratics.SignBySquare | app/engine/trajectory.py:320-333 | the sign of the quadratic from its completed square |
| Quadratics.RootsWindow | app/engine/trajectory.py:325-333 | with a > 0 the quadratic is at most 0 exactly between the roots (-b ± sqrt disc)/2a, and below 0 strictly between them |
| Quadratics.NoRoots | app/engine/trajectory.py:325-327 | with a > 0 and a negative discriminant the quadratic is positive everywhere |
| Quadratics.SquaredLine | app/engine/trajectory.py:320-322 | the squared length of a point moving on a line is the quadratic in time with those coefficients |
| Quadratics.TowardsVertex | app/engine/trajectory.py:250-253 | with a > 0 the quadratic falls to its vertex and rises after it |
| Pruning.OverlapDurations | app/engine/trajectory.py:302-305 | legs that share time both have positive duration, and the shared window lies inside both |
| Pruning.RelativeMotionTracks | app/engine/trajectory.py:310-318 | the relative position plus the relative velocity times the elapsed time is the offset of the two straight tracks in the NM frame |
| Pruning.CoefficientsMeaning | app/engine/trajectory.py:320-322 | the quadratic `a, b, c` at x is the squared offset x seconds on, less 25 |
| Pruning.ClipTo | app/engine/trajectory.py:330-333 | the clipped window lies in the shared time, has positive length and lies within the roots |
| Pruning.ClipToExact | app/engine/trajectory.py:330-333 | clipping keeps exactly the times of the roots window that are in the shared time |
| Pruning.Candidate | app/engine/trajectory.py:324-335 | the candidate lies in the shared time; with no relative motion it is all of it when c <= 0 and none otherwise |
| Pruning.CandidateExact | app/engine/trajectory.py:324-335 | with relative motion, every candidate time has a non-positive quadratic and every shared time with a negative one is a candidate |
| Pruning.LegCandidate | app/engine/trajectory.py:300-338 | a leg pair gets a candidate only if eligible, inside the time it shares |
| Pruning.LegCandidateExact | app/engine/trajectory.py:309-338 | for an eligible moving pair, every shared time under 5 NM on the straight tracks is a candidate, and every candidate time is within 5 NM |
| Pruning.SlowPair | app/engine/trajectory.py:334-335 | a pair without relative motion is a candidate for the whole shared time exactly when it starts within 5 NM |
| Bisection.PositionClamped | app/engine/trajectory.py:342-357 | before its start a leg is at its start point, after its end at its end point |
| Bisection.Pow2 | app/engine/trajectory.py:366 | powers of two are at least 1 |
| Bisection.StartSearchFacts | app/engine/trajectory.py:363-373 | the start search halves its bracket each step, stays inside it, and records only probes under 5 NM as the found start, which is the bracket's upper end; with no hit the fallback is kept |
| Bisection.EndSearchFacts | app/engine/trajectory.py:375-385 | the end search likewise, a found end being the bracket's lower end |
| Bisection.HalveAgain | app/engine/trajectory.py:367 | halving once and then k-1 times is halving k times |
| Bisection.StartSearchLast | app/engine/trajectory.py:366-373 | step k+1 of the start search is taken after the first k |
| Bisection.EndSearchLast | app/engine/trajectory.py:378-385 | step k+1 of the end search is taken after the first k |
| Bisection.StartProbe | app/engine/trajectory.py:367-373 | the start loop body is one step of the start search |
| Bisection.EndProbe | app/engine/trajectory.py:379-385 | the end loop body is one step of the end search |
| Bisection.SearchStart | app/engine/trajectory.py:363-373 | the start loop computes 15 steps of the start search |
| Bisection.SearchEnd | app/engine/trajectory.py:375-385 | the end loop computes 15 steps of the end search |
| Intervals.Insert | app/engine/trajectory.py:391 | insertion into a sorted list keeps it sorted and adds exactly the element |
| Intervals.InsertSorted | app/engine/trajectory.py:391 | inserting after a smaller head keeps the list sorted |
| Intervals.Sort | app/engine/trajectory.py:391 | `intervals.sort()` gives a lexicographically sorted permutation |
| Intervals.MergeIntervals | app/engine/trajectory.py:392-401 | the merge loop computes the specified merge |
| Intervals.MergeFromFacts | app/engine/trajectory.py:393-401 | the merge from a current interval is non-empty, starts at it, is separated by more than a second, and uses only given starts and finishes |
| Intervals.MergeFromCovers | app/engine/trajectory.py:393-401 | every interval merged in lies inside a merged interval |
| Intervals.MergeProperties | app/engine/trajectory.py:390-401 | for sorted non-empty intervals the merge is empty only for no input, no longer, ordered and more than a second apart, covers every input, and starts and finishes at input ones |
| Intervals.SortMergeProperties | app/engine/trajectory.py:390-402 | sort then merge has those properties against the unsorted input |
| Intervals.MergedEndsFrom | app/engine/trajectory.py:390-402 | each merged interval starts at an input start and finishes at an input finish |
| Intervals.SeparatedOrdered | app/engine/trajectory.py:396-400 | consecutive separation makes every earlier interval finish before every later one starts |
| Intervals.MergeExamples | app/engine/trajectory.py:396 | [0,10] and [11,20] merge into [0,20]; [0,10] and [12,20] stay apart |
| Detection.LegPairInterval | app/engine/trajectory.py:300-388 | a leg pair yields an interval only if it is eligible and has a candidate |
| Detection.RefineFacts | app/engine/trajectory.py:359-388 | a refined interval is non-empty, inside the shared time, and both its ends are probes under 5 NM |
| Detection.LegPairIntervalFacts | app/engine/trajectory.py:300-388 | a leg-pair interval comes from an eligible pair, lies in the shared time, is non-empty and both ends are under 5 NM |
| Detection.RowSource | app/engine/trajectory.py:301-388 | every interval of a row comes from one leg pair of it |
| Detection.RowIncludes | app/engine/trajectory.py:301-388 | every leg pair's interval is in its row |
| Detection.RawSource | app/engine/trajectory.py:300-388 | every collected interval comes from one leg pair |
| Detection.RawIncludes | app/engine/trajectory.py:300-388 | every leg pair's interval is collected |
| Detection.RawEmpty | app/engine/trajectory.py:300-388 | nothing is collected exactly when no leg pair yields an interval |
| Detection.RawWellFormed | app/engine/trajectory.py:387-388 | every collected interval has start before finish |
| Detection.PairIntervalsFacts | app/engine/trajectory.py:295-402 | the merged intervals are empty exactly when no leg pair yields one; otherwise ordered, more than a second apart, covering every leg-pair interval, with ends taken from them |
| Detection.RawEndsInConflict | app/engine/trajectory.py:359-388 | both ends of a collected interval are times its leg pair, both flying, was under 5 NM apart |
| Detection.LegPairEnds | app/engine/trajectory.py:359-388 | both ends of a leg-pair interval are conflict times of that pair |
| Detection.MergedEndsInConflict | app/engine/trajectory.py:295-402 | both ends of every merged interval are conflict times of some leg pair of the two flights |
| Detection.VerticallySeparated | app/engine/trajectory.py:306-307 | flights 2000 ft or more apart get no intervals |
| Detection.PairInterval | app/engine/trajectory.py:302-388 | the loop body for one leg pair computes its specified interval |
| Detection.RowIntervals | app/engine/trajectory.py:301-388 | the inner loop collects its row's intervals in order |
| Detection.CollectIntervals | app/engine/trajectory.py:300-388 | the two loops collect every leg pair's interval in visiting order |
| Detection.CheckPairConflict | app/engine/trajectory.py:295-402 | `check_pair_conflict` computes the specified merged intervals, `None` when a route fails |
| Grouping.AcidOrderFacts | app/engine/trajectory.py:203-209 | the dictionary keys list each ACID of the legs exactly once and nothing else |
| Grouping.AcidOrderPrefix | app/engine/trajectory.py:203-209 | more legs only append new ACIDs |
| Grouping.GroupLegs | app/engine/trajectory.py:203-209 | grouping gives the ACIDs in first-appearance order, each with its legs in order |
| Grouping.StrLeTotal | app/engine/trajectory.py:215 | any two strings are ordered |
| Grouping.StrLeAntisymmetric | app/engine/trajectory.py:215 | strings ordered both ways are equal |
| Grouping.Key | app/engine/trajectory.py:215 | the sorted pair is the two ACIDs, smaller first |
| Grouping.KeyUnordered | app/engine/trajectory.py:215-218 | two keys are equal exactly when they name the same unordered pair |
| Approach.ClosestOffset | app/engine/trajectory.py:250-255 | the clipped vertex offset lies in the shared time |
| Approach.ClosestOffsetLeast | app/engine/trajectory.py:250-255 | with relative motion, the clipped vertex minimises the quadratic over the shared time |
| Approach.ProbeTime | app/engine/trajectory.py:257 | the probe time lies in the shared time |
| Approach.ProbeTimeNearest | app/engine/trajectory.py:239-257 | with relative motion, the straight tracks are nearest at the probe time |
| Approach.Probe | app/engine/trajectory.py:232-277 | a leg pair is probed exactly when it shares time |
| Approach.ScanRowLeast | app/engine/trajectory.py:233-277 | the inner scan never raises the minimum, lowers it only to a probe recorded with its midpoint, and ends at most every probe |
| Approach.ScanAllLeast | app/engine/trajectory.py:232-277 | both scans together do likewise over all leg pairs |
| Approach.ClosestApproachLeast | app/engine/trajectory.py:228-277 | from 9999 and any carried point, the scan gives the least probe, with its midpoint when below 9999 |
| Approach.ProbePair | app/engine/trajectory.py:234-277 | the loop body computes the specified probe |
| Approach.ClosestApproach | app/engine/trajectory.py:228-277 | the closest-approach loops compute the specified scan from 9999 and the carried point |
| Conflicts.FlightIndex | app/engine/trajectory.py:220-221 | the index is that of the first flight with the ACID, or the length |
| Conflicts.FindFlight | app/engine/trajectory.py:220-221 | `next` fails exactly when no flight has the ACID, and otherwise returns a flight with it |
| Conflicts.TotalLengthBounds | app/engine/trajectory.py:287 | the total length of merged intervals is positive and at most their span |
| Conflicts.VisitGood | app/engine/trajectory.py:214-291 | visiting a pair keeps every summary one of its pair, with its key processed and no repeated key |
| Conflicts.ScanRowGood | app/engine/trajectory.py:213-291 | one row of visits keeps that invariant |
| Conflicts.ScanRowsGood | app/engine/trajectory.py:212-291 | all rows keep that invariant |
| Conflicts.ScanIsClosest | app/engine/trajectory.py:228-277 | the scan's distance is at most 9999 and every probe, and below 9999 belongs to a probe with that midpoint |
| Conflicts.FindConflictsGood | app/engine/trajectory.py:199-293 | the final state of `find_conflicts` keeps the invariant |
| Conflicts.SummaryInResult | app/engine/trajectory.py:279-291 | every summary states its pair's facts |
| Conflicts.NonEmptyPairConflict | app/engine/trajectory.py:223-225 | a pair with intervals is under 2000 ft apart, its intervals ordered and more than a second apart |
| Conflicts.ConflictAcids | app/engine/trajectory.py:209-221 | every summary names two different known ACIDs, the first earlier in the key order |
| Conflicts.AcidsDistinct | app/engine/trajectory.py:203-209 | the key order has no repeats |
| Conflicts.ConflictFields | app/engine/trajectory.py:279-291 | a summary's intervals are its flights' merged intervals, its time the truncated midpoint of the first, its duration the truncated total length within the span, its altitude difference theirs and under 2000 ft |
| Conflicts.ConflictClosest | app/engine/trajectory.py:228-291 | a summary's distance and point are the closest approach of the two flights' legs |
| Conflicts.ConflictPairsDistinct | app/engine/trajectory.py:215-218 | no unordered pair gets two summaries |
| Conflicts.VisitDone | app/engine/trajectory.py:214-291 | with distinct ACIDs, visiting the next pair keeps every earlier pair processed and, if `check_pair_conflict` reports intervals for it, summarised; every processed key is that of an earlier pair |
| Conflicts.ScanRowDone | app/engine/trajectory.py:213-291 | one row of visits keeps that completeness invariant |
| Conflicts.ScanRowsDone | app/engine/trajectory.py:212-291 | all rows keep that completeness invariant |
| Conflicts.ScanComplete | app/engine/trajectory.py:212-291 | once the loops finish, every pair whose check reports intervals has a summary of its two ACIDs |
| Conflicts.ConflictComplete | app/engine/trajectory.py:212-225 | every pair of ACIDs at positions i < j of the key order whose flights exist and whose `check_pair_conflict` reports intervals has a summary in the result of `find_conflicts` |
| Conflicts.ConflictOfPair | app/engine/trajectory.py:279-291 | conversely, a summary of the pair at positions i < j has the first ACID at i and the second at j, and its intervals are what `check_pair_conflict` of their flights reports, non-empty |
| Engine.FoundFlightLegs | app/engine/trajectory.py:407-415 | a found flight of a batch whose legs were built has legs |
| Engine.ConflictPairData | app/engine/trajectory.py:407-417 | `get_conflict_pair_data` is `None` exactly when either ACID has no flight |
| Engine.PairDataConsistent | app/engine/trajectory.py:407-417 | with unique ACIDs, the shown legs are those the intervals were computed from |
| Engine.FoundAt | app/engine/trajectory.py:408-409 | with unique ACIDs, looking up a flight's ACID finds it |
| Legs.ShownLegsOfAcid | app/engine/trajectory.py:404-405 | the legs shown for an ACID are exactly the views of the legs carrying it |
| Engine.ShownLegs | app/engine/trajectory.py:404-405 | with unique ACIDs, the legs shown for a flight are the views of its own legs |
| Engine.ViewsOf | app/engine/trajectory.py:404-405 | the shown legs are the views of the filtered legs |
| Engine.RowStaysFailed | app/engine/trajectory.py:213-225 | once a row raises, it stays failed |
| Engine.RowOfFailed | app/engine/trajectory.py:213-225 | a row started after a failure fails |
| Engine.RowsStayFailed | app/engine/trajectory.py:212-225 | once the loops raise, they stay failed |
| Engine.FlightEngine.constructor | app/engine/trajectory.py:88-105 | the engine holds the flights, the airport table and their precomputed legs |
| Engine.FlightEngine.VisitPair | app/engine/trajectory.py:214-291 | the loop body computes the specified pair visit |
| Engine.FlightEngine.VisitRow | app/engine/trajectory.py:213-291 | the inner loop computes the specified row |
| Engine.FlightEngine.ScanAllRows | app/engine/trajectory.py:212-291 | the outer loop computes the specified rows |
| Engine.FlightEngine.FindAllConflicts | app/engine/trajectory.py:199-293 | `find_conflicts` computes the specified summaries, which are sound (`Conflicts.ConflictFields`, `Conflicts.ConflictOfPair`) and complete (`Conflicts.ConflictComplete`) |
| Engine.FlightEngine.GetConflictPairData | app/engine/trajectory.py:407-417 | `get_conflict_pair_data` computes the specified result |
| Constraints.ContainsAt | app/engine/trajectory.py:421 | `sub in s` holds exactly when sub occurs at some position |
| Constraints.GetConstraints | app/engine/trajectory.py:419-460 | every band has its minimum at most its maximum |
| Constraints.FirstMatchRow | app/engine/trajectory.py:419-460 | the first matching row decides |
| Constraints.FirstMatchNone | app/engine/trajectory.py:460 | no matching row gives the fallback |
| Constraints.AnyInOne | app/engine/trajectory.py:421 | `any` over one name is that name's test |
| Constraints.AnyInTwo | app/engine/trajectory.py:428 | `any` over two names is either test |
| Constraints.AnyInThree | app/engine/trajectory.py:439 | `any` over three names is any of their tests |
| Constraints.ConstraintsTable | app/engine/trajectory.py:419-460 | the branches are the table rows taken in order |
| Constraints.A220Bands | app/engine/trajectory.py:428-438 | an A220 that is not a Dash 8 gets 28000-39000 ft and 370-500 kt |
| Constraints.Present | app/engine/trajectory.py:421 | every character of an occurring fragment occurs in the type |
| Constraints.Absent | app/engine/trajectory.py:421 | a fragment with a character the type lacks does not occur |
| Constraints.NarrowBodyExample | app/engine/trajectory.py:439-445 | "Boeing 737-800" gets 28000-39000 ft and 415-505 kt |
| Constraints.A220Example | app/engine/trajectory.py:428-438 | "Airbus A220-300" gets 28000-39000 ft and 370-500 kt |
| Constraints.FallbackExample | app/engine/trajectory.py:460 | "Cessna 208" gets the fallback bands |
| Trajectory.SegmentFrom | app/engine/trajectory.py:171-184 | every sample from offset t lies at or after t and before the segment's end |
| Trajectory.SegmentPoints | app/engine/trajectory.py:171-184 | every sample lies within the segment's time |
| Trajectory.SegmentIncreasing | app/engine/trajectory.py:171-184 | a segment's samples are in strictly increasing time |
| Trajectory.Sampled | app/engine/trajectory.py:188-196 | the trajectory ends with the last route point at the end time |
| Trajectory.OnePointRoute | app/engine/trajectory.py:165-196 | a route of one point gives the single sample of that point at the departure time, whatever the speed, zero included |
| Trajectory.TrackIncreasing | app/engine/trajectory.py:165-187 | the segment samples are in strictly increasing time, from the start time and before the end time |
| Trajectory.SampledIncreasing | app/engine/trajectory.py:157-197 | the whole trajectory is in strictly increasing time |
| Trajectory.TrajectoryShape | app/engine/trajectory.py:157-197 | a trajectory exists exactly when the route parses; it increases from the departure time and ends at the end time at the arrival airport when known |
| Trajectory.SegmentStartsAtStart | app/engine/trajectory.py:171-177 | a segment of positive duration starts at its start point at its start time |
| Trajectory.SampleSegment | app/engine/trajectory.py:171-184 | the `while` loop computes the segment's samples |
| Trajectory.SampleSegments | app/engine/trajectory.py:165-187 | the segment loop computes all segment samples and the end time |
| Trajectory.CalculateTrajectory | app/engine/trajectory.py:157-197 | `calculate_trajectory` computes the specified trajectory |

## Left out

- Loading flights from JSON (lines 88-90): the constructor takes the flight list, and every field is assumed present with the right type. Missing keys (`KeyError`) are not modelled.
- `app/main.py` and `app/engine/spotter.py` (the web layer and aircraft spotting) are not part of this model.
- Floating point: floats are reals, so rounding and overflow are not modelled.
- The formulas of `haversine`, great-circle interpolation, `cos(radians(x))` and `sqrt` are abstract function parameters. Only their non-negativity and the square-root property are assumed, where stated.
- numpy arrays are two-element `Vec` values. `np.clip`, `np.dot` and element-wise products are written out.
- Routes.ParseWaypoint: `float` is modelled on decimal numerals only (an optional sign, digits, at most one dot). Exponents, `inf`, `nan`, underscores, surrounding whitespace and non-ASCII Unicode decimal digits (Arabic-Indic or full-width digits, for example), all of which Python also accepts, are rejected.
- Trajectory.CalculateTrajectory: requires a non-empty route, and a non-zero speed when the route has at least two points. In the source a zero speed raises `ZeroDivisionError` at the first segment (line 169), and an empty route makes `points[-1]` raise `IndexError` (lines 188-196). A one-point route has no segment, so any speed gives its single sample (`Trajectory.OnePointRoute`).
- Trajectory.CalculateTrajectory: `interval_sec` is a positive whole number. A non-positive one makes the source loop forever on a segment of positive duration; the model requires a positive one even when no segment has positive duration.
- Engine.FlightEngine.constructor: requires every route to parse. The source raises on a bad waypoint while building the legs.
- Engine.ConflictPairData: requires the legs of every flight to have been built, which the engine's constructor guarantees.
- Intervals.Sort: `list.sort()` sorts in place; the model returns the sorted list instead.
- Dictionary order: the key order of `flight_legs` is the ACIDs' first-appearance order in the legs (`Grouping.AcidOrder`).
- Engine.FlightEngine.FindAllConflicts: the `UnboundLocalError` when no closest-approach point has ever been recorded is the result `None`. The Python exception itself is not modelled.
- Conflicts.ConflictClosest: when the scan of a pair finds no probe below 9999, `min_dist` stays 9999. The point is then the one left from an earlier pair, so the contract only states what holds when the distance is below 9999.
- Legs.LegsConsistent: proved for unique ACIDs only. With duplicate ACIDs, `next(...)` takes the first flight while the legs of every flight with that ACID are filtered together.
