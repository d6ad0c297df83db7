/** `find_conflicts`: every unordered pair of flights seen in the legs is
    checked once, and each pair with merged conflict intervals gets a
    summary (first conflict time, total duration, closest approach and
    where, altitude difference). */
module Conflicts {
  import opened Wrappers
  import opened Numerics
  import opened Routes
  import opened Legs
  import opened Intervals
  import opened Pruning
  import opened Detection
  import opened Grouping
  import opened Approach

  /** What the engine holds: the numeric library, the airport table, the
      flights and the legs precomputed from them. */
  datatype Batch = Batch(n: Numerics, airports: map<string, Coord>, flights: seq<Flight>, legs: seq<Leg>)

  /** One entry of the result of `find_conflicts`. */
  datatype Conflict = Conflict(
    time: int,
    acid1: string,
    acid2: string,
    point: Coord,
    intervals: seq<Interval>,
    duration: int,
    dist: real,
    altDiff: real)

  /** The index of the first flight with ACID `acid`, or `|flights|`. */
  function FlightIndex(flights: seq<Flight>, acid: string): (k: nat)
    ensures k <= |flights|
    ensures k < |flights| ==> flights[k].acid == acid
    ensures forall k' :: 0 <= k' < k ==> flights[k'].acid != acid
  {
    if flights == [] then 0
    else if flights[0].acid == acid then 0
    else 1 + FlightIndex(flights[1..], acid)
  }

  /** `next(f for f in flights if f["ACID"] == acid)`: the first flight
      with that ACID; `None` where Python would raise. */
  function FindFlight(flights: seq<Flight>, acid: string): (r: Option<Flight>)
    ensures r.None? <==> forall k :: 0 <= k < |flights| ==> flights[k].acid != acid
    ensures r.Some? ==> r.value in flights && r.value.acid == acid
  {
    var k := FlightIndex(flights, acid);
    if k < |flights| then Some(flights[k]) else None
  }

  /** The sum of the lengths of the intervals. */
  function TotalLength(s: seq<Interval>): real
  {
    if s == [] then 0.0 else TotalLength(s[..|s| - 1]) + (s[|s| - 1].finish - s[|s| - 1].start)
  }

  /** The total length of merged intervals is positive and at most the
      span from the first start to the last finish. */
  lemma {:induction false} TotalLengthBounds(s: seq<Interval>)
    requires s != [] && WellFormed(s)
    requires forall i, j :: 0 <= i < j < |s| ==> s[i].finish < s[j].start
    ensures 0.0 < TotalLength(s) <= s[|s| - 1].finish - s[0].start
    decreases |s|
  {
    var init := s[..|s| - 1];
    if init != [] {
      TotalLengthBounds(init);
      assert init[|init| - 1] == s[|s| - 2] && init[0] == s[0];
    }
  }

  /** The summary `find_conflicts` builds for a pair with intervals. */
  function Summary(acid1: string, acid2: string, f1: Flight, f2: Flight, intervals: seq<Interval>, dist: real, point: Coord): Conflict
    requires intervals != []
  {
    Conflict(
      Trunc((intervals[0].start + intervals[0].finish) / 2.0),
      acid1, acid2, point, intervals,
      Trunc(TotalLength(intervals)),
      dist,
      Abs(f1.altitude - f2.altitude))
  }

  /** The state of the pair loops: the summaries so far, the keys of the
      pairs processed, and the last recorded closest-approach point (a
      local that is never reset between pairs). */
  datatype Scan = Scan(conflicts: seq<Conflict>, processed: set<(string, string)>, point: Option<Coord>)

  /** The two computations a pair visit calls: the merged intervals of two
      flights, and the closest-approach scan of two ACIDs' legs starting
      from the carried point. */
  datatype Calls = Calls(
    pair: (Flight, Flight) -> Option<seq<Interval>>,
    closest: (string, string, Option<Coord>) -> Best)

  /** The engine's own calls: `check_pair_conflict` and the scan over the
      grouped legs. */
  function EngineCalls(b: Batch): Calls
  {
    Calls(
      (f1: Flight, f2: Flight) => PairConflict(b.n, b.airports, f1, f2),
      (a1: string, a2: string, p: Option<Coord>) =>
        ScanAll(ProbeFn(b.n), Best(NoApproach, p), LegsWithAcid(b.legs, a1), LegsWithAcid(b.legs, a2)))
  }

  /** The loop body for the pair `(acids[i], acids[j])`; `None` where Python
      would raise: no flight with one of the ACIDs, a route that does not
      parse, or a summary whose point was never recorded. */
  function Visit(flights: seq<Flight>, calls: Calls, acids: seq<string>, st: Scan, i: nat, j: nat): Option<Scan>
    requires i < |acids| && j < |acids|
  {
    var acid1, acid2 := acids[i], acids[j];
    var key := Key(acid1, acid2);
    if key in st.processed then Some(st)
    else
      var processed := st.processed + {key};
      match FindFlight(flights, acid1)
      case None => None
      case Some(f1) =>
        match FindFlight(flights, acid2)
        case None => None
        case Some(f2) =>
          match calls.pair(f1, f2)
          case None => None
          case Some(intervals) =>
            if intervals == [] then Some(Scan(st.conflicts, processed, st.point))
            else
              var best := calls.closest(acid1, acid2, st.point);
              match best.point
              case None => None
              case Some(p) =>
                Some(Scan(st.conflicts + [Summary(acid1, acid2, f1, f2, intervals, best.minDist, p)], processed, best.point))
  }

  /** The inner loop of row `i` up to (not including) `j`. */
  function ScanRowUpTo(flights: seq<Flight>, calls: Calls, acids: seq<string>, st: Option<Scan>, i: nat, j: nat): Option<Scan>
    requires i < j <= |acids|
    decreases j
  {
    if j == i + 1 then st
    else
      match ScanRowUpTo(flights, calls, acids, st, i, j - 1)
      case None => None
      case Some(s) => Visit(flights, calls, acids, s, i, j - 1)
  }

  /** The outer loop up to (not including) row `i`. */
  function ScanRows(flights: seq<Flight>, calls: Calls, acids: seq<string>, st: Option<Scan>, i: nat): Option<Scan>
    requires i <= |acids|
  {
    if i == 0 then st
    else ScanRowUpTo(flights, calls, acids, ScanRows(flights, calls, acids, st, i - 1), i - 1, |acids|)
  }

  /** Specification of `find_conflicts`. */
  function FindConflicts(b: Batch): Option<seq<Conflict>>
  {
    var acids := AcidOrder(b.legs);
    match ScanRows(b.flights, EngineCalls(b), acids, Some(Scan([], {}, None)), |acids|)
    case None => None
    case Some(st) => Some(st.conflicts)
  }

  /** What every summary states about its pair, for any calls. */
  ghost predicate SummaryWith(flights: seq<Flight>, calls: Calls, acids: seq<string>, c: Conflict)
  {
    && (exists i, j :: 0 <= i < j < |acids| && acids[i] == c.acid1 && acids[j] == c.acid2)
    && FindFlight(flights, c.acid1).Some? && FindFlight(flights, c.acid2).Some?
    && var f1, f2 := FindFlight(flights, c.acid1).value, FindFlight(flights, c.acid2).value;
    && calls.pair(f1, f2) == Some(c.intervals)
    && c.intervals != []
    && c.time == Trunc((c.intervals[0].start + c.intervals[0].finish) / 2.0)
    && c.duration == Trunc(TotalLength(c.intervals))
    && c.altDiff == Abs(f1.altitude - f2.altitude)
    && exists p0 :: calls.closest(c.acid1, c.acid2, p0) == Best(c.dist, Some(c.point))
  }

  /** What the pair loops keep: every summary is one of its pair, its key
      is processed, and no earlier summary has the same key. */
  ghost predicate Good(flights: seq<Flight>, calls: Calls, acids: seq<string>, st: Scan)
  {
    forall k :: 0 <= k < |st.conflicts| ==> GoodAt(flights, calls, acids, st, k)
  }

  ghost predicate GoodAt(flights: seq<Flight>, calls: Calls, acids: seq<string>, st: Scan, k: nat)
    requires k < |st.conflicts|
  {
    var c := st.conflicts[k];
    && SummaryWith(flights, calls, acids, c)
    && Key(c.acid1, c.acid2) in st.processed
    && forall m :: 0 <= m < k ==> Key(st.conflicts[m].acid1, st.conflicts[m].acid2) != Key(c.acid1, c.acid2)
  }

  /** One visit of a pair `i < j` keeps `Good`. */
  lemma VisitGood(flights: seq<Flight>, calls: Calls, acids: seq<string>, st: Scan, i: nat, j: nat)
    requires i < j < |acids|
    requires Good(flights, calls, acids, st)
    requires Visit(flights, calls, acids, st, i, j).Some?
    ensures Good(flights, calls, acids, Visit(flights, calls, acids, st, i, j).value)
  {
    var acid1, acid2 := acids[i], acids[j];
    var r := Visit(flights, calls, acids, st, i, j).value;
    if Key(acid1, acid2) !in st.processed {
      forall k | 0 <= k < |r.conflicts| ensures GoodAt(flights, calls, acids, r, k) {
        if k < |st.conflicts| {
          assert r.conflicts[k] == st.conflicts[k];
          assert GoodAt(flights, calls, acids, st, k);
          forall m | 0 <= m < k ensures r.conflicts[m] == st.conflicts[m] { }
        } else {
          var c := r.conflicts[k];
          assert calls.closest(acid1, acid2, st.point) == Best(c.dist, Some(c.point));
          assert SummaryWith(flights, calls, acids, c);
          forall m | 0 <= m < k
            ensures Key(r.conflicts[m].acid1, r.conflicts[m].acid2) != Key(c.acid1, c.acid2)
          {
            assert GoodAt(flights, calls, acids, st, m);
          }
        }
      }
    }
  }

  lemma {:induction false} ScanRowGood(flights: seq<Flight>, calls: Calls, acids: seq<string>, st: Option<Scan>, i: nat, j: nat)
    requires i < j <= |acids|
    requires st.Some? ==> Good(flights, calls, acids, st.value)
    ensures var r := ScanRowUpTo(flights, calls, acids, st, i, j); r.Some? ==> Good(flights, calls, acids, r.value)
    decreases j
  {
    if j > i + 1 {
      ScanRowGood(flights, calls, acids, st, i, j - 1);
      var s := ScanRowUpTo(flights, calls, acids, st, i, j - 1);
      var r := ScanRowUpTo(flights, calls, acids, st, i, j);
      if s.Some? {
        var v := Visit(flights, calls, acids, s.value, i, j - 1);
        assert r == v;
        if v.Some? {
          VisitGood(flights, calls, acids, s.value, i, j - 1);
          assert Good(flights, calls, acids, r.value);
        } else {
          assert r.None?;
        }
      } else {
        assert r.None?;
      }
    } else {
      assert ScanRowUpTo(flights, calls, acids, st, i, j) == st;
    }
  }

  lemma {:induction false} ScanRowsGood(flights: seq<Flight>, calls: Calls, acids: seq<string>, st: Option<Scan>, i: nat)
    requires i <= |acids|
    requires st.Some? ==> Good(flights, calls, acids, st.value)
    ensures var r := ScanRows(flights, calls, acids, st, i); r.Some? ==> Good(flights, calls, acids, r.value)
  {
    if i > 0 {
      ScanRowsGood(flights, calls, acids, st, i - 1);
      ScanRowGood(flights, calls, acids, ScanRows(flights, calls, acids, st, i - 1), i - 1, |acids|);
    }
  }

  /** Pair `(p, q)` is visited before pair `(i, j)` by the two loops. */
  predicate Earlier(p: nat, q: nat, i: nat, j: nat)
  {
    p < i || (p == i && q < j)
  }

  /** Both ACIDs have flights and `check_pair_conflict` of them, in this
      order, reports intervals. */
  ghost predicate Hit(flights: seq<Flight>, calls: Calls, acid1: string, acid2: string)
  {
    && FindFlight(flights, acid1).Some? && FindFlight(flights, acid2).Some?
    && var s := calls.pair(FindFlight(flights, acid1).value, FindFlight(flights, acid2).value);
    && s.Some? && s.value != []
  }

  /** Some summary so far is of the unordered pair of `acid1` and `acid2`. */
  ghost predicate Reported(st: Scan, acid1: string, acid2: string)
  {
    exists k :: 0 <= k < |st.conflicts| && Key(st.conflicts[k].acid1, st.conflicts[k].acid2) == Key(acid1, acid2)
  }

  /** What the pair loops keep about completeness once every pair before
      `(i, j)` is visited: each processed key is the key of such a pair,
      and each such pair is processed and, if it hits, reported. */
  ghost predicate Done(flights: seq<Flight>, calls: Calls, acids: seq<string>, st: Scan, i: nat, j: nat)
  {
    KeysFrom(acids, st, i, j) && Covered(flights, calls, acids, st, i, j)
  }

  ghost predicate KeysFrom(acids: seq<string>, st: Scan, i: nat, j: nat)
  {
    forall key :: key in st.processed ==>
      exists p, q :: 0 <= p < q < |acids| && Earlier(p, q, i, j) && Key(acids[p], acids[q]) == key
  }

  ghost predicate Covered(flights: seq<Flight>, calls: Calls, acids: seq<string>, st: Scan, i: nat, j: nat)
  {
    forall p, q :: 0 <= p < q < |acids| && Earlier(p, q, i, j) ==>
      Key(acids[p], acids[q]) in st.processed
      && (Hit(flights, calls, acids[p], acids[q]) ==> Reported(st, acids[p], acids[q]))
  }

  /** With distinct ACIDs, no pair visited before `(i, j)` has its key. */
  lemma KeyNotEarlier(acids: seq<string>, p: nat, q: nat, i: nat, j: nat)
    requires Distinct(acids) && p < q < |acids| && i < j < |acids| && Earlier(p, q, i, j)
    ensures Key(acids[p], acids[q]) != Key(acids[i], acids[j])
  {
    KeyUnordered(acids[p], acids[q], acids[i], acids[j]);
    if p < i {
      assert acids[p] !in {acids[i], acids[j]};
    } else {
      assert acids[q] !in {acids[i], acids[j]};
    }
  }

  /** What one visit of an unprocessed pair `(i, j)` does: it adds the
      pair's key, keeps the summaries so far, and reports the pair if it
      hits. */
  lemma VisitStep(flights: seq<Flight>, calls: Calls, acids: seq<string>, st: Scan, i: nat, j: nat)
    requires i < j < |acids| && Key(acids[i], acids[j]) !in st.processed
    requires Visit(flights, calls, acids, st, i, j).Some?
    ensures var r := Visit(flights, calls, acids, st, i, j).value;
      && r.processed == st.processed + {Key(acids[i], acids[j])}
      && |st.conflicts| <= |r.conflicts| && r.conflicts[..|st.conflicts|] == st.conflicts
      && (Hit(flights, calls, acids[i], acids[j]) ==> Reported(r, acids[i], acids[j]))
  {
    var r := Visit(flights, calls, acids, st, i, j).value;
    if Hit(flights, calls, acids[i], acids[j]) {
      var k := |st.conflicts|;
      assert r.conflicts[k].acid1 == acids[i] && r.conflicts[k].acid2 == acids[j];
    }
  }

  /** A step that adds the key of `(i, j)` keeps `KeysFrom`, one pair
      further. */
  lemma KeysStep(acids: seq<string>, st: Scan, r: Scan, i: nat, j: nat)
    requires i < j < |acids|
    requires KeysFrom(acids, st, i, j)
    requires r.processed == st.processed + {Key(acids[i], acids[j])}
    ensures KeysFrom(acids, r, i, j + 1)
  {
    forall k | k in r.processed
      ensures exists p, q :: 0 <= p < q < |acids| && Earlier(p, q, i, j + 1) && Key(acids[p], acids[q]) == k
    {
      if k == Key(acids[i], acids[j]) {
        assert Earlier(i, j, i, j + 1);
      } else {
        var p, q :| 0 <= p < q < |acids| && Earlier(p, q, i, j) && Key(acids[p], acids[q]) == k;
        assert Earlier(p, q, i, j + 1);
      }
    }
  }

  /** A step that adds the key of `(i, j)`, keeps the summaries so far and
      reports `(i, j)` if it hits keeps `Covered`, one pair further. */
  lemma CoveredStep(flights: seq<Flight>, calls: Calls, acids: seq<string>, st: Scan, r: Scan, i: nat, j: nat)
    requires i < j < |acids|
    requires Covered(flights, calls, acids, st, i, j)
    requires r.processed == st.processed + {Key(acids[i], acids[j])}
    requires |st.conflicts| <= |r.conflicts| && r.conflicts[..|st.conflicts|] == st.conflicts
    requires Hit(flights, calls, acids[i], acids[j]) ==> Reported(r, acids[i], acids[j])
    ensures Covered(flights, calls, acids, r, i, j + 1)
  {
    forall p, q | 0 <= p < q < |acids| && Earlier(p, q, i, j + 1)
      ensures Key(acids[p], acids[q]) in r.processed
      ensures Hit(flights, calls, acids[p], acids[q]) ==> Reported(r, acids[p], acids[q])
    {
      if Earlier(p, q, i, j) && Hit(flights, calls, acids[p], acids[q]) {
        var k :| 0 <= k < |st.conflicts| && Key(st.conflicts[k].acid1, st.conflicts[k].acid2) == Key(acids[p], acids[q]);
        assert r.conflicts[k] == r.conflicts[..|st.conflicts|][k];
      }
    }
  }

  /** One visit of the next pair `(i, j)` keeps `Done`, one pair further. */
  lemma VisitDone(flights: seq<Flight>, calls: Calls, acids: seq<string>, st: Scan, i: nat, j: nat)
    requires Distinct(acids) && i < j < |acids|
    requires Done(flights, calls, acids, st, i, j)
    requires Visit(flights, calls, acids, st, i, j).Some?
    ensures Done(flights, calls, acids, Visit(flights, calls, acids, st, i, j).value, i, j + 1)
  {
    forall k | k in st.processed ensures k != Key(acids[i], acids[j]) {
      var p, q :| 0 <= p < q < |acids| && Earlier(p, q, i, j) && Key(acids[p], acids[q]) == k;
      KeyNotEarlier(acids, p, q, i, j);
    }
    VisitStep(flights, calls, acids, st, i, j);
    var r := Visit(flights, calls, acids, st, i, j).value;
    KeysStep(acids, st, r, i, j);
    CoveredStep(flights, calls, acids, st, r, i, j);
  }

  lemma {:induction false} ScanRowDone(flights: seq<Flight>, calls: Calls, acids: seq<string>, st: Option<Scan>, i: nat, j: nat)
    requires Distinct(acids) && i < j <= |acids|
    requires st.Some? ==> Done(flights, calls, acids, st.value, i, i + 1)
    ensures var r := ScanRowUpTo(flights, calls, acids, st, i, j); r.Some? ==> Done(flights, calls, acids, r.value, i, j)
    decreases j
  {
    if j > i + 1 {
      ScanRowDone(flights, calls, acids, st, i, j - 1);
      var s := ScanRowUpTo(flights, calls, acids, st, i, j - 1);
      var r := ScanRowUpTo(flights, calls, acids, st, i, j);
      if s.Some? {
        var v := Visit(flights, calls, acids, s.value, i, j - 1);
        assert r == v;
        if v.Some? {
          VisitDone(flights, calls, acids, s.value, i, j - 1);
          assert Done(flights, calls, acids, r.value, i, j);
        } else {
          assert r.None?;
        }
      } else {
        assert r.None?;
      }
    } else {
      assert ScanRowUpTo(flights, calls, acids, st, i, j) == st;
    }
  }

  /** A finished row `i` is the start of row `i + 1`. */
  lemma RowDone(flights: seq<Flight>, calls: Calls, acids: seq<string>, st: Scan, i: nat)
    requires i < |acids| && Done(flights, calls, acids, st, i, |acids|)
    ensures Done(flights, calls, acids, st, i + 1, i + 2)
  {
    forall p, q | 0 <= p < q < |acids| ensures Earlier(p, q, i, |acids|) == Earlier(p, q, i + 1, i + 2) { }
  }

  /** Row `i`, from its start, reaches the start of row `i + 1`. */
  lemma RowStep(flights: seq<Flight>, calls: Calls, acids: seq<string>, s: Option<Scan>, i: nat)
    requires Distinct(acids) && i < |acids|
    requires s.Some? ==> Done(flights, calls, acids, s.value, i, i + 1)
    ensures var r := ScanRowUpTo(flights, calls, acids, s, i, |acids|);
      r.Some? ==> Done(flights, calls, acids, r.value, i + 1, i + 2)
  {
    ScanRowDone(flights, calls, acids, s, i, |acids|);
    var r := ScanRowUpTo(flights, calls, acids, s, i, |acids|);
    if r.Some? {
      RowDone(flights, calls, acids, r.value, i);
    }
  }

  lemma {:induction false} ScanRowsDone(flights: seq<Flight>, calls: Calls, acids: seq<string>, st: Option<Scan>, i: nat)
    requires Distinct(acids) && i <= |acids|
    requires st.Some? ==> Done(flights, calls, acids, st.value, 0, 1)
    ensures var r := ScanRows(flights, calls, acids, st, i); r.Some? ==> Done(flights, calls, acids, r.value, i, i + 1)
  {
    if i > 0 {
      ScanRowsDone(flights, calls, acids, st, i - 1);
      var s := ScanRows(flights, calls, acids, st, i - 1);
      RowStep(flights, calls, acids, s, i - 1);
      assert ScanRows(flights, calls, acids, st, i) == ScanRowUpTo(flights, calls, acids, s, i - 1, |acids|);
    } else {
      assert ScanRows(flights, calls, acids, st, i) == st;
    }
  }


  /** `d` and `p` are what the closest-approach scan of two leg lists can
      report: `d` is at most 9999 and at most every probe, and if below
      9999 it is the distance of a probe whose midpoint is `p`. */
  ghost predicate ClosestOf(n: Numerics, legs1: seq<Leg>, legs2: seq<Leg>, d: real, p: Coord)
  {
    && d <= NoApproach
    && (forall i, j :: 0 <= i < |legs1| && 0 <= j < |legs2| && Overlap(legs1[i], legs2[j]) ==>
          d <= Probe(n, legs1[i], legs2[j]).value.dist)
    && (d < NoApproach ==> exists i, j ::
          0 <= i < |legs1| && 0 <= j < |legs2| && Probe(n, legs1[i], legs2[j]) == Some(Sample(d, p)))
  }

  /** The scan's result from any starting point is a `ClosestOf`. */
  lemma ScanIsClosest(n: Numerics, legs1: seq<Leg>, legs2: seq<Leg>, point: Option<Coord>)
    requires ScanAll(ProbeFn(n), Best(NoApproach, point), legs1, legs2).point.Some?
    ensures var r := ScanAll(ProbeFn(n), Best(NoApproach, point), legs1, legs2);
      ClosestOf(n, legs1, legs2, r.minDist, r.point.value)
  {
    var r := ScanAll(ProbeFn(n), Best(NoApproach, point), legs1, legs2);
    ClosestApproachLeast(n, legs1, legs2, point);
    forall i, j | 0 <= i < |legs1| && 0 <= j < |legs2| && Overlap(legs1[i], legs2[j])
      ensures r.minDist <= Probe(n, legs1[i], legs2[j]).value.dist
    {
      assert ProbeFn(n)(legs1[i], legs2[j]).Some?;
    }
  }

  /** The final scan state of `find_conflicts` keeps `Good`. */
  lemma FindConflictsGood(b: Batch)
    requires FindConflicts(b).Some?
    ensures var acids := AcidOrder(b.legs);
      var st := ScanRows(b.flights, EngineCalls(b), acids, Some(Scan([], {}, None)), |acids|);
      st.Some? && FindConflicts(b).value == st.value.conflicts && Good(b.flights, EngineCalls(b), acids, st.value)
  {
    var acids := AcidOrder(b.legs);
    ScanRowsGood(b.flights, EngineCalls(b), acids, Some(Scan([], {}, None)), |acids|);
  }

  /** Every summary of `find_conflicts` is a `SummaryWith` of the engine's
      calls. */
  lemma SummaryInResult(b: Batch, c: Conflict)
    requires FindConflicts(b).Some? && c in FindConflicts(b).value
    ensures SummaryWith(b.flights, EngineCalls(b), AcidOrder(b.legs), c)
  {
    var acids := AcidOrder(b.legs);
    var calls := EngineCalls(b);
    FindConflictsGood(b);
    var st := ScanRows(b.flights, calls, acids, Some(Scan([], {}, None)), |acids|).value;
    var k :| 0 <= k < |st.conflicts| && st.conflicts[k] == c;
    assert GoodAt(b.flights, calls, acids, st, k);
  }

  /** Non-empty merged intervals of two flights are ordered and more than a
      second apart, and the flights are less than 2000 ft apart. */
  lemma NonEmptyPairConflict(n: Numerics, airports: map<string, Coord>, f1: Flight, f2: Flight)
    requires PairConflict(n, airports, f1, f2).Some? && PairConflict(n, airports, f1, f2).value != []
    ensures Abs(f1.altitude - f2.altitude) < VerticalFt
    ensures var s := PairConflict(n, airports, f1, f2).value;
      WellFormed(s) && forall i, j :: 0 <= i < j < |s| ==> s[i].finish < s[j].start
  {
    if Abs(f1.altitude - f2.altitude) >= VerticalFt {
      VerticallySeparated(n, airports, f1, f2);
    }
    var legs1, legs2 := FlightLegs(n, airports, f1).value, FlightLegs(n, airports, f2).value;
    PairIntervalsFacts(n, legs1, legs2);
  }

  /** Every summary of `find_conflicts` is of two different ACIDs of
      flights, the first seen before the second in the legs: at positions
      `i < j` of the first-appearance order. */
  lemma ConflictAcids(b: Batch, c: Conflict) returns (i: nat, j: nat)
    requires FindConflicts(b).Some? && c in FindConflicts(b).value
    ensures c.acid1 != c.acid2
    ensures i < j < |AcidOrder(b.legs)| && AcidOrder(b.legs)[i] == c.acid1 && AcidOrder(b.legs)[j] == c.acid2
    ensures FindFlight(b.flights, c.acid1).Some? && FindFlight(b.flights, c.acid2).Some?
  {
    SummaryInResult(b, c);
    AcidsDistinct(b.legs);
    var acids := AcidOrder(b.legs);
    i, j :| 0 <= i < j < |acids| && acids[i] == c.acid1 && acids[j] == c.acid2;
  }

  lemma AcidsDistinct(legs: seq<Leg>)
    ensures Distinct(AcidOrder(legs))
  {
    AcidOrderFacts(legs);
  }

  /** The intervals of every summary are the merged conflict intervals of
      its two flights, none empty; its time is the truncated midpoint of
      the first of them and its duration their truncated total length (at
      least 0 and at most their span); its altitude difference is that of
      the two flights, under 2000 ft. */
  lemma ConflictFields(b: Batch, c: Conflict)
    requires FindConflicts(b).Some? && c in FindConflicts(b).value
    ensures FindFlight(b.flights, c.acid1).Some? && FindFlight(b.flights, c.acid2).Some?
    ensures var f1, f2 := FindFlight(b.flights, c.acid1).value, FindFlight(b.flights, c.acid2).value;
      && PairConflict(b.n, b.airports, f1, f2) == Some(c.intervals)
      && c.altDiff == Abs(f1.altitude - f2.altitude)
    ensures c.altDiff < VerticalFt
    ensures c.intervals != []
    ensures c.time == Trunc((c.intervals[0].start + c.intervals[0].finish) / 2.0)
    ensures c.duration == Trunc(TotalLength(c.intervals))
    ensures 0 <= c.duration && c.duration as real <= c.intervals[|c.intervals| - 1].finish - c.intervals[0].start
  {
    var calls := EngineCalls(b);
    SummaryInResult(b, c);
    var f1, f2 := FindFlight(b.flights, c.acid1).value, FindFlight(b.flights, c.acid2).value;
    assert calls.pair(f1, f2) == PairConflict(b.n, b.airports, f1, f2);
    NonEmptyPairConflict(b.n, b.airports, f1, f2);
    TotalLengthBounds(c.intervals);
  }

  /** The distance and point of every summary are the closest approach of
      the two flights' legs. */
  lemma ConflictClosest(b: Batch, c: Conflict)
    requires FindConflicts(b).Some? && c in FindConflicts(b).value
    ensures ClosestOf(b.n, LegsWithAcid(b.legs, c.acid1), LegsWithAcid(b.legs, c.acid2), c.dist, c.point)
  {
    var calls := EngineCalls(b);
    SummaryInResult(b, c);
    var p0 :| calls.closest(c.acid1, c.acid2, p0) == Best(c.dist, Some(c.point));
    ScanIsClosest(b.n, LegsWithAcid(b.legs, c.acid1), LegsWithAcid(b.legs, c.acid2), p0);
  }

  /** No unordered pair of ACIDs gets two summaries. */
  lemma ConflictPairsDistinct(b: Batch)
    requires FindConflicts(b).Some?
    ensures var cs := FindConflicts(b).value;
      forall k, m :: 0 <= k < m < |cs| ==> {cs[k].acid1, cs[k].acid2} != {cs[m].acid1, cs[m].acid2}
  {
    var acids := AcidOrder(b.legs);
    var calls := EngineCalls(b);
    FindConflictsGood(b);
    var st := ScanRows(b.flights, calls, acids, Some(Scan([], {}, None)), |acids|).value;
    var cs := st.conflicts;
    forall k, m | 0 <= k < m < |cs| ensures {cs[k].acid1, cs[k].acid2} != {cs[m].acid1, cs[m].acid2} {
      assert GoodAt(b.flights, calls, acids, st, m);
      KeyUnordered(cs[k].acid1, cs[k].acid2, cs[m].acid1, cs[m].acid2);
    }
  }

  /** Before the loops nothing is processed and no pair is due. */
  lemma DoneStart(flights: seq<Flight>, calls: Calls, acids: seq<string>)
    ensures Done(flights, calls, acids, Scan([], {}, None), 0, 1)
  {
    forall p, q | 0 <= p < q < |acids| ensures !Earlier(p, q, 0, 1) { }
  }

  /** Once every pair is covered, a pair `i < j` that hits has a summary
      of its two ACIDs. */
  lemma CoveredReports(flights: seq<Flight>, calls: Calls, acids: seq<string>, st: Scan, i: nat, j: nat)
    requires i < j < |acids| && Covered(flights, calls, acids, st, |acids|, |acids| + 1)
    requires Hit(flights, calls, acids[i], acids[j])
    ensures exists c :: c in st.conflicts && {c.acid1, c.acid2} == {acids[i], acids[j]}
  {
    assert Earlier(i, j, |acids|, |acids| + 1);
    var k :| 0 <= k < |st.conflicts| && Key(st.conflicts[k].acid1, st.conflicts[k].acid2) == Key(acids[i], acids[j]);
    KeyUnordered(st.conflicts[k].acid1, st.conflicts[k].acid2, acids[i], acids[j]);
    assert st.conflicts[k] in st.conflicts;
  }

  /** With distinct ACIDs, a pair `i < j` that hits has a summary of its
      two ACIDs once the pair loops finish. */
  lemma ScanComplete(flights: seq<Flight>, calls: Calls, acids: seq<string>, i: nat, j: nat)
    requires Distinct(acids) && i < j < |acids|
    requires ScanRows(flights, calls, acids, Some(Scan([], {}, None)), |acids|).Some?
    requires Hit(flights, calls, acids[i], acids[j])
    ensures var cs := ScanRows(flights, calls, acids, Some(Scan([], {}, None)), |acids|).value.conflicts;
      exists c :: c in cs && {c.acid1, c.acid2} == {acids[i], acids[j]}
  {
    DoneStart(flights, calls, acids);
    ScanRowsDone(flights, calls, acids, Some(Scan([], {}, None)), |acids|);
    CoveredReports(flights, calls, acids, ScanRows(flights, calls, acids, Some(Scan([], {}, None)), |acids|).value, i, j);
  }

  lemma EngineHit(b: Batch, acid1: string, acid2: string)
    requires FindFlight(b.flights, acid1).Some? && FindFlight(b.flights, acid2).Some?
    requires var s := PairConflict(b.n, b.airports, FindFlight(b.flights, acid1).value, FindFlight(b.flights, acid2).value);
      s.Some? && s.value != []
    ensures Hit(b.flights, EngineCalls(b), acid1, acid2)
  {
    var f1, f2 := FindFlight(b.flights, acid1).value, FindFlight(b.flights, acid2).value;
    assert EngineCalls(b).pair(f1, f2) == PairConflict(b.n, b.airports, f1, f2);
  }

  /** Every pair of flights at positions `i < j` of the first-appearance
      order whose `check_pair_conflict` reports intervals has a summary in
      the result of `find_conflicts`. */
  lemma ConflictComplete(b: Batch, i: nat, j: nat)
    requires FindConflicts(b).Some?
    requires i < j < |AcidOrder(b.legs)|
    requires var acids := AcidOrder(b.legs);
      && FindFlight(b.flights, acids[i]).Some? && FindFlight(b.flights, acids[j]).Some?
      && var s := PairConflict(b.n, b.airports, FindFlight(b.flights, acids[i]).value, FindFlight(b.flights, acids[j]).value);
      s.Some? && s.value != []
    ensures var acids := AcidOrder(b.legs);
      exists c :: c in FindConflicts(b).value && {c.acid1, c.acid2} == {acids[i], acids[j]}
  {
    var acids := AcidOrder(b.legs);
    AcidsDistinct(b.legs);
    EngineHit(b, acids[i], acids[j]);
    ScanComplete(b.flights, EngineCalls(b), acids, i, j);
  }

  /** Conversely, a summary of the pair at positions `i < j` has `acid1`
      at `i` and `acid2` at `j`, and `check_pair_conflict` of their flights
      reports its intervals. */
  lemma ConflictOfPair(b: Batch, i: nat, j: nat, c: Conflict)
    requires FindConflicts(b).Some? && c in FindConflicts(b).value
    requires i < j < |AcidOrder(b.legs)|
    requires {c.acid1, c.acid2} == {AcidOrder(b.legs)[i], AcidOrder(b.legs)[j]}
    ensures c.acid1 == AcidOrder(b.legs)[i] && c.acid2 == AcidOrder(b.legs)[j]
    ensures FindFlight(b.flights, c.acid1).Some? && FindFlight(b.flights, c.acid2).Some?
    ensures PairConflict(b.n, b.airports, FindFlight(b.flights, c.acid1).value, FindFlight(b.flights, c.acid2).value)
      == Some(c.intervals)
    ensures c.intervals != []
  {
    var acids := AcidOrder(b.legs);
    AcidsDistinct(b.legs);
    var p, q := ConflictAcids(b, c);
    assert acids[p] in {acids[i], acids[j]} && acids[q] in {acids[i], acids[j]};
    assert p == i && q == j;
    ConflictFields(b, c);
  }
}
