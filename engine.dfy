/** `FlightEngine`: holds the flights, the airport table and the legs
    precomputed from them, and answers the conflict queries. */
module Engine {
  import opened Wrappers
  import opened Numerics
  import opened Routes
  import opened Legs
  import opened Intervals
  import opened Detection
  import opened Grouping
  import opened Approach
  import opened Conflicts

  /** The engine's airport table: ICAO code to (latitude, longitude). */
  const AirportCoords: map<string, Coord> := map[
    "CYYZ" := Coord(43.68, -79.63),
    "CYVR" := Coord(49.19, -123.18),
    "CYUL" := Coord(45.47, -73.74),
    "CYYC" := Coord(51.11, -114.02),
    "CYOW" := Coord(45.32, -75.67),
    "CYWG" := Coord(49.91, -97.24),
    "CYHZ" := Coord(44.88, -63.51),
    "CYEG" := Coord(53.31, -113.58),
    "CYQB" := Coord(46.79, -71.39),
    "CYYJ" := Coord(48.65, -123.43),
    "CYYT" := Coord(47.62, -52.75),
    "CYXE" := Coord(52.17, -106.70)]

  /** A flight found by ACID in a batch whose legs were all built has legs
      of its own. */
  lemma FoundFlightLegs(n: Numerics, airports: map<string, Coord>, flights: seq<Flight>, acid: string)
    requires AllLegs(n, airports, flights).Some? && FindFlight(flights, acid).Some?
    ensures FlightLegs(n, airports, FindFlight(flights, acid).value).Some?
  {
    var k := FlightIndex(flights, acid);
    if FlightLegs(n, airports, flights[k]).None? {
      AllLegsFails(n, airports, flights, k);
    }
  }

  /** What `get_conflict_pair_data` returns for a pair of found flights. */
  datatype PairData = PairData(legs1: seq<LegView>, legs2: seq<LegView>, intervals: seq<Interval>)

  /** Specification of `get_conflict_pair_data`: `None` when either ACID
      has no flight, otherwise both flights' leg views and their merged
      conflict intervals. */
  function ConflictPairData(b: Batch, acid1: string, acid2: string): (r: Option<PairData>)
    requires AllLegs(b.n, b.airports, b.flights).Some?
    ensures r.None? <==> FindFlight(b.flights, acid1).None? || FindFlight(b.flights, acid2).None?
  {
    match FindFlight(b.flights, acid1)
    case None => None
    case Some(f1) =>
      match FindFlight(b.flights, acid2)
      case None => None
      case Some(f2) =>
        FoundFlightLegs(b.n, b.airports, b.flights, acid1);
        FoundFlightLegs(b.n, b.airports, b.flights, acid2);
        Some(PairData(GetLegsForFlight(b.legs, acid1), GetLegsForFlight(b.legs, acid2), PairConflict(b.n, b.airports, f1, f2).value))
  }

  /** With unique ACIDs, the legs `get_conflict_pair_data` shows for two
      flights are exactly the legs their intervals were computed from. */
  lemma PairDataConsistent(b: Batch, k1: nat, k2: nat)
    requires AllLegs(b.n, b.airports, b.flights) == Some(b.legs) && UniqueAcids(b.flights)
    requires k1 < |b.flights| && k2 < |b.flights|
    ensures FlightLegs(b.n, b.airports, b.flights[k1]).Some? && FlightLegs(b.n, b.airports, b.flights[k2]).Some?
    ensures var legs1 := FlightLegs(b.n, b.airports, b.flights[k1]).value;
      var legs2 := FlightLegs(b.n, b.airports, b.flights[k2]).value;
      ConflictPairData(b, b.flights[k1].acid, b.flights[k2].acid) ==
        Some(PairData(Views(legs1), Views(legs2), PairIntervals(b.n, legs1, legs2)))
  {
    FoundAt(b.flights, k1);
    FoundAt(b.flights, k2);
    ShownLegs(b, k1);
    ShownLegs(b, k2);
    var f1, f2 := b.flights[k1], b.flights[k2];
    var legs1 := FlightLegs(b.n, b.airports, f1).value;
    var legs2 := FlightLegs(b.n, b.airports, f2).value;
    assert PairConflict(b.n, b.airports, f1, f2) == Some(PairIntervals(b.n, legs1, legs2));
  }

  /** With unique ACIDs, looking up a flight's ACID finds that flight. */
  lemma FoundAt(flights: seq<Flight>, k: nat)
    requires UniqueAcids(flights) && k < |flights|
    ensures FindFlight(flights, flights[k].acid) == Some(flights[k])
  {
    assert FlightIndex(flights, flights[k].acid) == k;
  }

  /** With unique ACIDs, the legs shown for a flight are the views of the
      legs built from it. */
  lemma ShownLegs(b: Batch, k: nat)
    requires AllLegs(b.n, b.airports, b.flights) == Some(b.legs) && UniqueAcids(b.flights)
    requires k < |b.flights|
    ensures FlightLegs(b.n, b.airports, b.flights[k]).Some?
    ensures GetLegsForFlight(b.legs, b.flights[k].acid) == Views(FlightLegs(b.n, b.airports, b.flights[k]).value)
  {
    LegsConsistent(b.n, b.airports, b.flights, k);
    ViewsOf(b.legs, b.flights[k].acid);
  }

  /** The views of a list of legs, in order. */
  function Views(legs: seq<Leg>): (r: seq<LegView>)
    ensures |r| == |legs| && forall k :: 0 <= k < |legs| ==> r[k] == ToView(legs[k])
  {
    seq(|legs|, k requires 0 <= k < |legs| => ToView(legs[k]))
  }

  lemma ViewsOf(legs: seq<Leg>, acid: string)
    ensures GetLegsForFlight(legs, acid) == Views(LegsWithAcid(legs, acid))
  {
  }

  /** A scan that has failed stays failed to the end of its row. */
  lemma {:induction false} RowStaysFailed(flights: seq<Flight>, calls: Calls, acids: seq<string>, st: Option<Scan>, i: nat, j: nat, j': nat)
    requires i < j <= j' <= |acids|
    requires ScanRowUpTo(flights, calls, acids, st, i, j).None?
    ensures ScanRowUpTo(flights, calls, acids, st, i, j').None?
    decreases j'
  {
    if j' > j {
      RowStaysFailed(flights, calls, acids, st, i, j, j' - 1);
    }
  }

  /** A row started from a failed scan fails. */
  lemma {:induction false} RowOfFailed(flights: seq<Flight>, calls: Calls, acids: seq<string>, i: nat, j: nat)
    requires i < j <= |acids|
    ensures ScanRowUpTo(flights, calls, acids, None, i, j).None?
    decreases j
  {
    if j > i + 1 {
      RowOfFailed(flights, calls, acids, i, j - 1);
    }
  }

  /** A scan that has failed stays failed to the last row. */
  lemma {:induction false} RowsStayFailed(flights: seq<Flight>, calls: Calls, acids: seq<string>, st: Option<Scan>, i: nat, i': nat)
    requires i <= i' <= |acids|
    requires ScanRows(flights, calls, acids, st, i).None?
    ensures ScanRows(flights, calls, acids, st, i').None?
    decreases i'
  {
    if i' > i {
      RowsStayFailed(flights, calls, acids, st, i, i' - 1);
      RowOfFailed(flights, calls, acids, i' - 1, |acids|);
    }
  }

  class FlightEngine {
    const numerics: Numerics
    const flights: seq<Flight>
    const airports: map<string, Coord>
    const legs: seq<Leg>

    /** The legs are those precomputed from the flights. */
    ghost predicate Valid()
    {
      AllLegs(numerics, airports, flights) == Some(legs)
    }

    /** What the specification functions see of the engine. */
    function Held(): Batch
    {
      Batch(numerics, airports, flights, legs)
    }

    /** `__init__` on flights already loaded: the airport table and the
        legs of every flight. Every route must parse; Python raises
        otherwise. */
    constructor (n: Numerics, batch: seq<Flight>)
      requires AllLegs(n, AirportCoords, batch).Some?
      ensures numerics == n && flights == batch && airports == AirportCoords
      ensures Valid()
    {
      numerics := n;
      flights := batch;
      airports := AirportCoords;
      var all := PrecalculateLegs(n, AirportCoords, batch);
      legs := all.value;
    }

    /** One pass of the pair loops' body of `find_conflicts`. */
    method VisitPair(acids: seq<string>, groups: map<string, seq<Leg>>, st: Scan, i: nat, j: nat)
      returns (r: Option<Scan>)
      requires i < |acids| && j < |acids|
      requires forall a :: a in acids ==> a in groups && groups[a] == LegsWithAcid(legs, a)
      ensures r == Visit(flights, EngineCalls(Held()), acids, st, i, j)
    {
      var acid1, acid2 := acids[i], acids[j];
      var key := Key(acid1, acid2);
      if key in st.processed {
        return Some(st);
      }
      var processed := st.processed + {key};
      var f1 := FindFlight(flights, acid1);
      if f1.None? {
        return None;
      }
      var f2 := FindFlight(flights, acid2);
      if f2.None? {
        return None;
      }
      ghost var calls := EngineCalls(Held());
      var intervals := CheckPairConflict(numerics, airports, f1.value, f2.value);
      assert calls.pair(f1.value, f2.value) == intervals;
      if intervals.None? {
        return None;
      }
      if intervals.value == [] {
        return Some(Scan(st.conflicts, processed, st.point));
      }
      var best := ClosestApproach(numerics, groups[acid1], groups[acid2], st.point);
      assert calls.closest(acid1, acid2, st.point) == best;
      if best.point.None? {
        return None;
      }
      var c := Summary(acid1, acid2, f1.value, f2.value, intervals.value, best.minDist, best.point.value);
      r := Some(Scan(st.conflicts + [c], processed, best.point));
    }

    /** The inner loop of `find_conflicts` over row `i`. */
    method VisitRow(acids: seq<string>, groups: map<string, seq<Leg>>, st: Scan, i: nat)
      returns (r: Option<Scan>)
      requires i < |acids|
      requires forall a :: a in acids ==> a in groups && groups[a] == LegsWithAcid(legs, a)
      ensures r == ScanRowUpTo(flights, EngineCalls(Held()), acids, Some(st), i, |acids|)
    {
      ghost var calls := EngineCalls(Held());
      var cur := st;
      for j := i + 1 to |acids|
        invariant ScanRowUpTo(flights, calls, acids, Some(st), i, j) == Some(cur)
      {
        var next := VisitPair(acids, groups, cur, i, j);
        if next.None? {
          RowStaysFailed(flights, calls, acids, Some(st), i, j + 1, |acids|);
          return None;
        }
        cur := next.value;
      }
      r := Some(cur);
    }

    /** The outer loop of `find_conflicts` over the rows. */
    method ScanAllRows(acids: seq<string>, groups: map<string, seq<Leg>>) returns (r: Option<Scan>)
      requires forall a :: a in acids ==> a in groups && groups[a] == LegsWithAcid(legs, a)
      ensures r == ScanRows(flights, EngineCalls(Held()), acids, Some(Scan([], {}, None)), |acids|)
    {
      ghost var calls := EngineCalls(Held());
      var st := Scan([], {}, None);
      ghost var start := Some(st);
      for i := 0 to |acids|
        invariant ScanRows(flights, calls, acids, start, i) == Some(st)
      {
        var next := VisitRow(acids, groups, st, i);
        if next.None? {
          RowsStayFailed(flights, calls, acids, start, i + 1, |acids|);
          return None;
        }
        st := next.value;
      }
      r := Some(st);
    }

    /** `find_conflicts`: groups the legs, then visits every pair `i < j`
        of ACIDs in first-appearance order. */
    method FindAllConflicts() returns (r: Option<seq<Conflict>>)
      ensures r == FindConflicts(Held())
    {
      var acids, groups := GroupLegs(legs);
      var st := ScanAllRows(acids, groups);
      if st.None? {
        return None;
      }
      r := Some(st.value.conflicts);
    }

    /** `get_conflict_pair_data`. */
    method GetConflictPairData(acid1: string, acid2: string) returns (r: Option<PairData>)
      requires Valid()
      ensures r == ConflictPairData(Held(), acid1, acid2)
    {
      var f1 := FindFlight(flights, acid1);
      var f2 := FindFlight(flights, acid2);
      if f1.None? || f2.None? {
        return None;
      }
      var legs1 := GetLegsForFlight(legs, acid1);
      var legs2 := GetLegsForFlight(legs, acid2);
      FoundFlightLegs(numerics, airports, flights, acid1);
      FoundFlightLegs(numerics, airports, flights, acid2);
      var merged := CheckPairConflict(numerics, airports, f1.value, f2.value);
      r := Some(PairData(legs1, legs2, merged.value));
    }
  }
}
