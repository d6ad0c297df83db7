/** `check_pair_conflict`: the loss-of-separation intervals of two flights,
    leg pair by leg pair (filter, quadratic pruning, bisection refinement),
    then sorted and merged. */
module Detection {
  import opened Wrappers
  import opened Numerics
  import opened Routes
  import opened Legs
  import opened Intervals
  import opened Pruning
  import opened Bisection

  /** The refinement of a candidate window: the start search over the whole
      shared time, then the end search from the refined start; an interval
      only when both searches found a time under 5 NM and they are in
      order. */
  function Refine(n: Numerics, l1: Leg, l2: Leg, w: Window): Option<Interval>
    requires Overlap(l1, l2)
  {
    var tStart := OverlapStart(l1, l2);
    var tEnd := OverlapEnd(l1, l2);
    var s := StartSearch(n, l1, l2, Search(tStart, tEnd, w.lo, false), Steps);
    var e := EndSearch(n, l1, l2, Search(s.refined, tEnd, w.hi, false), Steps);
    if s.found && e.found && s.refined < e.refined then Some(Interval(s.refined, e.refined)) else None
  }

  /** The interval one leg pair contributes, if any. */
  function LegPairInterval(n: Numerics, l1: Leg, l2: Leg): (r: Option<Interval>)
    ensures r.Some? ==> Eligible(l1, l2) && LegCandidate(n, l1, l2).Some?
  {
    match LegCandidate(n, l1, l2)
    case None => None
    case Some(w) => Refine(n, l1, l2, w)
  }

  /** A refined interval lies inside the shared time, is non-empty, and
      both its ends are probes that were under 5 NM. */
  lemma RefineFacts(n: Numerics, l1: Leg, l2: Leg, w: Window)
    requires Overlap(l1, l2)
    requires OverlapStart(l1, l2) <= w.lo <= OverlapEnd(l1, l2)
    ensures var r := Refine(n, l1, l2, w);
      r.Some? ==>
        && OverlapStart(l1, l2) <= r.value.start < r.value.finish <= OverlapEnd(l1, l2)
        && SeparationAt(n, l1, l2, r.value.start) < SeparationNm
        && SeparationAt(n, l1, l2, r.value.finish) < SeparationNm
  {
    var tStart := OverlapStart(l1, l2);
    var tEnd := OverlapEnd(l1, l2);
    var s0 := Search(tStart, tEnd, w.lo, false);
    StartSearchFacts(n, l1, l2, s0, Steps);
    var s := StartSearch(n, l1, l2, s0, Steps);
    var e0 := Search(s.refined, tEnd, w.hi, false);
    EndSearchFacts(n, l1, l2, e0, Steps);
  }

  /** An interval of a leg pair comes from an eligible pair, lies inside the
      time the legs share, is non-empty, and both its ends are times at which
      the legs were under 5 NM apart. */
  lemma LegPairIntervalFacts(n: Numerics, l1: Leg, l2: Leg)
    ensures var r := LegPairInterval(n, l1, l2);
      r.Some? ==>
        && Eligible(l1, l2)
        && OverlapStart(l1, l2) <= r.value.start < r.value.finish <= OverlapEnd(l1, l2)
        && SeparationAt(n, l1, l2, r.value.start) < SeparationNm
        && SeparationAt(n, l1, l2, r.value.finish) < SeparationNm
  {
    var c := LegCandidate(n, l1, l2);
    if c.Some? {
      RefineFacts(n, l1, l2, c.value);
    }
  }

  /** The per-pair step as a function value, for the collection below. */
  function PairStep(n: Numerics): (Leg, Leg) -> Option<Interval>
  {
    (l1: Leg, l2: Leg) => LegPairInterval(n, l1, l2)
  }

  /** The intervals `pair` yields for `l1` against each leg of `legs2`, in
      order. */
  function Row(pair: (Leg, Leg) -> Option<Interval>, l1: Leg, legs2: seq<Leg>): seq<Interval>
  {
    if legs2 == [] then []
    else Row(pair, l1, legs2[..|legs2| - 1]) + AsList(pair(l1, legs2[|legs2| - 1]))
  }

  function AsList(r: Option<Interval>): seq<Interval>
  {
    match r
    case None => []
    case Some(x) => [x]
  }

  /** The intervals of every leg pair, in the order the two loops visit
      them, before sorting. */
  function Raw(pair: (Leg, Leg) -> Option<Interval>, legs1: seq<Leg>, legs2: seq<Leg>): seq<Interval>
  {
    if legs1 == [] then []
    else Raw(pair, legs1[..|legs1| - 1], legs2) + Row(pair, legs1[|legs1| - 1], legs2)
  }

  /** Every interval of a row comes from one leg pair of it. */
  lemma {:induction false} RowSource(pair: (Leg, Leg) -> Option<Interval>, l1: Leg, legs2: seq<Leg>, x: Interval)
    requires x in Row(pair, l1, legs2)
    ensures exists j :: 0 <= j < |legs2| && pair(l1, legs2[j]) == Some(x)
  {
    var init := legs2[..|legs2| - 1];
    if x in Row(pair, l1, init) {
      RowSource(pair, l1, init, x);
      var j :| 0 <= j < |init| && pair(l1, init[j]) == Some(x);
      assert init[j] == legs2[j];
    } else {
      assert pair(l1, legs2[|legs2| - 1]) == Some(x);
    }
  }

  /** Every interval of a leg pair of a row is in it. */
  lemma {:induction false} RowIncludes(pair: (Leg, Leg) -> Option<Interval>, l1: Leg, legs2: seq<Leg>, j: nat)
    requires j < |legs2| && pair(l1, legs2[j]).Some?
    ensures pair(l1, legs2[j]).value in Row(pair, l1, legs2)
  {
    var init := legs2[..|legs2| - 1];
    if j < |init| {
      assert init[j] == legs2[j];
      RowIncludes(pair, l1, init, j);
    } else {
      assert AsList(pair(l1, legs2[j])) == [pair(l1, legs2[j]).value];
    }
  }

  /** Every raw interval comes from one leg pair. */
  lemma {:induction false} RawSource(pair: (Leg, Leg) -> Option<Interval>, legs1: seq<Leg>, legs2: seq<Leg>, x: Interval)
    requires x in Raw(pair, legs1, legs2)
    ensures exists i, j :: 0 <= i < |legs1| && 0 <= j < |legs2| && pair(legs1[i], legs2[j]) == Some(x)
  {
    var init := legs1[..|legs1| - 1];
    if x in Raw(pair, init, legs2) {
      RawSource(pair, init, legs2, x);
      var i, j :| 0 <= i < |init| && 0 <= j < |legs2| && pair(init[i], legs2[j]) == Some(x);
      assert init[i] == legs1[i];
    } else {
      RowSource(pair, legs1[|legs1| - 1], legs2, x);
    }
  }

  /** Every interval of a leg pair is among the raw intervals. */
  lemma {:induction false} RawIncludes(pair: (Leg, Leg) -> Option<Interval>, legs1: seq<Leg>, legs2: seq<Leg>, i: nat, j: nat)
    requires i < |legs1| && j < |legs2| && pair(legs1[i], legs2[j]).Some?
    ensures pair(legs1[i], legs2[j]).value in Raw(pair, legs1, legs2)
  {
    var init := legs1[..|legs1| - 1];
    if i < |init| {
      assert init[i] == legs1[i];
      RawIncludes(pair, init, legs2, i, j);
    } else {
      RowIncludes(pair, legs1[i], legs2, j);
    }
  }

  /** There are no raw intervals exactly when no leg pair yields one. */
  lemma RawEmpty(pair: (Leg, Leg) -> Option<Interval>, legs1: seq<Leg>, legs2: seq<Leg>)
    ensures Raw(pair, legs1, legs2) == [] <==>
      forall i, j :: 0 <= i < |legs1| && 0 <= j < |legs2| ==> pair(legs1[i], legs2[j]) == None
  {
    var raw := Raw(pair, legs1, legs2);
    if raw != [] {
      RawSource(pair, legs1, legs2, raw[0]);
    }
    if exists i, j :: 0 <= i < |legs1| && 0 <= j < |legs2| && pair(legs1[i], legs2[j]).Some? {
      var i, j :| 0 <= i < |legs1| && 0 <= j < |legs2| && pair(legs1[i], legs2[j]).Some?;
      RawIncludes(pair, legs1, legs2, i, j);
    }
  }

  /** The raw intervals of two leg lists, each from an eligible leg pair and
      with `start < finish`. */
  lemma RawWellFormed(n: Numerics, legs1: seq<Leg>, legs2: seq<Leg>)
    ensures WellFormed(Raw(PairStep(n), legs1, legs2))
  {
    var raw := Raw(PairStep(n), legs1, legs2);
    forall k | 0 <= k < |raw| ensures raw[k].start < raw[k].finish {
      RawSource(PairStep(n), legs1, legs2, raw[k]);
      var i, j :| 0 <= i < |legs1| && 0 <= j < |legs2| && PairStep(n)(legs1[i], legs2[j]) == Some(raw[k]);
      LegPairIntervalFacts(n, legs1[i], legs2[j]);
    }
  }

  /** The merged conflict intervals of two leg lists. */
  function PairIntervals(n: Numerics, legs1: seq<Leg>, legs2: seq<Leg>): seq<Interval>
  {
    Merge(Sort(Raw(PairStep(n), legs1, legs2)))
  }

  /** Specification of `check_pair_conflict`; `None` when either route does
      not parse. */
  function PairConflict(n: Numerics, airports: map<string, Coord>, f1: Flight, f2: Flight): Option<seq<Interval>>
  {
    match FlightLegs(n, airports, f1)
    case None => None
    case Some(legs1) =>
      match FlightLegs(n, airports, f2)
      case None => None
      case Some(legs2) => Some(PairIntervals(n, legs1, legs2))
  }

  /** The merged intervals are ordered, non-empty and more than a second
      apart; every leg-pair interval lies inside one of them, and each of
      their starts and finishes is a start or finish of a leg-pair interval.
      They are empty exactly when no leg pair yields an interval. */
  lemma PairIntervalsFacts(n: Numerics, legs1: seq<Leg>, legs2: seq<Leg>)
    ensures var raw := Raw(PairStep(n), legs1, legs2); var r := PairIntervals(n, legs1, legs2);
      && (r == [] <==> forall i, j :: 0 <= i < |legs1| && 0 <= j < |legs2| ==> LegPairInterval(n, legs1[i], legs2[j]) == None)
      && |r| <= |raw|
      && WellFormed(r)
      && Separated(r)
      && (forall i, j :: 0 <= i < j < |r| ==> r[i].finish < r[j].start)
      && CoveredBy(raw, r)
      && Starts(r) <= Starts(raw)
      && Finishes(r) <= Finishes(raw)
  {
    RawWellFormed(n, legs1, legs2);
    SortMergeProperties(Raw(PairStep(n), legs1, legs2));
    RawEmpty(PairStep(n), legs1, legs2);
  }

  /** Both ends of every raw interval are times at which its leg pair,
      sharing that time, was under 5 NM apart. */
  lemma RawEndsInConflict(n: Numerics, legs1: seq<Leg>, legs2: seq<Leg>, x: Interval)
    requires x in Raw(PairStep(n), legs1, legs2)
    ensures exists i, j ::
      && 0 <= i < |legs1| && 0 <= j < |legs2|
      && InConflictAt(n, legs1[i], legs2[j], x.start)
      && InConflictAt(n, legs1[i], legs2[j], x.finish)
  {
    RawSource(PairStep(n), legs1, legs2, x);
    var i, j :| 0 <= i < |legs1| && 0 <= j < |legs2| && PairStep(n)(legs1[i], legs2[j]) == Some(x);
    LegPairEnds(n, legs1[i], legs2[j]);
  }

  lemma LegPairEnds(n: Numerics, l1: Leg, l2: Leg)
    ensures var r := LegPairInterval(n, l1, l2);
      r.Some? ==> InConflictAt(n, l1, l2, r.value.start) && InConflictAt(n, l1, l2, r.value.finish)
  {
    LegPairIntervalFacts(n, l1, l2);
  }

  /** Both ends of every merged interval are times at which some leg pair of
      the two flights, sharing that time, was under 5 NM apart. */
  lemma MergedEndsInConflict(n: Numerics, legs1: seq<Leg>, legs2: seq<Leg>, m: Interval)
    requires m in PairIntervals(n, legs1, legs2)
    ensures exists i, j :: 0 <= i < |legs1| && 0 <= j < |legs2| && InConflictAt(n, legs1[i], legs2[j], m.start)
    ensures exists i, j :: 0 <= i < |legs1| && 0 <= j < |legs2| && InConflictAt(n, legs1[i], legs2[j], m.finish)
  {
    var raw := Raw(PairStep(n), legs1, legs2);
    RawWellFormed(n, legs1, legs2);
    MergedEndsFrom(raw, m);
    var x :| x in raw && x.start == m.start;
    RawEndsInConflict(n, legs1, legs2, x);
    var y :| y in raw && y.finish == m.finish;
    RawEndsInConflict(n, legs1, legs2, y);
  }

  /** Two legs are in conflict at `t`: eligible, both flying at `t`, and
      under 5 NM apart. */
  predicate InConflictAt(n: Numerics, l1: Leg, l2: Leg, t: real)
  {
    && Eligible(l1, l2)
    && OverlapStart(l1, l2) <= t <= OverlapEnd(l1, l2)
    && SeparationAt(n, l1, l2, t) < SeparationNm
  }

  /** Flights 2000 ft or more apart never conflict: whenever both routes
      parse, there are no intervals. */
  lemma VerticallySeparated(n: Numerics, airports: map<string, Coord>, f1: Flight, f2: Flight)
    requires Abs(f1.altitude - f2.altitude) >= VerticalFt
    ensures PairConflict(n, airports, f1, f2).Some? ==> PairConflict(n, airports, f1, f2) == Some([])
  {
    var c1 := FlightLegs(n, airports, f1);
    var c2 := FlightLegs(n, airports, f2);
    if c1.Some? && c2.Some? {
      var legs1, legs2 := c1.value, c2.value;
      FlightLegsFields(n, airports, f1);
      FlightLegsFields(n, airports, f2);
      forall i, j | 0 <= i < |legs1| && 0 <= j < |legs2| ensures PairStep(n)(legs1[i], legs2[j]) == None {
        assert legs1[i] in legs1 && legs2[j] in legs2;
        assert !Eligible(legs1[i], legs2[j]);
      }
      RawEmpty(PairStep(n), legs1, legs2);
      assert Raw(PairStep(n), legs1, legs2) == [];
    }
  }

  /** One leg pair of `check_pair_conflict`'s loops: filter, prune, and
      refine by the two searches. */
  method PairInterval(n: Numerics, l1: Leg, l2: Leg) returns (r: Option<Interval>)
    ensures r == LegPairInterval(n, l1, l2)
  {
    var c := LegCandidate(n, l1, l2);
    if c.None? {
      return None;
    }
    var tStart := OverlapStart(l1, l2);
    var tEnd := OverlapEnd(l1, l2);
    var s := SearchStart(n, l1, l2, tStart, tEnd, c.value.lo);
    var e := SearchEnd(n, l1, l2, s.refined, tEnd, c.value.hi);
    if s.found && e.found && s.refined < e.refined {
      r := Some(Interval(s.refined, e.refined));
    } else {
      r := None;
    }
  }

  /** The inner loop of `check_pair_conflict` for one leg of the first
      flight. */
  method RowIntervals(n: Numerics, l1: Leg, legs2: seq<Leg>) returns (found: seq<Interval>)
    ensures found == Row(PairStep(n), l1, legs2)
  {
    found := [];
    for j := 0 to |legs2|
      invariant found == Row(PairStep(n), l1, legs2[..j])
    {
      assert legs2[..j + 1][..j] == legs2[..j];
      var r := PairInterval(n, l1, legs2[j]);
      if r.Some? {
        found := found + [r.value];
      }
    }
    assert legs2[..|legs2|] == legs2;
  }

  /** The two loops of `check_pair_conflict`. */
  method CollectIntervals(n: Numerics, legs1: seq<Leg>, legs2: seq<Leg>) returns (intervals: seq<Interval>)
    ensures intervals == Raw(PairStep(n), legs1, legs2)
  {
    intervals := [];
    for i := 0 to |legs1|
      invariant intervals == Raw(PairStep(n), legs1[..i], legs2)
    {
      var row := RowIntervals(n, legs1[i], legs2);
      assert legs1[..i + 1][..i] == legs1[..i];
      intervals := intervals + row;
    }
    assert legs1[..|legs1|] == legs1;
  }

  /** `check_pair_conflict`. */
  method CheckPairConflict(n: Numerics, airports: map<string, Coord>, f1: Flight, f2: Flight)
    returns (r: Option<seq<Interval>>)
    ensures r == PairConflict(n, airports, f1, f2)
  {
    var legs1 := CalculateLegsForFlight(n, airports, f1);
    if legs1.None? {
      return None;
    }
    var legs2 := CalculateLegsForFlight(n, airports, f2);
    if legs2.None? {
      return None;
    }
    var intervals := CollectIntervals(n, legs1.value, legs2.value);
    var merged := MergeIntervals(Sort(intervals));
    r := Some(merged);
  }
}
