/** Legs: one great-circle segment of a flight flown at constant speed and
    altitude (`Leg.__init__`), and the chaining of a route into legs
    (`_calculate_legs_for_flight`, `_precalculate_legs`, `get_legs_for_flight`). */
module Legs {
  import opened Wrappers
  import opened Numerics
  import opened Routes

  /** A leg's fields are assigned once, by `NewLeg`, and never change. The
      end time is not stored separately: it is always start plus duration. */
  datatype Leg = Leg(
    acid: string,
    start: Coord,
    stop: Coord,
    p0: Vec,        // start as (lon, lat)
    p1: Vec,        // end as (lon, lat)
    t0: real,
    alt: real,
    dist: real,     // nautical miles
    duration: real, // seconds
    v: Vec)         // degrees per second, (lon, lat)
  {
    function t1(): real { t0 + duration }
  }

  /** Seconds needed to fly `dist` nautical miles at `speed` knots; a speed
      that is not positive gives a degenerate leg of no duration. */
  function Duration(dist: real, speed: real): (d: real)
    ensures speed <= 0.0 ==> d == 0.0
  {
    if speed > 0.0 then (dist / speed) * 3600.0 else 0.0
  }

  /** `Leg.__init__`. */
  function NewLeg(n: Numerics, acid: string, startPt: Coord, endPt: Coord,
                  startTime: real, speed: real, alt: real): (l: Leg)
    ensures l.acid == acid && l.start == startPt && l.stop == endPt
    ensures l.t0 == startTime && l.alt == alt
    ensures l.p0 == Vec(startPt.lon, startPt.lat) && l.p1 == Vec(endPt.lon, endPt.lat)
    ensures l.dist == Haversine(n, startPt, endPt)
    ensures l.duration == Duration(l.dist, speed)
    ensures l.duration <= 0.0 ==> l.v == Vec(0.0, 0.0)
  {
    var p0, p1 := Vec(startPt.lon, startPt.lat), Vec(endPt.lon, endPt.lat);
    var dist := Haversine(n, startPt, endPt);
    var duration := Duration(dist, speed);
    var v := if duration > 0.0
             then Vec((p1.x - p0.x) / duration, (p1.y - p0.y) / duration)
             else Vec(0.0, 0.0);
    Leg(acid, startPt, endPt, p0, p1, startTime, alt, dist, duration, v)
  }

  /** What a leg promises: a speed that is not positive gives a leg of no
      duration that ends when it starts and does not move; a positive speed
      covers the distance in exactly the duration; with non-negative
      distances the leg never ends before it starts; and moving at the
      leg's velocity for its whole duration carries the start point exactly
      onto the end point. */
  lemma LegProperties(n: Numerics, acid: string, startPt: Coord, endPt: Coord,
                      startTime: real, speed: real, alt: real)
    ensures var l := NewLeg(n, acid, startPt, endPt, startTime, speed, alt);
      && (speed <= 0.0 ==> l.duration == 0.0 && l.t1() == l.t0 && l.v == Vec(0.0, 0.0))
      && (speed > 0.0 ==> l.duration * speed == l.dist * 3600.0)
      && (Sound(n) ==> 0.0 <= l.duration && l.t0 <= l.t1())
      && (l.duration > 0.0 ==> Add(l.p0, Scale(l.v, l.duration)) == l.p1)
  {
    var l := NewLeg(n, acid, startPt, endPt, startTime, speed, alt);
    if l.duration > 0.0 {
      DivTimes(l.p1.x - l.p0.x, l.duration);
      DivTimes(l.p1.y - l.p0.y, l.duration);
    }
    if speed > 0.0 {
      DivTimes(l.dist, speed);
      if Sound(n) {
        assert l.dist >= 0.0;
        assert l.dist / speed >= 0.0;
      }
    }
  }

  lemma DivTimes(x: real, d: real)
    requires d != 0.0
    ensures (x / d) * d == x
  {
  }

  /** The legs of a route flown from time `t`: one per consecutive point pair,
      each starting when the previous one ends. */
  function LegsFor(n: Numerics, acid: string, points: seq<Coord>, t: real, speed: real, alt: real): seq<Leg>
    decreases |points|
  {
    if |points| < 2 then []
    else
      var leg := NewLeg(n, acid, points[0], points[1], t, speed, alt);
      [leg] + LegsFor(n, acid, points[1..], leg.t1(), speed, alt)
  }

  /** A route of m points yields max(0, m - 1) legs joining consecutive
      points; the first leg starts at `t` and every later leg starts exactly
      when its predecessor ends. */
  lemma {:induction false} LegsForShape(n: Numerics, acid: string, points: seq<Coord>, t: real, speed: real, alt: real)
    ensures var legs := LegsFor(n, acid, points, t, speed, alt);
      && |legs| == (if |points| < 2 then 0 else |points| - 1)
      && (|legs| > 0 ==> legs[0].t0 == t)
      && (forall i :: 0 <= i < |legs| ==>
            legs[i] == NewLeg(n, acid, points[i], points[i + 1], legs[i].t0, speed, alt))
      && (forall i :: 0 <= i < |legs| - 1 ==> legs[i + 1].t0 == legs[i].t1())
    decreases |points|
  {
    if |points| >= 2 {
      var leg := NewLeg(n, acid, points[0], points[1], t, speed, alt);
      var rest := LegsFor(n, acid, points[1..], leg.t1(), speed, alt);
      LegsForShape(n, acid, points[1..], leg.t1(), speed, alt);
      var legs := LegsFor(n, acid, points, t, speed, alt);
      assert legs == [leg] + rest;
      forall i | 0 <= i < |legs|
        ensures legs[i] == NewLeg(n, acid, points[i], points[i + 1], legs[i].t0, speed, alt)
      {
        if i > 0 {
          assert legs[i] == rest[i - 1];
          assert points[1..][i - 1] == points[i] && points[1..][i] == points[i + 1];
        }
      }
    }
  }

  /** With non-negative distances, leg times never run backwards: every leg
      of a route flown from `t` lies at or after `t`. */
  lemma {:induction false} LegsForOrdered(n: Numerics, acid: string, points: seq<Coord>, t: real, speed: real, alt: real)
    requires Sound(n)
    ensures forall l :: l in LegsFor(n, acid, points, t, speed, alt) ==> t <= l.t0 <= l.t1()
    decreases |points|
  {
    if |points| >= 2 {
      var leg := NewLeg(n, acid, points[0], points[1], t, speed, alt);
      LegsForOrdered(n, acid, points[1..], leg.t1(), speed, alt);
    }
  }

  /** Specification of `_calculate_legs_for_flight`; `None` when the route
      does not parse. */
  function FlightLegs(n: Numerics, airports: map<string, Coord>, f: Flight): Option<seq<Leg>>
  {
    match Route(airports, f)
    case None => None
    case Some(points) => Some(LegsFor(n, f.acid, points, f.departureTime, f.speed, f.altitude))
  }

  /** `_calculate_legs_for_flight`: builds the route, then walks it. */
  method CalculateLegsForFlight(n: Numerics, airports: map<string, Coord>, f: Flight) returns (r: Option<seq<Leg>>)
    ensures r == FlightLegs(n, airports, f)
  {
    var route := FullRoute(airports, f);
    if route.None? {
      return None;
    }
    var legs := LegsAlong(n, f.acid, route.value, f.departureTime, f.speed, f.altitude);
    r := Some(legs);
  }

  /** The loop of `_calculate_legs_for_flight`: one leg per point pair,
      advancing the clock by each leg's duration. */
  method LegsAlong(n: Numerics, acid: string, points: seq<Coord>, departureTime: real, speed: real, alt: real)
    returns (legs: seq<Leg>)
    ensures legs == LegsFor(n, acid, points, departureTime, speed, alt)
  {
    var currentTime := departureTime;
    legs := [];
    assert points[0..] == points;
    var i := 0;
    while i + 1 < |points|
      invariant 0 <= i <= |points|
      invariant i > 0 ==> i < |points|
      invariant legs + LegsFor(n, acid, points[i..], currentTime, speed, alt)
             == LegsFor(n, acid, points, departureTime, speed, alt)
    {
      var leg := NewLeg(n, acid, points[i], points[i + 1], currentTime, speed, alt);
      LegsForStep(n, acid, points, i, currentTime, speed, alt);
      legs := legs + [leg];
      currentTime := currentTime + leg.duration;
      i := i + 1;
    }
    assert LegsFor(n, acid, points[i..], currentTime, speed, alt) == [];
  }

  lemma LegsForStep(n: Numerics, acid: string, points: seq<Coord>, i: nat, t: real, speed: real, alt: real)
    requires i + 1 < |points|
    ensures var leg := NewLeg(n, acid, points[i], points[i + 1], t, speed, alt);
      LegsFor(n, acid, points[i..], t, speed, alt) == [leg] + LegsFor(n, acid, points[i + 1..], leg.t1(), speed, alt)
  {
    assert points[i..][1..] == points[i + 1..];
  }

  /** Specification of `_precalculate_legs`: every flight's legs, flight by
      flight; `None` as soon as one flight's route does not parse. */
  function AllLegs(n: Numerics, airports: map<string, Coord>, flights: seq<Flight>): Option<seq<Leg>>
  {
    if flights == [] then Some([])
    else
      match AllLegs(n, airports, flights[..|flights| - 1])
      case None => None
      case Some(legs) =>
        match FlightLegs(n, airports, flights[|flights| - 1])
        case None => None
        case Some(more) => Some(legs + more)
  }

  /** `_precalculate_legs`. */
  method PrecalculateLegs(n: Numerics, airports: map<string, Coord>, flights: seq<Flight>) returns (r: Option<seq<Leg>>)
    ensures r == AllLegs(n, airports, flights)
  {
    var all: seq<Leg> := [];
    var i := 0;
    while i < |flights|
      invariant 0 <= i <= |flights|
      invariant AllLegs(n, airports, flights[..i]) == Some(all)
    {
      var legs := CalculateLegsForFlight(n, airports, flights[i]);
      AllLegsSnoc(n, airports, flights, i);
      if legs.None? {
        AllLegsFails(n, airports, flights, i);
        return None;
      }
      all := all + legs.value;
      i := i + 1;
    }
    assert flights[..i] == flights;
    r := Some(all);
  }

  lemma AllLegsSnoc(n: Numerics, airports: map<string, Coord>, flights: seq<Flight>, i: nat)
    requires i < |flights|
    ensures AllLegs(n, airports, flights[..i + 1]) ==
      match AllLegs(n, airports, flights[..i])
      case None => None
      case Some(legs) =>
        match FlightLegs(n, airports, flights[i])
        case None => None
        case Some(more) => Some(legs + more)
  {
    assert flights[..i + 1][..i] == flights[..i];
  }

  lemma {:induction false} AllLegsFails(n: Numerics, airports: map<string, Coord>, flights: seq<Flight>, i: nat)
    requires i < |flights| && FlightLegs(n, airports, flights[i]).None?
    ensures AllLegs(n, airports, flights).None?
    decreases |flights|
  {
    if i < |flights| - 1 {
      var init := flights[..|flights| - 1];
      assert init[i] == flights[i];
      AllLegsFails(n, airports, init, i);
    }
  }

  /** The legs of one flight, in order (the filter of `get_legs_for_flight`). */
  function LegsWithAcid(legs: seq<Leg>, acid: string): (r: seq<Leg>)
    ensures |r| <= |legs|
    ensures forall l :: l in r <==> l in legs && l.acid == acid
  {
    if legs == [] then []
    else LegsWithAcid(legs[..|legs| - 1], acid) + (if legs[|legs| - 1].acid == acid then [legs[|legs| - 1]] else [])
  }

  lemma {:induction false} LegsWithAcidAppend(a: seq<Leg>, b: seq<Leg>, acid: string)
    ensures LegsWithAcid(a + b, acid) == LegsWithAcid(a, acid) + LegsWithAcid(b, acid)
    decreases |b|
  {
    if b != [] {
      var b' := b[..|b| - 1];
      assert (a + b)[..|a + b| - 1] == a + b';
      LegsWithAcidAppend(a, b', acid);
    } else {
      assert a + b == a;
    }
  }

  lemma LegsWithAcidSnoc(init: seq<Leg>, last: Leg, acid: string)
    requires last.acid == acid
    ensures LegsWithAcid(init + [last], acid) == LegsWithAcid(init, acid) + [last]
  {
    assert (init + [last])[..|init|] == init;
  }

  lemma {:induction false} LegsWithAcidAll(legs: seq<Leg>, acid: string)
    requires forall l :: l in legs ==> l.acid == acid
    ensures LegsWithAcid(legs, acid) == legs
    decreases |legs|
  {
    if legs != [] {
      var init, last := legs[..|legs| - 1], legs[|legs| - 1];
      assert legs == init + [last];
      assert forall l :: l in init ==> l in legs;
      LegsWithAcidAll(init, acid);
      assert last in legs;
      LegsWithAcidSnoc(init, last, acid);
    }
  }

  lemma {:induction false} LegsWithAcidNone(legs: seq<Leg>, acid: string)
    requires forall l :: l in legs ==> l.acid != acid
    ensures LegsWithAcid(legs, acid) == []
    decreases |legs|
  {
    if legs != [] {
      var init := legs[..|legs| - 1];
      assert forall l :: l in init ==> l in legs;
      LegsWithAcidNone(init, acid);
      assert legs[|legs| - 1] in legs;
    }
  }

  /** Every leg of a flight carries the flight's identifier and altitude. */
  lemma FlightLegsFields(n: Numerics, airports: map<string, Coord>, f: Flight)
    requires FlightLegs(n, airports, f).Some?
    ensures forall l :: l in FlightLegs(n, airports, f).value ==> l.acid == f.acid && l.alt == f.altitude
  {
    var points := Route(airports, f).value;
    var legs := LegsFor(n, f.acid, points, f.departureTime, f.speed, f.altitude);
    LegsForShape(n, f.acid, points, f.departureTime, f.speed, f.altitude);
    forall l | l in legs ensures l.acid == f.acid && l.alt == f.altitude {
      var i :| 0 <= i < |legs| && legs[i] == l;
      assert legs[i] == NewLeg(n, f.acid, points[i], points[i + 1], legs[i].t0, f.speed, f.altitude);
    }
  }

  predicate UniqueAcids(flights: seq<Flight>)
  {
    forall i, j :: 0 <= i < j < |flights| ==> flights[i].acid != flights[j].acid
  }

  /** The two ways the engine obtains a flight's legs agree: filtering the
      precomputed legs by ACID gives exactly the legs rebuilt from that
      flight alone, provided ACIDs are unique. */
  lemma {:induction false} LegsConsistent(n: Numerics, airports: map<string, Coord>, flights: seq<Flight>, k: nat)
    requires UniqueAcids(flights) && k < |flights|
    requires AllLegs(n, airports, flights).Some?
    ensures FlightLegs(n, airports, flights[k]).Some?
    ensures LegsWithAcid(AllLegs(n, airports, flights).value, flights[k].acid)
         == FlightLegs(n, airports, flights[k]).value
    decreases |flights|
  {
    var init, last := flights[..|flights| - 1], flights[|flights| - 1];
    var acid := flights[k].acid;
    var before := AllLegs(n, airports, init).value;
    var more := FlightLegs(n, airports, last).value;
    assert AllLegs(n, airports, flights).value == before + more;
    LegsWithAcidAppend(before, more, acid);
    if k == |flights| - 1 {
      OwnLegs(n, airports, last);
      forall i | 0 <= i < |init| ensures init[i].acid != acid {
        assert init[i] == flights[i];
      }
      OthersLegs(n, airports, init, acid);
    } else {
      assert init[k] == flights[k];
      LegsConsistent(n, airports, init, k);
      OtherFlightLegs(n, airports, last, acid);
    }
  }

  /** Filtering a flight's legs by its own ACID keeps them all. */
  lemma OwnLegs(n: Numerics, airports: map<string, Coord>, f: Flight)
    requires FlightLegs(n, airports, f).Some?
    ensures LegsWithAcid(FlightLegs(n, airports, f).value, f.acid) == FlightLegs(n, airports, f).value
  {
    var legs := FlightLegs(n, airports, f).value;
    FlightLegsFields(n, airports, f);
    assert forall i :: 0 <= i < |legs| ==> legs[i] in legs;
    LegsWithAcidAll(legs, f.acid);
  }

  /** Filtering a flight's legs by another ACID keeps none. */
  lemma OtherFlightLegs(n: Numerics, airports: map<string, Coord>, f: Flight, acid: string)
    requires FlightLegs(n, airports, f).Some? && f.acid != acid
    ensures LegsWithAcid(FlightLegs(n, airports, f).value, acid) == []
  {
    FlightLegsFields(n, airports, f);
    LegsWithAcidNone(FlightLegs(n, airports, f).value, acid);
  }

  /** Filtering the legs of flights none of which has the ACID keeps none. */
  lemma OthersLegs(n: Numerics, airports: map<string, Coord>, flights: seq<Flight>, acid: string)
    requires AllLegs(n, airports, flights).Some?
    requires forall i :: 0 <= i < |flights| ==> flights[i].acid != acid
    ensures LegsWithAcid(AllLegs(n, airports, flights).value, acid) == []
  {
    var legs := AllLegs(n, airports, flights).value;
    forall l | l in legs ensures l.acid != acid {
      AcidsOfAllLegs(n, airports, flights, l);
    }
    LegsWithAcidNone(legs, acid);
  }

  lemma {:induction false} AcidsOfAllLegs(n: Numerics, airports: map<string, Coord>, flights: seq<Flight>, l: Leg)
    requires AllLegs(n, airports, flights).Some? && l in AllLegs(n, airports, flights).value
    ensures exists i :: 0 <= i < |flights| && flights[i].acid == l.acid
    decreases |flights|
  {
    var init, last := flights[..|flights| - 1], flights[|flights| - 1];
    FlightLegsFields(n, airports, last);
    if l in AllLegs(n, airports, init).value {
      AcidsOfAllLegs(n, airports, init, l);
      var i :| 0 <= i < |init| && init[i].acid == l.acid;
      assert flights[i] == init[i];
    } else {
      assert flights[|flights| - 1].acid == l.acid;
    }
  }

  /** `Leg.to_dict`: the fields shown to clients, points as (lon, lat). */
  datatype LegView = LegView(start: Vec, stop: Vec, t0: real, t1: real, alt: real, dist: real)

  function ToView(l: Leg): (d: LegView)
    ensures d.start == Vec(l.start.lon, l.start.lat) && d.stop == Vec(l.stop.lon, l.stop.lat)
  {
    LegView(Vec(l.start.lon, l.start.lat), Vec(l.stop.lon, l.stop.lat), l.t0, l.t1(), l.alt, l.dist)
  }

  /** `get_legs_for_flight`: the views of the legs carrying `acid`, in order. */
  function GetLegsForFlight(legs: seq<Leg>, acid: string): (r: seq<LegView>)
    ensures |r| == |LegsWithAcid(legs, acid)|
    ensures forall i :: 0 <= i < |r| ==> r[i] == ToView(LegsWithAcid(legs, acid)[i])
  {
    var mine := LegsWithAcid(legs, acid);
    seq(|mine|, i requires 0 <= i < |mine| => ToView(mine[i]))
  }

  /** The legs shown for an ACID are exactly the views of the legs
      carrying it. */
  lemma ShownLegsOfAcid(legs: seq<Leg>, acid: string)
    ensures forall v :: v in GetLegsForFlight(legs, acid) <==> exists l :: l in legs && l.acid == acid && ToView(l) == v
  {
    var mine := LegsWithAcid(legs, acid);
    var r := GetLegsForFlight(legs, acid);
    forall v | v in r ensures exists l :: l in legs && l.acid == acid && ToView(l) == v {
      var i :| 0 <= i < |r| && r[i] == v;
      assert mine[i] in mine;
    }
    forall l | l in legs && l.acid == acid ensures ToView(l) in r {
      var i :| 0 <= i < |mine| && mine[i] == l;
      assert r[i] == ToView(l);
    }
  }
}
