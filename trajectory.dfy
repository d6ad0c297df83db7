/** `calculate_trajectory`: a flight's route sampled every `interval_sec`
    seconds along each great-circle segment, plus its arrival point. */
module Trajectory {
  import opened Wrappers
  import opened Numerics
  import opened Routes

  /** One sample: time in seconds, position, altitude and ACID. */
  datatype TrackPoint = TrackPoint(time: real, pos: Coord, alt: real, acid: string)

  /** `dist / speed * 3600`: seconds to fly a segment. */
  function SegmentDuration(n: Numerics, p1: Coord, p2: Coord, speed: real): real
    requires speed != 0.0
  {
    (Haversine(n, p1, p2) / speed) * 3600.0
  }

  /** The passes of `while t < duration: ...; t += dt` from offset `t`:
      one sample at every offset `t, t + dt, ...` below the duration, at the
      matching fraction of the way along the segment. */
  function SegmentFrom(n: Numerics, p1: Coord, p2: Coord, t0: real, duration: real, dt: nat, t: nat,
                       alt: real, acid: string): (r: seq<TrackPoint>)
    requires dt > 0
    ensures forall m :: 0 <= m < |r| ==> t0 + t as real <= r[m].time < t0 + duration
    decreases if (t as real) < duration then duration.Floor - t + 1 else 0
  {
    if (t as real) < duration then
      [TrackPoint(t0 + t as real, Interpolate(n, p1, p2, (t as real) / duration), alt, acid)]
        + SegmentFrom(n, p1, p2, t0, duration, dt, t + dt, alt, acid)
    else []
  }

  /** The samples of one segment, from offset 0. */
  function SegmentPoints(n: Numerics, p1: Coord, p2: Coord, t0: real, duration: real, dt: nat,
                         alt: real, acid: string): (r: seq<TrackPoint>)
    requires dt > 0
    ensures forall m :: 0 <= m < |r| ==> t0 <= r[m].time < t0 + duration
  {
    SegmentFrom(n, p1, p2, t0, duration, dt, 0, alt, acid)
  }

  /** The samples of a segment are in strictly increasing time. */
  lemma {:induction false} SegmentIncreasing(n: Numerics, p1: Coord, p2: Coord, t0: real, duration: real,
                                             dt: nat, t: nat, alt: real, acid: string)
    requires dt > 0
    ensures Increasing(SegmentFrom(n, p1, p2, t0, duration, dt, t, alt, acid))
    decreases if (t as real) < duration then duration.Floor - t + 1 else 0
  {
    if (t as real) < duration {
      var r := SegmentFrom(n, p1, p2, t0, duration, dt, t, alt, acid);
      var rest := SegmentFrom(n, p1, p2, t0, duration, dt, t + dt, alt, acid);
      SegmentIncreasing(n, p1, p2, t0, duration, dt, t + dt, alt, acid);
      forall i, j | 0 <= i < j < |r|
        ensures r[i].time < r[j].time
      {
        assert r[j] == rest[j - 1];
        if i > 0 {
          assert r[i] == rest[i - 1];
        }
      }
    }
  }

  /** The samples of the segments of `pts` from point `i` on, the first
      starting at `t0`. */
  function Track(n: Numerics, pts: seq<Coord>, i: nat, t0: real, speed: real, dt: nat, alt: real, acid: string)
    : seq<TrackPoint>
    requires (|pts| >= 2 ==> speed != 0.0) && dt > 0
    decreases |pts| - i
  {
    if i + 1 >= |pts| then []
    else
      var d := SegmentDuration(n, pts[i], pts[i + 1], speed);
      SegmentPoints(n, pts[i], pts[i + 1], t0, d, dt, alt, acid) + Track(n, pts, i + 1, t0 + d, speed, dt, alt, acid)
  }

  /** The time after the last segment, the segment from point `i` starting
      at `t0`. */
  function EndTime(n: Numerics, pts: seq<Coord>, i: nat, t0: real, speed: real): real
    requires |pts| >= 2 ==> speed != 0.0
    decreases |pts| - i
  {
    if i + 1 >= |pts| then t0
    else EndTime(n, pts, i + 1, t0 + SegmentDuration(n, pts[i], pts[i + 1], speed), speed)
  }

  /** Specification of `calculate_trajectory` on a parsed route: the
      segment samples, then the last route point at the end time. The
      speed divides only when there is a segment. */
  function Sampled(n: Numerics, pts: seq<Coord>, t0: real, speed: real, dt: nat, alt: real, acid: string)
    : (r: seq<TrackPoint>)
    requires pts != [] && (|pts| >= 2 ==> speed != 0.0) && dt > 0
    ensures r != [] && r[|r| - 1] == TrackPoint(EndTime(n, pts, 0, t0, speed), pts[|pts| - 1], alt, acid)
  {
    Track(n, pts, 0, t0, speed, dt, alt, acid) + [TrackPoint(EndTime(n, pts, 0, t0, speed), pts[|pts| - 1], alt, acid)]
  }

  /** `calculate_trajectory` of a flight: `None` when its route does not
      parse (Python raises). */
  function FlightTrajectory(n: Numerics, airports: map<string, Coord>, f: Flight, dt: nat)
    : Option<seq<TrackPoint>>
    requires dt > 0
    requires Route(airports, f).Some? ==>
      Route(airports, f).value != [] && (|Route(airports, f).value| >= 2 ==> f.speed != 0.0)
  {
    match Route(airports, f)
    case None => None
    case Some(pts) => Some(Sampled(n, pts, f.departureTime, f.speed, dt, f.altitude, f.acid))
  }

  /** A route of one point has no segment, so any speed, zero included,
      gives the single sample of that point at the departure time. */
  lemma OnePointRoute(n: Numerics, airports: map<string, Coord>, f: Flight, dt: nat)
    requires dt > 0 && Route(airports, f).Some? && |Route(airports, f).value| == 1
    ensures FlightTrajectory(n, airports, f, dt)
      == Some([TrackPoint(f.departureTime, Route(airports, f).value[0], f.altitude, f.acid)])
  {
    var pts := Route(airports, f).value;
    assert Track(n, pts, 0, f.departureTime, f.speed, dt, f.altitude, f.acid) == [];
    assert EndTime(n, pts, 0, f.departureTime, f.speed) == f.departureTime;
    var r := Sampled(n, pts, f.departureTime, f.speed, dt, f.altitude, f.acid);
    assert r == [TrackPoint(f.departureTime, pts[0], f.altitude, f.acid)];
    assert FlightTrajectory(n, airports, f, dt) == Some(r);
  }

  predicate Increasing(r: seq<TrackPoint>)
  {
    forall i, j :: 0 <= i < j < |r| ==> r[i].time < r[j].time
  }

  /** With non-negative distances and a positive speed (when there is a
      segment), the samples of the segments from point `i` on are in
      strictly increasing time, from `t0` and before the end time. */
  lemma {:induction false} TrackIncreasing(n: Numerics, pts: seq<Coord>, i: nat, t0: real, speed: real, dt: nat,
                                           alt: real, acid: string)
    requires Sound(n) && (|pts| >= 2 ==> speed > 0.0) && dt > 0
    ensures var r := Track(n, pts, i, t0, speed, dt, alt, acid);
      && Increasing(r)
      && (forall k :: 0 <= k < |r| ==> t0 <= r[k].time < EndTime(n, pts, i, t0, speed))
      && t0 <= EndTime(n, pts, i, t0, speed)
    decreases |pts| - i
  {
    if i + 1 < |pts| {
      assert speed > 0.0;
      var d := SegmentDuration(n, pts[i], pts[i + 1], speed);
      assert d >= 0.0 by {
        assert Haversine(n, pts[i], pts[i + 1]) >= 0.0;
      }
      var seg := SegmentPoints(n, pts[i], pts[i + 1], t0, d, dt, alt, acid);
      var rest := Track(n, pts, i + 1, t0 + d, speed, dt, alt, acid);
      TrackIncreasing(n, pts, i + 1, t0 + d, speed, dt, alt, acid);
      assert Track(n, pts, i, t0, speed, dt, alt, acid) == seg + rest;
      assert EndTime(n, pts, i, t0, speed) == EndTime(n, pts, i + 1, t0 + d, speed);
      SegmentIncreasing(n, pts[i], pts[i + 1], t0, d, dt, 0, alt, acid);
      ConcatIncreasing(seg, rest, t0, t0 + d, EndTime(n, pts, i + 1, t0 + d, speed));
    }
  }

  /** Two runs of samples, each increasing, the first wholly before the
      second, make one increasing run. */
  lemma ConcatIncreasing(a: seq<TrackPoint>, b: seq<TrackPoint>, lo: real, mid: real, hi: real)
    requires Increasing(a) && Increasing(b) && lo <= mid <= hi
    requires forall k :: 0 <= k < |a| ==> lo <= a[k].time < mid
    requires forall k :: 0 <= k < |b| ==> mid <= b[k].time < hi
    ensures Increasing(a + b)
    ensures forall k :: 0 <= k < |a + b| ==> lo <= (a + b)[k].time < hi
  {
    var r := a + b;
    forall x, y | 0 <= x < y < |r|
      ensures r[x].time < r[y].time
    {
      if y < |a| {
      } else if x >= |a| {
        assert r[x] == b[x - |a|] && r[y] == b[y - |a|];
      } else {
        assert r[y] == b[y - |a|];
      }
    }
    forall k | 0 <= k < |r|
      ensures lo <= r[k].time < hi
    {
      if k >= |a| {
        assert r[k] == b[k - |a|];
      }
    }
  }

  /** The whole trajectory is in strictly increasing time and ends with
      the last route point at the departure time plus the flying time. */
  lemma SampledIncreasing(n: Numerics, pts: seq<Coord>, t0: real, speed: real, dt: nat, alt: real, acid: string)
    requires Sound(n) && pts != [] && (|pts| >= 2 ==> speed > 0.0) && dt > 0
    ensures Increasing(Sampled(n, pts, t0, speed, dt, alt, acid))
  {
    TrackIncreasing(n, pts, 0, t0, speed, dt, alt, acid);
    var track := Track(n, pts, 0, t0, speed, dt, alt, acid);
    var r := Sampled(n, pts, t0, speed, dt, alt, acid);
    forall i, j | 0 <= i < j < |r|
      ensures r[i].time < r[j].time
    {
      if j < |track| {
        assert r[i] == track[i] && r[j] == track[j];
      } else {
        assert r[i] == track[i];
      }
    }
  }

  /** A flight's trajectory exists exactly when its route parses; its
      times then strictly increase from the departure time, and it ends at
      the arrival airport, when that code is known, at the departure time
      plus the flying time. */
  lemma TrajectoryShape(n: Numerics, airports: map<string, Coord>, f: Flight, dt: nat)
    requires Sound(n) && dt > 0
    requires Route(airports, f).Some? ==>
      Route(airports, f).value != [] && (|Route(airports, f).value| >= 2 ==> f.speed > 0.0)
    ensures FlightTrajectory(n, airports, f, dt).Some? <==> Route(airports, f).Some?
    ensures FlightTrajectory(n, airports, f, dt).Some? ==>
      var r, pts := FlightTrajectory(n, airports, f, dt).value, Route(airports, f).value;
      && Increasing(r)
      && (forall k :: 0 <= k < |r| ==> f.departureTime <= r[k].time)
      && r[|r| - 1].time == EndTime(n, pts, 0, f.departureTime, f.speed)
      && (f.arrival in airports ==> r[|r| - 1].pos == airports[f.arrival])
  {
    if Route(airports, f).Some? {
      var pts := Route(airports, f).value;
      var r := FlightTrajectory(n, airports, f, dt).value;
      var track := Track(n, pts, 0, f.departureTime, f.speed, dt, f.altitude, f.acid);
      SampledIncreasing(n, pts, f.departureTime, f.speed, dt, f.altitude, f.acid);
      TrackIncreasing(n, pts, 0, f.departureTime, f.speed, dt, f.altitude, f.acid);
      RouteShape(airports, f);
      forall k | 0 <= k < |r|
        ensures f.departureTime <= r[k].time
      {
        if k < |track| {
          assert r[k] == track[k];
        }
      }
    }
  }

  /** A segment of positive duration starts with its start point at its
      start time. */
  lemma SegmentStartsAtStart(n: Numerics, p1: Coord, p2: Coord, t0: real, duration: real, dt: nat,
                             alt: real, acid: string)
    requires dt > 0 && duration > 0.0
    ensures var r := SegmentPoints(n, p1, p2, t0, duration, dt, alt, acid);
      r != [] && r[0] == TrackPoint(t0, p1, alt, acid)
  {
  }

  /** The sampling loop over one segment. */
  method SampleSegment(n: Numerics, p1: Coord, p2: Coord, currentTime: real, duration: real, dt: nat,
                       alt: real, acid: string) returns (r: seq<TrackPoint>)
    requires dt > 0
    ensures r == SegmentPoints(n, p1, p2, currentTime, duration, dt, alt, acid)
  {
    r := [];
    var t: nat := 0;
    while (t as real) < duration
      invariant r + SegmentFrom(n, p1, p2, currentTime, duration, dt, t, alt, acid)
             == SegmentPoints(n, p1, p2, currentTime, duration, dt, alt, acid)
      decreases if (t as real) < duration then duration.Floor - t + 1 else 0
    {
      var frac := (t as real) / duration;
      var pos := Interpolate(n, p1, p2, frac);
      r := r + [TrackPoint(currentTime + t as real, pos, alt, acid)];
      t := t + dt;
    }
  }

  /** The loop of `calculate_trajectory` over the route's segments: the
      samples of each in turn, and the time after the last. */
  method SampleSegments(n: Numerics, points: seq<Coord>, startTime: real, speed: real, dt: nat,
                        alt: real, acid: string) returns (trajectory: seq<TrackPoint>, currentTime: real)
    requires points != [] && (|points| >= 2 ==> speed != 0.0) && dt > 0
    ensures trajectory == Track(n, points, 0, startTime, speed, dt, alt, acid)
    ensures currentTime == EndTime(n, points, 0, startTime, speed)
  {
    trajectory := [];
    currentTime := startTime;
    ghost var track := Track(n, points, 0, startTime, speed, dt, alt, acid);
    ghost var endTime := EndTime(n, points, 0, startTime, speed);
    for i := 0 to |points| - 1
      invariant trajectory + Track(n, points, i, currentTime, speed, dt, alt, acid) == track
      invariant EndTime(n, points, i, currentTime, speed) == endTime
    {
      var p1, p2 := points[i], points[i + 1];
      var duration := (Haversine(n, p1, p2) / speed) * 3600.0;
      var segment := SampleSegment(n, p1, p2, currentTime, duration, dt, alt, acid);
      ghost var rest := Track(n, points, i + 1, currentTime + duration, speed, dt, alt, acid);
      assert Track(n, points, i, currentTime, speed, dt, alt, acid) == segment + rest;
      assert (trajectory + segment) + rest == trajectory + (segment + rest);
      trajectory := trajectory + segment;
      currentTime := currentTime + duration;
    }
  }

  /** `calculate_trajectory`. A speed of zero on a route with a segment
      (division by zero) and an empty route (`points[-1]`) are crashes of
      the source: excluded. */
  method CalculateTrajectory(n: Numerics, airports: map<string, Coord>, f: Flight, dt: nat)
    returns (r: Option<seq<TrackPoint>>)
    requires dt > 0
    requires Route(airports, f).Some? ==>
      Route(airports, f).value != [] && (|Route(airports, f).value| >= 2 ==> f.speed != 0.0)
    ensures r == FlightTrajectory(n, airports, f, dt)
  {
    var route := FullRoute(airports, f);
    if route.None? {
      return None;
    }
    var points := route.value;
    var trajectory, currentTime := SampleSegments(n, points, f.departureTime, f.speed, dt, f.altitude, f.acid);
    trajectory := trajectory + [TrackPoint(currentTime, points[|points| - 1], f.altitude, f.acid)];
    r := Some(trajectory);
  }
}
