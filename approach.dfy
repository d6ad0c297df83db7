/** The closest-approach scan of `find_conflicts`: for every leg pair of two
    flights that shares time, one probe at the time the straight tracks come
    nearest, and the least great-circle distance found with the midpoint of
    the two positions there. */
module Approach {
  import opened Wrappers
  import opened Numerics
  import opened Legs
  import opened Quadratics
  import opened Pruning
  import opened Bisection

  /** The starting value of `min_dist`, nautical miles. */
  const NoApproach: real := 9999.0

  /** The offset from the start of the shared time, clipped to it, at which
      the linearised relative motion is closest; `0` when there is (next to)
      no relative motion. */
  function ClosestOffset(m: Motion, span: real): (x: real)
    requires span > 0.0
    ensures 0.0 <= x <= span
  {
    var a := Dot(m.w, m.w);
    if a > TinyA then Min(Max(-Dot(m.p, m.w) / a, 0.0), span) else 0.0
  }

  /** The clipped offset is where the squared linear separation is least
      over the whole shared time. */
  lemma ClosestOffsetLeast(m: Motion, span: real, x: real)
    requires span > 0.0 && Dot(m.w, m.w) > TinyA
    requires 0.0 <= x <= span
    ensures Eval(Coefficients(m), ClosestOffset(m, span)) <= Eval(Coefficients(m), x)
  {
    var q := Coefficients(m);
    var a := Dot(m.w, m.w);
    var d := Dot(m.p, m.w);
    var v := -d / a;
    assert q.a == a && q.b == 2.0 * d;
    assert v * a == -d;
    assert -q.b / (2.0 * q.a) == v by {
      assert (2.0 * q.a) * v == -q.b;
    }
    var y := ClosestOffset(m, span);
    if v < 0.0 {
      assert y == 0.0;
      TowardsVertex(q, y, x);
    } else if v > span {
      assert y == span;
      TowardsVertex(q, y, x);
    } else {
      assert y == v;
      TowardsVertex(q, y, x);
    }
  }

  /** The probe time of a leg pair that shares time. */
  function ProbeTime(n: Numerics, l1: Leg, l2: Leg): (t: real)
    requires Overlap(l1, l2)
    ensures OverlapStart(l1, l2) <= t <= OverlapEnd(l1, l2)
  {
    var tStart := OverlapStart(l1, l2);
    tStart + ClosestOffset(RelativeMotion(n, l1, l2, tStart), OverlapEnd(l1, l2) - tStart)
  }

  /** Of all times the pair shares, the probe time is one at which the
      straight tracks are nearest (in the local nautical-mile frame). */
  lemma ProbeTimeNearest(n: Numerics, l1: Leg, l2: Leg, t: real)
    requires Overlap(l1, l2)
    requires Coefficients(RelativeMotion(n, l1, l2, OverlapStart(l1, l2))).a > TinyA
    requires OverlapStart(l1, l2) <= t <= OverlapEnd(l1, l2)
    ensures var o := Offset(n, l1, l2, ProbeTime(n, l1, l2)); var o' := Offset(n, l1, l2, t);
      Dot(o, o) <= Dot(o', o')
  {
    var tStart := OverlapStart(l1, l2);
    var m := RelativeMotion(n, l1, l2, tStart);
    var span := OverlapEnd(l1, l2) - tStart;
    var tp := ProbeTime(n, l1, l2);
    ClosestOffsetLeast(m, span, t - tStart);
    RelativeMotionTracks(n, l1, l2, tStart, t);
    RelativeMotionTracks(n, l1, l2, tStart, tp);
    CoefficientsMeaning(m, t - tStart);
    CoefficientsMeaning(m, tp - tStart);
  }

  function Midpoint(p: Coord, q: Coord): Coord
  {
    Coord((p.lat + q.lat) / 2.0, (p.lon + q.lon) / 2.0)
  }

  /** The least distance so far and the point recorded with it. The point
      is not reset between flight pairs, so it may be one left over from an
      earlier pair. */
  datatype Best = Best(minDist: real, point: Option<Coord>)

  /** One probe: the distance found and the midpoint of the two positions. */
  datatype Sample = Sample(dist: real, point: Coord)

  /** The probe of one leg pair; none for legs that share no time. */
  function Probe(n: Numerics, l1: Leg, l2: Leg): (r: Option<Sample>)
    ensures r.Some? <==> Overlap(l1, l2)
  {
    if !Overlap(l1, l2) then None
    else
      var t := ProbeTime(n, l1, l2);
      var p1 := PositionAt(n, l1, t);
      var p2 := PositionAt(n, l2, t);
      Some(Sample(Haversine(n, p1, p2), Midpoint(p1, p2)))
  }

  /** The probe as a function value, for the scan below. */
  function ProbeFn(n: Numerics): (Leg, Leg) -> Option<Sample>
  {
    (l1: Leg, l2: Leg) => Probe(n, l1, l2)
  }

  /** A distance strictly below the best so far replaces it. */
  function Keep(acc: Best, s: Option<Sample>): Best
  {
    match s
    case None => acc
    case Some(x) => if x.dist < acc.minDist then Best(x.dist, Some(x.point)) else acc
  }

  /** The inner loop over the second flight's legs. */
  function ScanRow(probe: (Leg, Leg) -> Option<Sample>, acc: Best, l1: Leg, legs2: seq<Leg>): Best
  {
    if legs2 == [] then acc
    else Keep(ScanRow(probe, acc, l1, legs2[..|legs2| - 1]), probe(l1, legs2[|legs2| - 1]))
  }

  /** Both loops. */
  function ScanAll(probe: (Leg, Leg) -> Option<Sample>, acc: Best, legs1: seq<Leg>, legs2: seq<Leg>): Best
  {
    if legs1 == [] then acc
    else ScanRow(probe, ScanAll(probe, acc, legs1[..|legs1| - 1], legs2), legs1[|legs1| - 1], legs2)
  }

  /** What a scan from `acc` to `r` achieves: the best distance never
      grows; if it is unchanged nothing was recorded; if it went down, it is
      the probe of a leg pair, recorded with that probe's midpoint; and it
      is at most every probe. */
  predicate Least(probe: (Leg, Leg) -> Option<Sample>, acc: Best, r: Best, legs1: seq<Leg>, legs2: seq<Leg>)
  {
    && r.minDist <= acc.minDist
    && (r.minDist == acc.minDist ==> r == acc)
    && (r.minDist < acc.minDist ==> r.point.Some? && exists i, j ::
          0 <= i < |legs1| && 0 <= j < |legs2| && probe(legs1[i], legs2[j]) == Some(Sample(r.minDist, r.point.value)))
    && (forall i, j :: 0 <= i < |legs1| && 0 <= j < |legs2| && probe(legs1[i], legs2[j]).Some? ==>
          r.minDist <= probe(legs1[i], legs2[j]).value.dist)
  }

  lemma {:induction false} ScanRowLeast(probe: (Leg, Leg) -> Option<Sample>, acc: Best, l1: Leg, legs2: seq<Leg>)
    ensures Least(probe, acc, ScanRow(probe, acc, l1, legs2), [l1], legs2)
    decreases |legs2|
  {
    if legs2 != [] {
      var init := legs2[..|legs2| - 1];
      var last := legs2[|legs2| - 1];
      ScanRowLeast(probe, acc, l1, init);
      var mid := ScanRow(probe, acc, l1, init);
      var r := Keep(mid, probe(l1, last));
      if mid.minDist < acc.minDist {
        var i, j :| 0 <= i < 1 && 0 <= j < |init| && probe([l1][i], init[j]) == Some(Sample(mid.minDist, mid.point.value));
        assert init[j] == legs2[j];
      }
      if r != mid {
        assert probe([l1][0], legs2[|legs2| - 1]) == Some(Sample(r.minDist, r.point.value));
      }
      forall i, j | 0 <= i < 1 && 0 <= j < |legs2| && probe([l1][i], legs2[j]).Some?
        ensures r.minDist <= probe([l1][i], legs2[j]).value.dist
      {
        if j < |init| {
          assert init[j] == legs2[j];
        }
      }
    }
  }

  lemma {:induction false} ScanAllLeast(probe: (Leg, Leg) -> Option<Sample>, acc: Best, legs1: seq<Leg>, legs2: seq<Leg>)
    ensures Least(probe, acc, ScanAll(probe, acc, legs1, legs2), legs1, legs2)
    decreases |legs1|
  {
    if legs1 != [] {
      var init := legs1[..|legs1| - 1];
      var last := legs1[|legs1| - 1];
      ScanAllLeast(probe, acc, init, legs2);
      var mid := ScanAll(probe, acc, init, legs2);
      var r := ScanRow(probe, mid, last, legs2);
      ScanRowLeast(probe, mid, last, legs2);
      if mid.minDist < acc.minDist {
        var i, j :| 0 <= i < |init| && 0 <= j < |legs2| && probe(init[i], legs2[j]) == Some(Sample(mid.minDist, mid.point.value));
        assert init[i] == legs1[i];
      }
      if r.minDist < mid.minDist {
        var i, j :| 0 <= i < 1 && 0 <= j < |legs2| && probe([last][i], legs2[j]) == Some(Sample(r.minDist, r.point.value));
        assert [last][i] == legs1[|legs1| - 1];
      }
      forall i, j | 0 <= i < |legs1| && 0 <= j < |legs2| && probe(legs1[i], legs2[j]).Some?
        ensures r.minDist <= probe(legs1[i], legs2[j]).value.dist
      {
        if i < |init| {
          assert init[i] == legs1[i];
        } else {
          assert [last][0] == legs1[i];
        }
      }
    }
  }

  /** The scan of `find_conflicts` for one flight pair: its distance is the
      least probe over all leg pairs that share time (9999 if none is
      lower), and when it is below 9999 the recorded point is the midpoint
      of that probe. */
  lemma ClosestApproachLeast(n: Numerics, legs1: seq<Leg>, legs2: seq<Leg>, point: Option<Coord>)
    ensures Least(ProbeFn(n), Best(NoApproach, point), ScanAll(ProbeFn(n), Best(NoApproach, point), legs1, legs2), legs1, legs2)
  {
    ScanAllLeast(ProbeFn(n), Best(NoApproach, point), legs1, legs2);
  }

  /** The body of the closest-approach loops for one leg pair. */
  method ProbePair(n: Numerics, l1: Leg, l2: Leg) returns (s: Option<Sample>)
    ensures s == Probe(n, l1, l2)
  {
    var tStart := Max(l1.t0, l2.t0);
    var tEnd := Min(l1.t1(), l2.t1());
    if tStart >= tEnd {
      return None;
    }
    var m := RelativeMotion(n, l1, l2, tStart);
    var a := Dot(m.w, m.w);
    var tMinSeg := 0.0;
    if a > TinyA {
      var tMinRel := -Dot(m.p, m.w) / a;
      tMinSeg := Min(Max(tMinRel, 0.0), tEnd - tStart);
    }
    var tCheck := tStart + tMinSeg;
    var p1 := Interpolate(n, l1.start, l1.stop, (tCheck - l1.t0) / l1.duration);
    var p2 := Interpolate(n, l2.start, l2.stop, (tCheck - l2.t0) / l2.duration);
    s := Some(Sample(Haversine(n, p1, p2), Midpoint(p1, p2)));
  }

  /** The closest-approach loops of `find_conflicts` for one flight pair:
      `min_dist` restarts at 9999, the recorded point carries over. */
  method ClosestApproach(n: Numerics, legs1: seq<Leg>, legs2: seq<Leg>, point: Option<Coord>)
    returns (r: Best)
    ensures r == ScanAll(ProbeFn(n), Best(NoApproach, point), legs1, legs2)
  {
    r := Best(NoApproach, point);
    for i := 0 to |legs1|
      invariant r == ScanAll(ProbeFn(n), Best(NoApproach, point), legs1[..i], legs2)
    {
      assert legs1[..i + 1][..i] == legs1[..i];
      ghost var before := r;
      var l1 := legs1[i];
      for j := 0 to |legs2|
        invariant r == ScanRow(ProbeFn(n), before, l1, legs2[..j])
      {
        assert legs2[..j + 1][..j] == legs2[..j];
        var s := ProbePair(n, l1, legs2[j]);
        if s.Some? && s.value.dist < r.minDist {
          r := Best(s.value.dist, Some(s.value.point));
        }
      }
      assert legs2[..|legs2|] == legs2;
    }
    assert legs1[..|legs1|] == legs1;
  }
}
