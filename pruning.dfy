/** The fast quadratic pruning of `check_pair_conflict`: over the time two
    legs share, their relative motion is taken as linear in a local
    nautical-mile frame, and the times at which that linear separation is
    below 5 NM are the roots window of a quadratic. */
module Pruning {
  import opened Wrappers
  import opened Numerics
  import opened Legs
  import opened Quadratics

  /** Horizontal separation minimum, nautical miles. */
  const SeparationNm: real := 5.0
  /** Vertical separation minimum, feet. */
  const VerticalFt: real := 2000.0
  /** Below this leading coefficient the relative motion counts as none. */
  const TinyA: real := 0.000000000000001

  /** The time two legs share is `[OverlapStart, OverlapEnd]`. */
  function OverlapStart(l1: Leg, l2: Leg): real { Max(l1.t0, l2.t0) }
  function OverlapEnd(l1: Leg, l2: Leg): real { Min(l1.t1(), l2.t1()) }

  predicate Overlap(l1: Leg, l2: Leg) { OverlapStart(l1, l2) < OverlapEnd(l1, l2) }

  /** A leg pair is examined only if the legs share some time and are less
      than 2000 ft apart vertically. */
  predicate Eligible(l1: Leg, l2: Leg)
  {
    Overlap(l1, l2) && Abs(l1.alt - l2.alt) < VerticalFt
  }

  /** Legs that share time both have a positive duration. */
  lemma OverlapDurations(l1: Leg, l2: Leg)
    requires Overlap(l1, l2)
    ensures l1.duration > 0.0 && l2.duration > 0.0
    ensures l1.t0 <= OverlapStart(l1, l2) < OverlapEnd(l1, l2) <= l1.t1()
    ensures l2.t0 <= OverlapStart(l1, l2) < OverlapEnd(l1, l2) <= l2.t1()
  {
  }

  /** A leg's straight-line (lon, lat) track, extended to any time. */
  function TrackAt(l: Leg, t: real): Vec { Add(l.p0, Scale(l.v, t - l.t0)) }

  /** Degrees to nautical miles: 60 NM per degree, longitude shrunk by the
      cosine of the pair's mean start latitude. */
  function NmScale(n: Numerics, l1: Leg, l2: Leg): Vec
  {
    Vec(n.cosDeg((l1.start.lat + l2.start.lat) / 2.0), 1.0)
  }

  function ToNm(u: Vec, scale: Vec): Vec { Times(Scale(u, 60.0), scale) }

  /** Relative position at the start of the shared time and relative
      velocity, both in the nautical-mile frame. */
  datatype Motion = Motion(p: Vec, w: Vec)

  /** The linearised separation vector of the two tracks at time `t`. */
  function Offset(n: Numerics, l1: Leg, l2: Leg, t: real): Vec
  {
    ToNm(Sub(TrackAt(l1, t), TrackAt(l2, t)), NmScale(n, l1, l2))
  }

  function RelativeMotion(n: Numerics, l1: Leg, l2: Leg, tStart: real): Motion
  {
    Motion(Offset(n, l1, l2, tStart), ToNm(Sub(l1.v, l2.v), NmScale(n, l1, l2)))
  }

  /** Moving the relative position along the relative velocity from
      `tStart` gives the offset of the two tracks at any later time. */
  lemma RelativeMotionTracks(n: Numerics, l1: Leg, l2: Leg, tStart: real, t: real)
    ensures var m := RelativeMotion(n, l1, l2, tStart);
      Add(m.p, Scale(m.w, t - tStart)) == Offset(n, l1, l2, t)
  {
    var m := RelativeMotion(n, l1, l2, tStart);
    var s := NmScale(n, l1, l2);
    var d := t - tStart;
    var e1 := tStart - l1.t0;
    var e2 := tStart - l2.t0;
    assert t - l1.t0 == e1 + d && t - l2.t0 == e2 + d;
    assert l1.v.x * (e1 + d) == l1.v.x * e1 + l1.v.x * d;
    assert l1.v.y * (e1 + d) == l1.v.y * e1 + l1.v.y * d;
    assert l2.v.x * (e2 + d) == l2.v.x * e2 + l2.v.x * d;
    assert l2.v.y * (e2 + d) == l2.v.y * e2 + l2.v.y * d;
    var u := Sub(TrackAt(l1, t), TrackAt(l2, t));
    var u0 := Sub(TrackAt(l1, tStart), TrackAt(l2, tStart));
    var dv := Sub(l1.v, l2.v);
    assert u == Add(u0, Scale(dv, d));
    assert m.p == ToNm(u0, s) && m.w == ToNm(dv, s);
    assert (u0.x + dv.x * d) * 60.0 * s.x == u0.x * 60.0 * s.x + dv.x * 60.0 * s.x * d;
    assert (u0.y + dv.y * d) * 60.0 * s.y == u0.y * 60.0 * s.y + dv.y * 60.0 * s.y * d;
  }

  /** The coefficients `check_pair_conflict` computes from the motion. */
  function Coefficients(m: Motion): Quadratic
  {
    Quadratic(Dot(m.w, m.w), 2.0 * Dot(m.p, m.w), Dot(m.p, m.p) - SeparationNm * SeparationNm)
  }

  /** The quadratic at `x` is the squared offset `x` seconds on, less 25:
      it is negative exactly when the linear separation is under 5 NM. */
  lemma CoefficientsMeaning(m: Motion, x: real)
    ensures var o := Add(m.p, Scale(m.w, x));
      Eval(Coefficients(m), x) == Dot(o, o) - SeparationNm * SeparationNm
  {
    SquaredLine(m.p.x, m.p.y, m.w.x, m.w.y, x);
  }

  /** A window of absolute times. */
  datatype Window = Window(lo: real, hi: real)

  /** The two roots of a quadratic with a positive leading coefficient and
      a non-negative discriminant, as offsets from the start of the shared
      time. */
  function RootsOf(n: Numerics, q: Quadratic): Window
    requires q.a > 0.0
  {
    Window((-q.b - n.sqrt(Disc(q))) / (2.0 * q.a), (-q.b + n.sqrt(Disc(q))) / (2.0 * q.a))
  }

  /** Clips a window of offsets to the shared time `[tStart, tEnd]`; `None`
      if nothing of positive length remains. */
  function ClipTo(w: Window, tStart: real, tEnd: real): (r: Option<Window>)
    requires tStart < tEnd
    ensures r.Some? ==> tStart <= r.value.lo < r.value.hi <= tEnd
    ensures r.Some? ==> r.value.lo - tStart >= w.lo && r.value.hi - tStart <= w.hi
  {
    var r0 := Max(0.0, w.lo);
    var r1 := Min(tEnd - tStart, w.hi);
    if r0 < r1 then Some(Window(tStart + r0, tStart + r1)) else None
  }

  /** Clipping keeps exactly the offsets of the window that lie in the
      shared time, as long as the window is open. */
  lemma ClipToExact(w: Window, tStart: real, tEnd: real, t: real)
    requires tStart <= t <= tEnd && tStart < tEnd
    ensures var r := ClipTo(w, tStart, tEnd);
      r.Some? && r.value.lo <= t <= r.value.hi ==> w.lo <= t - tStart <= w.hi
    ensures var r := ClipTo(w, tStart, tEnd);
      w.lo < t - tStart < w.hi ==> r.Some? && r.value.lo <= t <= r.value.hi
  {
  }

  /** The candidate window of the pruning step over `[tStart, tEnd]`: the
      part of the shared time where the quadratic is not positive; with
      (almost) no relative motion, all of the shared time if the pair starts
      within 5 NM and none of it otherwise. */
  function Candidate(n: Numerics, q: Quadratic, tStart: real, tEnd: real): (r: Option<Window>)
    requires tStart < tEnd
    ensures r.Some? ==> tStart <= r.value.lo < r.value.hi <= tEnd
    ensures q.a <= TinyA && q.c <= 0.0 ==> r == Some(Window(tStart, tEnd))
    ensures q.a <= TinyA && q.c > 0.0 ==> r == None
  {
    if q.a > TinyA then
      if Disc(q) >= 0.0 then ClipTo(RootsOf(n, q), tStart, tEnd) else None
    else if q.c <= 0.0 then Some(Window(tStart, tEnd))
    else None
  }

  /** With real relative motion and a library `sqrt` that is a square root,
      the candidate window is exact: every time in it has a non-positive
      quadratic, and every time of the shared window with a negative one is
      in it. */
  lemma CandidateExact(n: Numerics, q: Quadratic, tStart: real, tEnd: real, t: real)
    requires Sound(n) && tStart < tEnd && q.a > TinyA
    requires tStart <= t <= tEnd
    ensures var r := Candidate(n, q, tStart, tEnd);
      r.Some? && r.value.lo <= t <= r.value.hi ==> Eval(q, t - tStart) <= 0.0
    ensures var r := Candidate(n, q, tStart, tEnd);
      Eval(q, t - tStart) < 0.0 ==> r.Some? && r.value.lo <= t <= r.value.hi
  {
    if Disc(q) >= 0.0 {
      SqrtOf(n, Disc(q));
      RootsWindow(q, n.sqrt(Disc(q)), t - tStart);
      ClipToExact(RootsOf(n, q), tStart, tEnd, t);
    } else {
      NoRoots(q, t - tStart);
    }
  }

  lemma SqrtOf(n: Numerics, v: real)
    requires Sound(n) && v >= 0.0
    ensures n.sqrt(v) >= 0.0 && n.sqrt(v) * n.sqrt(v) == v
  {
  }

  /** The pruning step for one leg pair: `None` when the pair is not
      eligible or its candidate window is empty. */
  function LegCandidate(n: Numerics, l1: Leg, l2: Leg): (r: Option<Window>)
    ensures r.Some? ==> Eligible(l1, l2)
    ensures r.Some? ==> OverlapStart(l1, l2) <= r.value.lo < r.value.hi <= OverlapEnd(l1, l2)
  {
    if !Eligible(l1, l2) then None
    else
      var tStart := OverlapStart(l1, l2);
      Candidate(n, Coefficients(RelativeMotion(n, l1, l2, tStart)), tStart, OverlapEnd(l1, l2))
  }

  /** For an eligible pair in relative motion, the candidate window holds
      every shared time at which the straight tracks are under 5 NM apart,
      and only times at which they are at most 5 NM apart. */
  lemma LegCandidateExact(n: Numerics, l1: Leg, l2: Leg, t: real)
    requires Sound(n) && Eligible(l1, l2)
    requires Coefficients(RelativeMotion(n, l1, l2, OverlapStart(l1, l2))).a > TinyA
    requires OverlapStart(l1, l2) <= t <= OverlapEnd(l1, l2)
    ensures var o := Offset(n, l1, l2, t); var r := LegCandidate(n, l1, l2);
      Dot(o, o) < SeparationNm * SeparationNm ==> r.Some? && r.value.lo <= t <= r.value.hi
    ensures var o := Offset(n, l1, l2, t); var r := LegCandidate(n, l1, l2);
      r.Some? && r.value.lo <= t <= r.value.hi ==> Dot(o, o) <= SeparationNm * SeparationNm
  {
    var tStart := OverlapStart(l1, l2);
    var m := RelativeMotion(n, l1, l2, tStart);
    RelativeMotionTracks(n, l1, l2, tStart, t);
    CoefficientsMeaning(m, t - tStart);
    CandidateExact(n, Coefficients(m), tStart, OverlapEnd(l1, l2), t);
  }

  /** Two legs with (next to) no relative motion: the pair is a candidate
      for the whole shared time exactly when it is within 5 NM at the start
      of it, and not at all otherwise. */
  lemma SlowPair(n: Numerics, l1: Leg, l2: Leg)
    requires Eligible(l1, l2)
    requires Coefficients(RelativeMotion(n, l1, l2, OverlapStart(l1, l2))).a <= TinyA
    ensures var o := Offset(n, l1, l2, OverlapStart(l1, l2));
      LegCandidate(n, l1, l2) ==
        if Dot(o, o) <= SeparationNm * SeparationNm
        then Some(Window(OverlapStart(l1, l2), OverlapEnd(l1, l2)))
        else None
  {
  }
}
