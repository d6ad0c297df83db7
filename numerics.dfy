/** Coordinates, planar vectors and the transcendental numerics the engine
    relies on. Haversine distance, spherical interpolation, `cos(radians(x))`
    and `sqrt` are floating-point library code; they are carried as
    function-valued fields of a `Numerics` value, so every result below holds
    for whatever functions are plugged in (subject to `Sound` where stated). */
module Numerics {

  /** A (latitude, longitude) pair in decimal degrees. */
  datatype Coord = Coord(lat: real, lon: real)

  /** A two-element vector; for positions and velocities the order is
      (longitude, latitude), as in the `[lon, lat]` arrays of a leg. */
  datatype Vec = Vec(x: real, y: real)

  function Add(u: Vec, w: Vec): Vec { Vec(u.x + w.x, u.y + w.y) }
  function Sub(u: Vec, w: Vec): Vec { Vec(u.x - w.x, u.y - w.y) }
  function Scale(u: Vec, k: real): Vec { Vec(u.x * k, u.y * k) }
  /** Element-wise product, numpy's `*` between two arrays. */
  function Times(u: Vec, w: Vec): Vec { Vec(u.x * w.x, u.y * w.y) }
  function Dot(u: Vec, w: Vec): real { u.x * w.x + u.y * w.y }

  /** The numeric library functions the engine calls. */
  datatype Numerics = Numerics(
    haversine: (real, real, real, real) -> real,  // (lat1, lon1, lat2, lon2) -> nautical miles
    slerp: (real, real, real, real, real) -> Coord, // great-circle point strictly inside the arc
    cosDeg: real -> real,                          // cos(radians(x))
    sqrt: real -> real)

  /** What the model assumes of the library: distances are non-negative and
      `sqrt` is the non-negative square root on non-negative arguments. */
  ghost predicate Sound(n: Numerics)
  {
    && (forall a, b, c, d :: n.haversine(a, b, c, d) >= 0.0)
    && (forall x :: x >= 0.0 ==> n.sqrt(x) >= 0.0 && n.sqrt(x) * n.sqrt(x) == x)
  }

  /** Great-circle distance in nautical miles between two coordinates. */
  function Haversine(n: Numerics, p: Coord, q: Coord): real
  {
    n.haversine(p.lat, p.lon, q.lat, q.lon)
  }

  /** Position at `fraction` of the way along the great circle from `start` to
      `stop`; the two clamps are exact, whatever the coordinates. */
  function Interpolate(n: Numerics, start: Coord, stop: Coord, fraction: real): (p: Coord)
    ensures fraction <= 0.0 ==> p == start
    ensures fraction >= 1.0 ==> p == stop
    ensures 0.0 < fraction < 1.0 ==> p == n.slerp(start.lat, start.lon, stop.lat, stop.lon, fraction)
  {
    if fraction <= 0.0 then start
    else if fraction >= 1.0 then stop
    else n.slerp(start.lat, start.lon, stop.lat, stop.lon, fraction)
  }

  /** Python's `int(x)` on a float: truncation toward zero. */
  function Trunc(x: real): (k: int)
    ensures x >= 0.0 ==> k as real <= x < k as real + 1.0
    ensures x < 0.0 ==> k as real - 1.0 < x <= k as real
  {
    if x >= 0.0 then x.Floor else -((-x).Floor)
  }

  function Abs(x: real): (r: real)
    ensures r >= 0.0 && (r == x || r == -x)
  {
    if x < 0.0 then -x else x
  }

  function Max(a: real, b: real): (r: real)
    ensures r >= a && r >= b && (r == a || r == b)
  {
    if a >= b then a else b
  }

  function Min(a: real, b: real): (r: real)
    ensures r <= a && r <= b && (r == a || r == b)
  {
    if a <= b then a else b
  }
}
