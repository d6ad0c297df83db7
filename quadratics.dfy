/** Real quadratics `a x^2 + b x + c`: where they are negative, in terms of
    their roots. */
module Quadratics {

  datatype Quadratic = Quadratic(a: real, b: real, c: real)

  function Eval(q: Quadratic, x: real): real { q.a * x * x + q.b * x + q.c }

  /** The discriminant. */
  function Disc(q: Quadratic): real { q.b * q.b - 4.0 * q.a * q.c }

  /** Completing the square. */
  lemma QuadIdentity(q: Quadratic, x: real)
    ensures 4.0 * q.a * Eval(q, x) == (2.0 * q.a * x + q.b) * (2.0 * q.a * x + q.b) - Disc(q)
  {
  }

  lemma ProductPositive(u: real, w: real)
    requires u > 0.0 && w > 0.0
    ensures u * w > 0.0
  {
  }

  /** Scaling by a positive factor keeps the sign. */
  lemma SignOfScaled(k: real, e: real)
    requires k > 0.0
    ensures k * e <= 0.0 <==> e <= 0.0
    ensures k * e < 0.0 <==> e < 0.0
  {
    if e > 0.0 { ProductPositive(k, e); }
    if e < 0.0 { ProductPositive(k, -e); }
  }

  /** A square is below `s * s` exactly inside `[-s, s]`. */
  lemma SquareBound(y: real, s: real)
    requires s >= 0.0
    ensures y * y <= s * s <==> -s <= y <= s
    ensures y * y < s * s <==> -s < y < s
  {
    if y > s {
      ProductPositive(y - s, y + s);
      assert y * y - s * s == (y - s) * (y + s);
    } else if y < -s {
      ProductPositive(s - y, -s - y);
      assert y * y - s * s == (s - y) * (-s - y);
    } else if -s < y < s {
      ProductPositive(s - y, y + s);
      assert s * s - y * y == (s - y) * (y + s);
    } else {
      assert y == s || y == -s;
      assert y * y == s * s;
    }
  }

  /** Comparing a quotient by a positive divisor. */
  lemma DivBound(u: real, d: real, x: real)
    requires d > 0.0
    ensures u / d <= x <==> u <= d * x
    ensures x <= u / d <==> d * x <= u
    ensures u / d < x <==> u < d * x
    ensures x < u / d <==> d * x < u
  {
    assert u == d * (u / d);
    if u / d <= x { assert d * (u / d) <= d * x; }
    if u <= d * x { assert u / d <= d * x / d; }
    if x <= u / d { assert d * x <= d * (u / d); }
    if d * x <= u { assert d * x / d <= u / d; }
  }

  /** Sign of the quadratic in terms of its completed square. */
  lemma SignBySquare(q: Quadratic, x: real)
    requires q.a > 0.0
    ensures var y := 2.0 * q.a * x + q.b; var disc := Disc(q);
      (Eval(q, x) <= 0.0 <==> y * y <= disc) && (Eval(q, x) < 0.0 <==> y * y < disc)
  {
    QuadIdentity(q, x);
    SignOfScaled(4.0 * q.a, Eval(q, x));
  }

  /** With a positive leading coefficient and `s` a square root of the
      discriminant, the quadratic is not positive exactly between its two
      roots, and negative exactly strictly between them. */
  lemma RootsWindow(q: Quadratic, s: real, x: real)
    requires q.a > 0.0 && s >= 0.0 && s * s == Disc(q)
    ensures var t1r := (-q.b - s) / (2.0 * q.a); var t2r := (-q.b + s) / (2.0 * q.a);
      (t1r <= x <= t2r <==> Eval(q, x) <= 0.0) && (t1r < x < t2r <==> Eval(q, x) < 0.0)
  {
    var y := 2.0 * q.a * x + q.b;
    SignBySquare(q, x);
    SquareBound(y, s);
    DivBound(-q.b - s, 2.0 * q.a, x);
    DivBound(-q.b + s, 2.0 * q.a, x);
  }

  /** With a positive leading coefficient and a negative discriminant the
      quadratic is positive everywhere. */
  lemma NoRoots(q: Quadratic, x: real)
    requires q.a > 0.0 && Disc(q) < 0.0
    ensures Eval(q, x) > 0.0
  {
    var y := 2.0 * q.a * x + q.b;
    SignBySquare(q, x);
    assert y * y >= 0.0;
  }

  /** The squared length of a point moving on a line, as a polynomial in
      time. */
  lemma SquaredLine(px: real, py: real, wx: real, wy: real, x: real)
    ensures (px + wx * x) * (px + wx * x) + (py + wy * x) * (py + wy * x)
         == (wx * wx + wy * wy) * x * x + 2.0 * (px * wx + py * wy) * x + (px * px + py * py)
  {
  }

  /** With a positive leading coefficient the quadratic falls up to its
      vertex `-b / 2a` and rises after it: of two points on the same side,
      the one nearer the vertex is not higher. */
  lemma TowardsVertex(q: Quadratic, y: real, x: real)
    requires q.a > 0.0
    requires var v := -q.b / (2.0 * q.a); v <= y <= x || x <= y <= v
    ensures Eval(q, y) <= Eval(q, x)
  {
    var v := -q.b / (2.0 * q.a);
    assert 2.0 * q.a * v + q.b == 0.0;
    assert Eval(q, x) - Eval(q, y) == (x - y) * (q.a * (x + y) + q.b);
    if v <= y <= x {
      assert q.a * (x + y) >= q.a * (2.0 * v);
      ProductNonNegative(x - y, q.a * (x + y) + q.b);
    } else {
      assert q.a * (x + y) <= q.a * (2.0 * v);
      ProductNonNegative(y - x, -(q.a * (x + y) + q.b));
    }
  }

  lemma ProductNonNegative(u: real, w: real)
    requires u >= 0.0 && w >= 0.0
    ensures u * w >= 0.0
  {
  }
}
