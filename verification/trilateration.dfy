// The three-circle formulas of trilateration_process (WifiNode.c), over the
// reals.
module Trilateration {

  datatype Point = Point(x: real, y: real)

  datatype Anchor = Anchor(at: Point, distance: real)

  datatype Option<T> = None | Some(value: T)

  function Square(r: real): real { r * r }

  /** Power of a point with respect to the circle around an anchor: zero on the
      circle. */
  function Power(p: Point, a: Anchor): real
  {
    Square(p.x - a.at.x) + Square(p.y - a.at.y) - Square(a.distance)
  }

  predicate EqualPowers(p: Point, a: Anchor, b: Anchor, c: Anchor)
  {
    Power(p, a) == Power(p, b) == Power(p, c)
  }

  predicate Collinear(a: Point, b: Point, c: Point)
  {
    (b.x - a.x) * (c.y - a.y) == (c.x - a.x) * (b.y - a.y)
  }

  /** x1*x1 + y1*y1 - d1*d1, the source's A, B and C. */
  function Constant(a: Anchor): real
  {
    a.at.x * a.at.x + a.at.y * a.at.y - a.distance * a.distance
  }

  function DenominatorX(a: Point, b: Point, c: Point): real
  {
    2.0 * (a.x * (c.y - b.y) + b.x * (a.y - c.y) + c.x * (b.y - a.y))
  }

  function DenominatorY(a: Point, b: Point, c: Point): real
  {
    2.0 * (a.y * (c.x - b.x) + b.y * (a.x - c.x) + c.y * (b.x - a.x))
  }

  function NumeratorX(a: Anchor, b: Anchor, c: Anchor): real
  {
    Constant(a) * (c.at.y - b.at.y) + Constant(b) * (a.at.y - c.at.y) + Constant(c) * (b.at.y - a.at.y)
  }

  function NumeratorY(a: Anchor, b: Anchor, c: Anchor): real
  {
    Constant(a) * (c.at.x - b.at.x) + Constant(b) * (a.at.x - c.at.x) + Constant(c) * (b.at.x - a.at.x)
  }

  /** The computed position; None where the source divides by zero and stores
      values that are not numbers. */
  function Locate(a: Anchor, b: Anchor, c: Anchor): Option<Point>
  {
    var dx, dy := DenominatorX(a.at, b.at, c.at), DenominatorY(a.at, b.at, c.at);
    if dx == 0.0 || dy == 0.0 then None
    else Some(Point(NumeratorX(a, b, c) / dx, NumeratorY(a, b, c) / dy))
  }

  /** The two denominators are negatives of each other and vanish exactly for
      collinear anchors. */
  lemma DenominatorsVanishTogether(a: Point, b: Point, c: Point)
    ensures DenominatorY(a, b, c) == -DenominatorX(a, b, c)
    ensures DenominatorX(a, b, c) == 0.0 <==> Collinear(a, b, c)
  {
    Area(a.x, a.y, b.x, b.y, c.x, c.y);
  }

  lemma Area(x1: real, y1: real, x2: real, y2: real, x3: real, y3: real)
    ensures y1 * (x3 - x2) + y2 * (x1 - x3) + y3 * (x2 - x1) == -(x1 * (y3 - y2) + x2 * (y1 - y3) + x3 * (y2 - y1))
    ensures x1 * (y3 - y2) + x2 * (y1 - y3) + x3 * (y2 - y1) == (x3 - x1) * (y2 - y1) - (x2 - x1) * (y3 - y1)
  {
  }

  /** Equal powers with respect to a and b, as a line in x and y. */
  predicate OnLine(p: Point, a: Anchor, b: Anchor)
  {
    2.0 * (p.x * (b.at.x - a.at.x) + p.y * (b.at.y - a.at.y)) == Constant(b) - Constant(a)
  }

  lemma OnLineIffEqualPower(p: Point, a: Anchor, b: Anchor)
    ensures OnLine(p, a, b) <==> Power(p, a) == Power(p, b)
  {
    PowerExpands(p.x, p.y, a.at.x, a.at.y, a.distance);
    PowerExpands(p.x, p.y, b.at.x, b.at.y, b.distance);
    assert p.x * (b.at.x - a.at.x) == p.x * b.at.x - p.x * a.at.x;
    assert p.y * (b.at.y - a.at.y) == p.y * b.at.y - p.y * a.at.y;
  }

  lemma PowerExpands(x: real, y: real, u: real, v: real, d: real)
    ensures (x - u) * (x - u) + (y - v) * (y - v) - d * d
            == (x * x + y * y) - 2.0 * (x * u + y * v) + (u * u + v * v - d * d)
  {
  }

  /** Solving the two line equations by elimination, without the geometry: u1, v1
      and u2, v2 are the line coefficients, s their determinant. */
  lemma LinesMeet(x: real, y: real, u1: real, v1: real, k1: real, u2: real, v2: real, k2: real, s: real)
    requires s == u1 * v2 - u2 * v1 && s != 0.0
    ensures x * u1 + y * v1 == k1 && x * u2 + y * v2 == k2 <==> x * s == k1 * v2 - k2 * v1 && y * s == u1 * k2 - u2 * k1
  {
    Eliminate(x, y, u1, v1, u2, v2);
    if x * u1 + y * v1 == k1 && x * u2 + y * v2 == k2 {
      assert x * s == k1 * v2 - k2 * v1;
      assert y * s == u1 * k2 - u2 * k1;
    }
    if x * s == k1 * v2 - k2 * v1 && y * s == u1 * k2 - u2 * k1 {
      Recombine(k1, k2, u1, v1, u2, v2);
      CancelNonZero(x * u1 + y * v1, k1, s);
      CancelNonZero(x * u2 + y * v2, k2, s);
    }
  }

  lemma Eliminate(x: real, y: real, u1: real, v1: real, u2: real, v2: real)
    ensures x * (u1 * v2 - u2 * v1) == (x * u1 + y * v1) * v2 - (x * u2 + y * v2) * v1
    ensures y * (u1 * v2 - u2 * v1) == u1 * (x * u2 + y * v2) - u2 * (x * u1 + y * v1)
    ensures (x * u1 + y * v1) * (u1 * v2 - u2 * v1) == (x * (u1 * v2 - u2 * v1)) * u1 + (y * (u1 * v2 - u2 * v1)) * v1
    ensures (x * u2 + y * v2) * (u1 * v2 - u2 * v1) == (x * (u1 * v2 - u2 * v1)) * u2 + (y * (u1 * v2 - u2 * v1)) * v2
  {
  }

  lemma Recombine(k1: real, k2: real, u1: real, v1: real, u2: real, v2: real)
    ensures (k1 * v2 - k2 * v1) * u1 + (u1 * k2 - u2 * k1) * v1 == k1 * (u1 * v2 - u2 * v1)
    ensures (k1 * v2 - k2 * v1) * u2 + (u1 * k2 - u2 * k1) * v2 == k2 * (u1 * v2 - u2 * v1)
  {
  }

  lemma CancelNonZero(a: real, b: real, s: real)
    requires s != 0.0 && a * s == b * s
    ensures a == b
  {
    assert (a - b) * s == 0.0;
  }

  lemma NumeratorsAreDeterminants(ka: real, kb: real, kc: real,
                                  x1: real, y1: real, x2: real, y2: real, x3: real, y3: real)
    ensures ((kb - ka) / 2.0) * (y3 - y1) - ((kc - ka) / 2.0) * (y2 - y1)
            == -(ka * (y3 - y2) + kb * (y1 - y3) + kc * (y2 - y1)) / 2.0
    ensures (x2 - x1) * ((kc - ka) / 2.0) - (x3 - x1) * ((kb - ka) / 2.0)
            == (ka * (x3 - x2) + kb * (x1 - x3) + kc * (x2 - x1)) / 2.0
  {
  }

  /** A point has equal power with respect to all three circles exactly when it
      solves the two scaled equations that the source divides out. */
  lemma EqualPowersIffSolves(p: Point, a: Anchor, b: Anchor, c: Anchor)
    requires !Collinear(a.at, b.at, c.at)
    ensures EqualPowers(p, a, b, c) <==>
      && p.x * DenominatorX(a.at, b.at, c.at) == NumeratorX(a, b, c)
      && p.y * DenominatorY(a.at, b.at, c.at) == NumeratorY(a, b, c)
  {
    hide Power, DenominatorX, DenominatorY, NumeratorX, NumeratorY, Constant, Collinear, OnLine;
    OnLineIffEqualPower(p, a, b);
    OnLineIffEqualPower(p, a, c);
    var s := -DenominatorX(a.at, b.at, c.at) / 2.0;
    DenominatorsVanishTogether(a.at, b.at, c.at);
    LineEquations(p, a, b, c, s);
    Halves(p.x, DenominatorX(a.at, b.at, c.at), NumeratorX(a, b, c));
    Halves(p.y, DenominatorY(a.at, b.at, c.at), NumeratorY(a, b, c));
  }

  lemma Halves(x: real, d: real, n: real)
    ensures x * (-d / 2.0) == -n / 2.0 <==> x * d == n
    ensures x * (d / 2.0) == n / 2.0 <==> x * d == n
  {
    assert x * (d / 2.0) == (x * d) / 2.0;
    assert x * (-d / 2.0) == -(x * d) / 2.0;
  }

  lemma LineEquations(p: Point, a: Anchor, b: Anchor, c: Anchor, s: real)
    requires s != 0.0 && s == -DenominatorX(a.at, b.at, c.at) / 2.0
    ensures OnLine(p, a, b) && OnLine(p, a, c) <==>
      p.x * s == -NumeratorX(a, b, c) / 2.0 && p.y * s == NumeratorY(a, b, c) / 2.0
  {
    var x1, y1, x2, y2, x3, y3 := a.at.x, a.at.y, b.at.x, b.at.y, c.at.x, c.at.y;
    var ka, kb, kc := Constant(a), Constant(b), Constant(c);
    Area(x1, y1, x2, y2, x3, y3);
    NumeratorsAreDeterminants(ka, kb, kc, x1, y1, x2, y2, x3, y3);
    hide Constant;
    assert s == (x2 - x1) * (y3 - y1) - (x3 - x1) * (y2 - y1);
    LinesMeet(p.x, p.y, x2 - x1, y2 - y1, (kb - ka) / 2.0, x3 - x1, y3 - y1, (kc - ka) / 2.0, s);
  }

  /** For anchors not on one line, and any distances, the computed point is the
      one point with equal power with respect to all three circles. */
  lemma LocateIsRadicalCentre(a: Anchor, b: Anchor, c: Anchor, p: Point)
    requires !Collinear(a.at, b.at, c.at)
    ensures Locate(a, b, c) == Some(p) <==> EqualPowers(p, a, b, c)
  {
    hide EqualPowers, Collinear, Power, DenominatorX, DenominatorY, NumeratorX, NumeratorY;
    DenominatorsVanishTogether(a.at, b.at, c.at);
    EqualPowersIffSolves(p, a, b, c);
    QuotientIff(p.x, DenominatorX(a.at, b.at, c.at), NumeratorX(a, b, c));
    QuotientIff(p.y, DenominatorY(a.at, b.at, c.at), NumeratorY(a, b, c));
  }

  lemma QuotientIff(x: real, d: real, n: real)
    requires d != 0.0
    ensures x == n / d <==> x * d == n
  {
    var q := n / d;
    assert q * d == n;
    if x * d == n { CancelNonZero(x, q, d); }
  }

  /** The source divides by zero exactly for collinear anchors. */
  lemma LocateFailsIffCollinear(a: Anchor, b: Anchor, c: Anchor)
    ensures Locate(a, b, c) == None <==> Collinear(a.at, b.at, c.at)
  {
    DenominatorsVanishTogether(a.at, b.at, c.at);
  }

  /** If the three distances are those of a real point, that point is returned. */
  lemma LocateIsExact(a: Anchor, b: Anchor, c: Anchor, p: Point)
    requires !Collinear(a.at, b.at, c.at)
    requires Power(p, a) == 0.0 && Power(p, b) == 0.0 && Power(p, c) == 0.0
    ensures Locate(a, b, c) == Some(p)
  {
    LocateIsRadicalCentre(a, b, c, p);
  }

  lemma CollinearSymmetric(a: Point, b: Point, c: Point)
    ensures Collinear(a, b, c) <==> Collinear(b, a, c)
    ensures Collinear(a, b, c) <==> Collinear(b, c, a)
  {
    DenominatorsVanishTogether(a, b, c);
    DenominatorsVanishTogether(b, a, c);
    DenominatorsVanishTogether(b, c, a);
    DenominatorCycles(a.x, a.y, b.x, b.y, c.x, c.y);
  }

  lemma DenominatorCycles(x1: real, y1: real, x2: real, y2: real, x3: real, y3: real)
    ensures x2 * (y3 - y1) + x1 * (y2 - y3) + x3 * (y1 - y2) == -(x1 * (y3 - y2) + x2 * (y1 - y3) + x3 * (y2 - y1))
    ensures x2 * (y1 - y3) + x3 * (y2 - y1) + x1 * (y3 - y2) == x1 * (y3 - y2) + x2 * (y1 - y3) + x3 * (y2 - y1)
  {
  }

  /** Swapping or rotating the anchors does not change the result, so no
      reordering does. */
  lemma LocateIgnoresOrder(a: Anchor, b: Anchor, c: Anchor)
    ensures Locate(b, a, c) == Locate(a, b, c) == Locate(b, c, a)
  {
    CollinearSymmetric(a.at, b.at, c.at);
    LocateFailsIffCollinear(a, b, c);
    LocateFailsIffCollinear(b, a, c);
    LocateFailsIffCollinear(b, c, a);
    hide Collinear, Locate, Power;
    if !Collinear(a.at, b.at, c.at) {
      var p := Locate(a, b, c).value;
      LocateIsRadicalCentre(a, b, c, p);
      LocateIsRadicalCentre(b, a, c, p);
      LocateIsRadicalCentre(b, c, a, p);
    }
  }
}
