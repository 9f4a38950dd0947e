/** Barycentric coordinates of points with respect to a triangle. */
module Barycentric {
  import opened Geometry
  import opened RealSums

  function Plus(a: Vec3, b: Vec3): Vec3 {
    Vec3(a.x + b.x, a.y + b.y, a.z + b.z)
  }

  function Minus(a: Vec3, b: Vec3): Vec3 {
    Vec3(a.x - b.x, a.y - b.y, a.z - b.z)
  }

  function Times(k: real, a: Vec3): Vec3 {
    Vec3(k * a.x, k * a.y, k * a.z)
  }

  function Dot(a: Vec3, b: Vec3): real {
    a.x * b.x + a.y * b.y + a.z * b.z
  }

  function Cross(a: Vec3, b: Vec3): Vec3 {
    Vec3(a.y * b.z - a.z * b.y, a.z * b.x - a.x * b.z, a.x * b.y - a.y * b.x)
  }

  const ZERO := Vec3(0.0, 0.0, 0.0)

  datatype Triangle = Triangle(a: Vec3, b: Vec3, c: Vec3) {
    function Edge0(): Vec3 {
      Minus(b, a)
    }

    function Edge1(): Vec3 {
      Minus(c, a)
    }
  }

  /** The denominator both coordinates are divided by. */
  function Gram(v: Vec3, w: Vec3): real {
    Dot(v, v) * Dot(w, w) - Dot(v, w) * Dot(v, w)
  }

  function Denominator(t: Triangle): real {
    Gram(t.Edge0(), t.Edge1())
  }

  function CartesianToBarycentric(pt: Vec3, t: Triangle): Vec3
    requires Denominator(t) != 0.0
  {
    var v0, v1, v2 := t.Edge0(), t.Edge1(), Minus(pt, t.a);
    var dot00, dot01, dot11, dot20, dot21 := Dot(v0, v0), Dot(v0, v1), Dot(v1, v1), Dot(v2, v0), Dot(v2, v1);
    var invDenom := 1.0 / (dot00 * dot11 - dot01 * dot01);
    var u1, u2 := (dot11 * dot20 - dot01 * dot21) * invDenom, (dot00 * dot21 - dot01 * dot20) * invDenom;
    Vec3(1.0 - u1 - u2, u1, u2)
  }

  function BarycentricToCartesian(u: Vec3, t: Triangle): Vec3 {
    Plus(Plus(Times(u.x, t.a), Times(u.y, t.b)), Times(u.z, t.c))
  }

  /** The point of the triangle's plane at m and n along the edges from a. */
  function InPlane(t: Triangle, m: real, n: real): Vec3 {
    Plus(t.a, Plus(Times(m, t.Edge0()), Times(n, t.Edge1())))
  }

  // ----- vector laws -----

  lemma DotLaws(a: Vec3, b: Vec3, c: Vec3, k: real)
    ensures Dot(a, b) == Dot(b, a)
    ensures Dot(Plus(a, b), c) == Dot(a, c) + Dot(b, c)
    ensures Dot(Minus(a, b), c) == Dot(a, c) - Dot(b, c)
    ensures Dot(Times(k, a), c) == k * Dot(a, c)
  {}

  lemma PositiveProduct(x: real, y: real)
    requires x > 0.0 && y > 0.0
    ensures Mul(x, y) > 0.0
  {}

  lemma SquareIsPositive(x: real)
    requires x != 0.0
    ensures Mul(x, x) > 0.0
  {
    hide Mul;
    var y := if x > 0.0 then x else -x;
    PositiveProduct(y, y);
    MulLaws(x, x, x);
    MulLaws(x, -x, x);
    MulLaws(-x, x, x);
  }

  lemma SquareIsNonNegative(x: real)
    ensures Mul(x, x) >= 0.0 && (x != 0.0 ==> Mul(x, x) > 0.0)
  {
    if x == 0.0 {
      assert Mul(0.0, 0.0) == 0.0;
    } else {
      hide Mul;
      SquareIsPositive(x);
    }
  }

  lemma DotIsSquares(a: Vec3)
    ensures Dot(a, a) == Mul(a.x, a.x) + Mul(a.y, a.y) + Mul(a.z, a.z)
  {}

  lemma DotSelf(a: Vec3)
    ensures Dot(a, a) >= 0.0
    ensures Dot(a, a) == 0.0 <==> a == ZERO
  {
    DotIsSquares(a);
    if a == ZERO {
      assert Mul(0.0, 0.0) == 0.0;
    } else {
      hide Dot, Mul;
      SquareIsNonNegative(a.x);
      SquareIsNonNegative(a.y);
      SquareIsNonNegative(a.z);
    }
  }

  lemma Combination(v: Vec3, w: Vec3, m: real, n: real, c: Vec3)
    ensures Dot(Plus(Times(m, v), Times(n, w)), c) == m * Dot(v, c) + n * Dot(w, c)
  {
    hide Dot, Times, Plus;
    DotLaws(Times(m, v), Times(n, w), c, 0.0);
    DotLaws(v, v, c, m);
    DotLaws(w, w, c, n);
  }

  /** Coordinates that sum to one describe a point of the plane. */
  lemma CoordinatesInPlane(u: Vec3, t: Triangle)
    requires u.x + u.y + u.z == 1.0
    ensures BarycentricToCartesian(u, t) == InPlane(t, u.y, u.z)
  {
    AffineComponent(u, t.a.x, t.b.x, t.c.x);
    AffineComponent(u, t.a.y, t.b.y, t.c.y);
    AffineComponent(u, t.a.z, t.b.z, t.c.z);
  }

  lemma AffineComponent(u: Vec3, a: real, b: real, c: real)
    requires u.x + u.y + u.z == 1.0
    ensures u.x * a + u.y * b + u.z * c == a + (u.y * (b - a) + u.z * (c - a))
  {
    assert u.x * a == (1.0 - u.y - u.z) * a;
  }

  // ----- the linear system -----

  /** Cramer's rule for the two coordinates. */
  lemma Cramer(d00: real, d01: real, d11: real, e0: real, e1: real, den: real)
    requires den == d00 * d11 - d01 * d01 && den != 0.0
    ensures var m, n := (d11 * e0 - d01 * e1) * (1.0 / den), (d00 * e1 - d01 * e0) * (1.0 / den);
            m * d00 + n * d01 == e0 && m * d01 + n * d11 == e1
  {
    var inv := 1.0 / den;
    assert den * inv == 1.0;
    Regroup(d11 * e0 - d01 * e1, d00 * e1 - d01 * e0, d00, d01, inv);
    assert (d11 * e0 - d01 * e1) * d00 + (d00 * e1 - d01 * e0) * d01 == den * e0;
    Regroup(d11 * e0 - d01 * e1, d00 * e1 - d01 * e0, d01, d11, inv);
    assert (d11 * e0 - d01 * e1) * d01 + (d00 * e1 - d01 * e0) * d11 == den * e1;
  }

  lemma Regroup(p: real, q: real, r: real, s: real, inv: real)
    ensures p * inv * r + q * inv * s == (p * r + q * s) * inv
  {}

  lemma CramerUnique(d00: real, d01: real, d11: real, m: real, n: real, den: real)
    requires den == d00 * d11 - d01 * d01 && den != 0.0
    ensures var e0, e1 := m * d00 + n * d01, m * d01 + n * d11;
            (d11 * e0 - d01 * e1) * (1.0 / den) == m && (d00 * e1 - d01 * e0) * (1.0 / den) == n
  {
    var e0, e1 := m * d00 + n * d01, m * d01 + n * d11;
    assert d11 * e0 - d01 * e1 == m * den;
    assert d00 * e1 - d01 * e0 == n * den;
    assert m * den * (1.0 / den) == m && n * den * (1.0 / den) == n;
  }

  lemma CombinationSymmetric(v: Vec3, w: Vec3, m: real, n: real)
    ensures var e, d00, d01, d11 := Plus(Times(m, v), Times(n, w)), Dot(v, v), Dot(v, w), Dot(w, w);
            Dot(e, v) == m * d00 + n * d01 && Dot(e, w) == m * d01 + n * d11
  {
    hide Dot, Times, Plus;
    Combination(v, w, m, n, v);
    Combination(v, w, m, n, w);
    DotLaws(v, w, v, 0.0);
  }

  /** Coordinates of a point of the plane: the two factors along the edges are recovered. */
  lemma PlaneToBarycentric(t: Triangle, m: real, n: real)
    requires Denominator(t) != 0.0
    ensures CartesianToBarycentric(InPlane(t, m, n), t) == Vec3(1.0 - m - n, m, n)
  {
    var v, w := t.Edge0(), t.Edge1();
    OffsetInPlane(t, m, n);
    hide Dot, Times, Plus, Minus, InPlane;
    CombinationSymmetric(v, w, m, n);
    CramerUnique(Dot(v, v), Dot(v, w), Dot(w, w), m, n, Denominator(t));
  }

  lemma OffsetInPlane(t: Triangle, m: real, n: real)
    ensures Minus(InPlane(t, m, n), t.a) == Plus(Times(m, t.Edge0()), Times(n, t.Edge1()))
  {
    hide Times;
  }

  /** Coordinates that sum to one come back unchanged from a trip through space. */
  lemma CoordinatesRoundTrip(u: Vec3, t: Triangle)
    requires Denominator(t) != 0.0 && u.x + u.y + u.z == 1.0
    ensures CartesianToBarycentric(BarycentricToCartesian(u, t), t) == u
  {
    hide *;
    CoordinatesInPlane(u, t);
    PlaneToBarycentric(t, u.y, u.z);
  }

  lemma CoordinatesSumToOne(pt: Vec3, t: Triangle)
    requires Denominator(t) != 0.0
    ensures var u := CartesianToBarycentric(pt, t); u.x + u.y + u.z == 1.0
  {
    hide Dot;
  }

  /** Points of the plane come back unchanged from a trip through coordinates. */
  lemma PlaneRoundTrip(t: Triangle, m: real, n: real)
    requires Denominator(t) != 0.0
    ensures BarycentricToCartesian(CartesianToBarycentric(InPlane(t, m, n), t), t) == InPlane(t, m, n)
  {
    hide *;
    PlaneToBarycentric(t, m, n);
    CoordinatesInPlane(Vec3(1.0 - m - n, m, n), t);
  }

  // ----- points off the plane -----

  /** The coordinates of any point are those of its foot on the plane: what is left is orthogonal to both edges. */
  lemma OrthogonalProjection(pt: Vec3, t: Triangle)
    requires Denominator(t) != 0.0
    ensures var u := CartesianToBarycentric(pt, t);
            var rest := Minus(pt, BarycentricToCartesian(u, t));
            && BarycentricToCartesian(u, t) == InPlane(t, u.y, u.z)
            && Dot(rest, t.Edge0()) == 0.0 && Dot(rest, t.Edge1()) == 0.0
  {
    var u, v, w := CartesianToBarycentric(pt, t), t.Edge0(), t.Edge1();
    CoordinatesSumToOne(pt, t);
    CoordinatesInPlane(u, t);
    var e := Plus(Times(u.y, v), Times(u.z, w));
    RestOf(pt, t, u.y, u.z);
    CoordinatesSolve(pt, t);
    hide Dot, Times, Plus, Minus, InPlane, BarycentricToCartesian, CartesianToBarycentric;
    CombinationSymmetric(v, w, u.y, u.z);
    var v2 := Minus(pt, t.a);
    DotLaws(v2, e, v, 0.0);
    DotLaws(v2, e, w, 0.0);
  }

  lemma CoordinatesSolve(pt: Vec3, t: Triangle)
    requires Denominator(t) != 0.0
    ensures var u, v, w, v2 := CartesianToBarycentric(pt, t), t.Edge0(), t.Edge1(), Minus(pt, t.a);
            && u.y * Dot(v, v) + u.z * Dot(v, w) == Dot(v2, v)
            && u.y * Dot(v, w) + u.z * Dot(w, w) == Dot(v2, w)
  {
    hide Dot, Minus;
    var v, w, v2 := t.Edge0(), t.Edge1(), Minus(pt, t.a);
    Cramer(Dot(v, v), Dot(v, w), Dot(w, w), Dot(v2, v), Dot(v2, w), Denominator(t));
  }

  lemma RestOf(pt: Vec3, t: Triangle, m: real, n: real)
    ensures Minus(pt, InPlane(t, m, n)) == Minus(Minus(pt, t.a), Plus(Times(m, t.Edge0()), Times(n, t.Edge1())))
  {
    hide Times;
  }

  function SquaredDistance(a: Vec3, b: Vec3): real {
    Dot(Minus(a, b), Minus(a, b))
  }

  /** So the foot is the point of the plane nearest to pt. */
  lemma NearestInPlane(pt: Vec3, t: Triangle, m: real, n: real)
    requires Denominator(t) != 0.0
    ensures SquaredDistance(pt, BarycentricToCartesian(CartesianToBarycentric(pt, t), t))
         <= SquaredDistance(pt, InPlane(t, m, n))
  {
    var u, v, w := CartesianToBarycentric(pt, t), t.Edge0(), t.Edge1();
    var foot, q := InPlane(t, u.y, u.z), InPlane(t, m, n);
    OrthogonalProjection(pt, t);
    PlaneDifference(t, u.y, u.z, m, n);
    var rest, step := Minus(pt, foot), Plus(Times(u.y - m, v), Times(u.z - n, w));
    Detour(pt, foot, q);
    hide Dot, Times, Plus, Minus, InPlane, BarycentricToCartesian;
    Combination(v, w, u.y - m, u.z - n, rest);
    DotLaws(v, rest, rest, 0.0);
    DotLaws(w, rest, rest, 0.0);
    Pythagoras(rest, step);
  }

  lemma PlaneDifference(t: Triangle, m: real, n: real, m': real, n': real)
    ensures Minus(InPlane(t, m, n), InPlane(t, m', n')) == Plus(Times(m - m', t.Edge0()), Times(n - n', t.Edge1()))
  {
    DifferenceComponent(m, m', n, n', t.Edge0().x, t.Edge1().x);
    DifferenceComponent(m, m', n, n', t.Edge0().y, t.Edge1().y);
    DifferenceComponent(m, m', n, n', t.Edge0().z, t.Edge1().z);
  }

  lemma DifferenceComponent(m: real, m': real, n: real, n': real, v: real, w: real)
    ensures (m * v + n * w) - (m' * v + n' * w) == (m - m') * v + (n - n') * w
  {}

  lemma Detour(pt: Vec3, foot: Vec3, q: Vec3)
    ensures Minus(pt, q) == Plus(Minus(pt, foot), Minus(foot, q))
  {}

  /** Adding an orthogonal vector makes no vector shorter. */
  lemma Pythagoras(a: Vec3, b: Vec3)
    requires Dot(b, a) == 0.0
    ensures Dot(Plus(a, b), Plus(a, b)) >= Dot(a, a)
  {
    hide Dot, Plus;
    var s := Plus(a, b);
    DotLaws(a, b, s, 0.0);
    DotLaws(a, b, a, 0.0);
    DotLaws(a, b, b, 0.0);
    DotLaws(s, a, a, 0.0);
    DotLaws(s, b, b, 0.0);
    DotSelf(b);
  }

  // ----- the denominator -----

  /** One edge is a multiple of the other, or both are. */
  ghost predicate Dependent(v: Vec3, w: Vec3) {
    exists a: real, b: real :: (a != 0.0 || b != 0.0) && Plus(Times(a, v), Times(b, w)) == ZERO
  }

  /** The denominator is the square of twice the triangle's area. */
  lemma GramIsCrossSquared(v: Vec3, w: Vec3)
    ensures Gram(v, w) == Dot(Cross(v, w), Cross(v, w)) >= 0.0
  {
    DotSelf(Cross(v, w));
  }

  /** The denominator vanishes exactly for triangles whose edges are dependent. */
  lemma DenominatorIff(t: Triangle)
    ensures Denominator(t) == 0.0 <==> Dependent(t.Edge0(), t.Edge1())
  {
    hide Gram;
    var v, w := t.Edge0(), t.Edge1();
    if Dependent(v, w) {
      DependentHasNoArea(v, w);
    }
    if Gram(v, w) == 0.0 {
      NoAreaIsDependent(v, w);
    }
  }

  lemma DependentHasNoArea(v: Vec3, w: Vec3)
    requires Dependent(v, w)
    ensures Gram(v, w) == 0.0
  {
    var a: real, b: real :| (a != 0.0 || b != 0.0) && Plus(Times(a, v), Times(b, w)) == ZERO;
    CombinationSymmetric(v, w, a, b);
    var d00, d01, d11 := Dot(v, v), Dot(v, w), Dot(w, w);
    assert a * d00 + b * d01 == 0.0 && a * d01 + b * d11 == 0.0;
    hide Dot, Plus, Times;
    GramTimes(a, b, d00, d01, d11);
  }

  lemma GramTimes(a: real, b: real, d00: real, d01: real, d11: real)
    requires a * d00 + b * d01 == 0.0 && a * d01 + b * d11 == 0.0 && (a != 0.0 || b != 0.0)
    ensures d00 * d11 - d01 * d01 == 0.0
  {
    var g := d00 * d11 - d01 * d01;
    assert a * g == d11 * (a * d00) - d01 * (a * d01);
    assert b * g == d00 * (b * d11) - d01 * (b * d01);
    assert a * g == 0.0 && b * g == 0.0;
  }

  lemma NoAreaIsDependent(v: Vec3, w: Vec3)
    requires Gram(v, w) == 0.0
    ensures Dependent(v, w)
  {
    GramIsCrossSquared(v, w);
    DotSelf(Cross(v, w));
    hide Dot;
    assert v.y * w.z == v.z * w.y && v.z * w.x == v.x * w.z && v.x * w.y == v.y * w.x;
    if v == ZERO {
      Dependence(v, w, 1.0, 0.0);
    } else if v.x != 0.0 {
      Dependence(v, w, w.x, -v.x);
    } else if v.y != 0.0 {
      Dependence(v, w, w.y, -v.y);
    } else {
      Dependence(v, w, w.z, -v.z);
    }
  }

  lemma Dependence(v: Vec3, w: Vec3, a: real, b: real)
    requires a != 0.0 || b != 0.0
    requires a * v.x + b * w.x == 0.0 && a * v.y + b * w.y == 0.0 && a * v.z + b * w.z == 0.0
    ensures Dependent(v, w)
  {
    assert Plus(Times(a, v), Times(b, w)) == ZERO;
  }
}
