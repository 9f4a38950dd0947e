/** Sampling a Bezier segment by repeated interpolation, with the integer
    truncation the interpolation step applies to both of its end points. */
module BezierSamples {
  import opened Geometry
  import opened RealSums
  import opened Tridiagonal
  import opened CBSpline

  function Lerp(a: real, b: real, t: real): real {
    a + Mul(b - a, t)
  }

  /** The interpolation step: its end points arrive as ints. */
  function GetPt(n1: int, n2: int, percent: real): real {
    var diff := n2 - n1;
    Lerp(n1 as real, n1 as real + diff as real, percent)
  }

  function Step(a: real, b: real, t: real): real {
    GetPt(Trunc(a), Trunc(b), t)
  }

  /** One coordinate of the sample at t: three rounds of truncating interpolation. */
  function Sample(c: Cubic, t: real): real {
    var a, b, d := Step(c.p0, c.p1, t), Step(c.p1, c.p2, t), Step(c.p2, c.p3, t);
    Step(Step(a, b, t), Step(b, d, t), t)
  }

  lemma LerpForm(a: real, b: real, t: real)
    ensures Lerp(a, b, t) == (1.0 - t) * a + t * b
  {}

  lemma ThreeRounds(c: Cubic, s: real, t: real)
    ensures var q0, q1, q2 := s * c.p0 + t * c.p1, s * c.p1 + t * c.p2, s * c.p2 + t * c.p3;
            c.Bernstein(s, t) == s * (s * q0 + t * q1) + t * (s * q1 + t * q2)
  {}

  /** Without truncation the three rounds are de Casteljau's algorithm. */
  lemma DeCasteljau(c: Cubic, t: real)
    ensures c.At(t) == Lerp(Lerp(Lerp(c.p0, c.p1, t), Lerp(c.p1, c.p2, t), t),
                            Lerp(Lerp(c.p1, c.p2, t), Lerp(c.p2, c.p3, t), t), t)
  {
    hide Lerp, Cubic.Bernstein;
    var q0, q1, q2 := Lerp(c.p0, c.p1, t), Lerp(c.p1, c.p2, t), Lerp(c.p2, c.p3, t);
    LerpForm(c.p0, c.p1, t);
    LerpForm(c.p1, c.p2, t);
    LerpForm(c.p2, c.p3, t);
    LerpForm(q0, q1, t);
    LerpForm(q1, q2, t);
    LerpForm(Lerp(q0, q1, t), Lerp(q1, q2, t), t);
    ThreeRounds(c, 1.0 - t, t);
  }

  lemma TruncNear(x: real)
    ensures Abs(Trunc(x) as real - x) < 1.0
    ensures Abs(Trunc(x) as real) <= Abs(x)
  {}

  /** m is x without its fraction. */
  predicate WithoutFraction(x: real, m: int) {
    Abs(m as real) <= Abs(x) && Abs(x - m as real) < 1.0
  }

  /** One step goes straight from the one end without its fraction to the other, and keeps its own fraction. */
  lemma StepIs(a: real, b: real, t: real, m: int, n: int)
    requires WithoutFraction(a, m) && WithoutFraction(b, n)
    ensures Step(a, b, t) == (1.0 - t) * m as real + t * n as real
  {
    TruncIs(a, m);
    TruncIs(b, n);
    LerpForm(m as real, n as real, t);
    hide Lerp, Trunc;
  }

  lemma TruncIs(x: real, m: int)
    requires WithoutFraction(x, m)
    ensures Trunc(x) == m
  {}

  lemma StepAtStart(a: real, b: real)
    ensures Step(a, b, 0.0) == Trunc(a) as real
  {
    hide Trunc;
  }

  lemma TruncAgain(m: int)
    ensures Trunc(m as real) == m
  {}

  lemma NonNegativeProduct(w: real, x: real)
    requires w >= 0.0 && x >= 0.0
    ensures w * x >= 0.0
  {}

  lemma LerpBelow(x: real, y: real, t: real, top: real)
    requires 0.0 <= t <= 1.0 && x <= top && y <= top
    ensures Lerp(x, y, t) <= top
    ensures Lerp(-x, -y, t) == -Lerp(x, y, t)
  {
    NonNegativeProduct(t, top - y);
    NonNegativeProduct(1.0 - t, top - x);
    assert Lerp(x, y, t) == top - (1.0 - t) * (top - x) - t * (top - y);
  }

  lemma LerpDifference(u: real, v: real, a: real, b: real, t: real)
    ensures Lerp(u, v, t) - Lerp(a, b, t) == Lerp(u - a, v - b, t)
  {}

  /** Interpolating points that are within e of a and b gives a point within e of the interpolation of a and b. */
  lemma LerpNear(u: real, v: real, a: real, b: real, t: real, e: real)
    requires 0.0 <= t <= 1.0 && Abs(u - a) < e && Abs(v - b) < e
    ensures Abs(Lerp(u, v, t) - Lerp(a, b, t)) < e
  {
    hide Lerp;
    var d, f := u - a, v - b;
    LerpDifference(u, v, a, b, t);
    LerpBelow(d, f, t, if d < f then f else d);
    LerpBelow(-d, -f, t, if -d < -f then -f else -d);
  }

  lemma StepNear(u: real, v: real, a: real, b: real, t: real, e: real)
    requires 0.0 <= t <= 1.0 && Abs(u - a) <= e && Abs(v - b) <= e
    ensures Abs(Step(u, v, t) - Lerp(a, b, t)) < e + 1.0
  {
    hide Lerp;
    TruncNear(u);
    TruncNear(v);
    LerpNear(Trunc(u) as real, Trunc(v) as real, a, b, t, e + 1.0);
  }

  /** Every sample lies within three units of the exact curve point. */
  lemma SampleNear(c: Cubic, t: real)
    requires 0.0 <= t <= 1.0
    ensures Abs(Sample(c, t) - c.At(t)) < 3.0
  {
    hide Step, Lerp, Cubic.At;
    var a, b, d := Step(c.p0, c.p1, t), Step(c.p1, c.p2, t), Step(c.p2, c.p3, t);
    var a', b', d' := Lerp(c.p0, c.p1, t), Lerp(c.p1, c.p2, t), Lerp(c.p2, c.p3, t);
    StepNear(c.p0, c.p1, c.p0, c.p1, t, 0.0);
    StepNear(c.p1, c.p2, c.p1, c.p2, t, 0.0);
    StepNear(c.p2, c.p3, c.p2, c.p3, t, 0.0);
    StepNear(a, b, a', b', t, 1.0);
    StepNear(b, d, b', d', t, 1.0);
    StepNear(Step(a, b, t), Step(b, d, t), Lerp(a', b', t), Lerp(b', d', t), t, 2.0);
    DeCasteljau(c, t);
  }

  lemma StepBound(u: real, v: real, t: real, m: real)
    requires 0.0 <= t <= 1.0 && Abs(u) <= m && Abs(v) <= m
    ensures Abs(Step(u, v, t)) <= m
  {
    TruncNear(u);
    TruncNear(v);
    ConvexBound(Trunc(u) as real, Trunc(v) as real, t, m);
  }

  lemma ConvexBound(x: real, y: real, t: real, m: real)
    requires 0.0 <= t <= 1.0 && Abs(x) <= m && Abs(y) <= m
    ensures Abs(Lerp(x, y, t)) <= m
  {
    hide Lerp;
    LerpBelow(x, y, t, m);
    LerpBelow(-x, -y, t, m);
  }

  /** A sample never exceeds the largest control coordinate. */
  lemma SampleBound(c: Cubic, t: real, m: real)
    requires 0.0 <= t <= 1.0
    requires Abs(c.p0) <= m && Abs(c.p1) <= m && Abs(c.p2) <= m && Abs(c.p3) <= m
    ensures Abs(Sample(c, t)) <= m
  {
    hide Step;
    var a, b, d := Step(c.p0, c.p1, t), Step(c.p1, c.p2, t), Step(c.p2, c.p3, t);
    StepBound(c.p0, c.p1, t, m);
    StepBound(c.p1, c.p2, t, m);
    StepBound(c.p2, c.p3, t, m);
    StepBound(a, b, t, m);
    StepBound(b, d, t, m);
    StepBound(Step(a, b, t), Step(b, d, t), t, m);
  }

  /** The number of samples a segment of the given length gets. */
  function SampleCount(length: real, interval: real): nat
    requires length >= 0.0 && interval > 0.0
  {
    assert length / interval >= 0.0 by { DivNonNegative(length, interval); }
    Trunc(length / interval)
  }

  /** As many samples as whole intervals fit into the length. */
  lemma SampleCountIs(length: real, interval: real)
    requires length >= 0.0 && interval > 0.0
    ensures var n := SampleCount(length, interval) as real;
            Mul(n, interval) <= length < Mul(n + 1.0, interval)
  {
    var q, n := length / interval, SampleCount(length, interval) as real;
    DivNonNegative(length, interval);
    assert Mul(q, interval) == length;
    assert n <= q < n + 1.0;
    hide Mul, SampleCount;
    ScaleOrder(interval, n, q);
    ScaleOrder(interval, q, n + 1.0);
  }

  lemma ScaleOrder(interval: real, x: real, y: real)
    requires interval > 0.0 && x <= y
    ensures Mul(x, interval) <= Mul(y, interval) && (x < y ==> Mul(x, interval) < Mul(y, interval))
  {
    var d := y - x;
    assert d * interval == y * interval - x * interval;
  }

  lemma DivNonNegative(x: real, y: real)
    requires x >= 0.0 && y > 0.0
    ensures x / y >= 0.0
  {}

  /** The curve parameter of sample i of n. */
  function Parameter(i: nat, n: nat): (t: real)
    requires i < n
    ensures 0.0 <= t <= 1.0
  {
    ParameterRange(i, n);
    i as real * (1.0 / n as real)
  }

  lemma ParameterRange(i: nat, n: nat)
    requires i < n
    ensures 0.0 <= i as real * (1.0 / n as real) <= 1.0
  {
    var step := 1.0 / n as real;
    assert step * n as real == 1.0;
    assert i as real * step <= n as real * step;
  }

  /** The first sample belongs to the start of the curve and neighbours are one n-th apart. */
  lemma ParameterSteps(i: nat, n: nat)
    requires i < n
    ensures Parameter(0, n) == 0.0
    ensures i + 1 < n ==> Parameter(i + 1, n) - Parameter(i, n) == 1.0 / n as real
  {
    var step := 1.0 / n as real;
    assert (i + 1) as real * step == i as real * step + step;
  }

  /** The parameter of sample i is i n-ths. */
  lemma ParameterIs(i: nat, n: nat, t: real)
    requires i < n && t * n as real == i as real
    ensures Parameter(i, n) == t
  {
    var step := 1.0 / n as real;
    assert step * n as real == 1.0;
    assert t * n as real * step == t * (n as real * step);
  }

  /** Sample i of n lies within three units of the exact point at i n-ths of the curve; the first one is the start
      point without its fractions. */
  ghost predicate EvenlySampled(s: BezierCurve, points: seq<Vec2>, n: nat) {
    && |points| == n
    && (n > 0 ==> WithoutFraction(s.p0.x, points[0].x.Floor) && WithoutFraction(s.p0.y, points[0].y.Floor)
                  && points[0] == Vec2(points[0].x.Floor as real, points[0].y.Floor as real))
    && forall i, t: real | 0 <= i < n && t * n as real == i as real ::
         Abs(points[i].x - s.X().At(t)) < 3.0 && Abs(points[i].y - s.Y().At(t)) < 3.0
  }

  lemma SamplesAreEven(s: BezierCurve, points: seq<Vec2>, n: nat)
    requires Samples(s, n, points)
    ensures EvenlySampled(s, points, n)
  {
    hide Parameter, Sample, Cubic.At;
    forall i, t: real | 0 <= i < n && t * n as real == i as real
      ensures Abs(points[i].x - s.X().At(t)) < 3.0 && Abs(points[i].y - s.Y().At(t)) < 3.0
    {
      ParameterIs(i, n, t);
    }
    if n > 0 {
      ParameterSteps(0, n);
      SampleAtStart(s.X());
      SampleAtStart(s.Y());
      TruncNear(s.p0.x);
      TruncNear(s.p0.y);
    }
  }

  lemma SampleAtStart(c: Cubic)
    ensures Sample(c, 0.0) == Trunc(c.p0) as real
  {
    hide Step, Trunc;
    var a, b, d := Step(c.p0, c.p1, 0.0), Step(c.p1, c.p2, 0.0), Step(c.p2, c.p3, 0.0);
    StepAtStart(c.p0, c.p1);
    StepAtStart(a, b);
    StepAtStart(Step(a, b, 0.0), Step(b, d, 0.0));
    TruncAgain(Trunc(c.p0));
  }

  function PointAt(s: BezierCurve, t: real): Vec2 {
    Vec2(Sample(s.X(), t), Sample(s.Y(), t))
  }

  ghost predicate Near(p: Vec2, s: BezierCurve, t: real) {
    Abs(p.x - s.X().At(t)) < 3.0 && Abs(p.y - s.Y().At(t)) < 3.0
  }

  /** n samples at equal parameter steps, each within three units of the exact curve point. */
  ghost predicate Samples(s: BezierCurve, n: nat, points: seq<Vec2>) {
    && |points| == n
    && forall i | 0 <= i < n ::
         points[i] == PointAt(s, Parameter(i, n)) && Near(points[i], s, Parameter(i, n))
  }

  lemma PointNear(s: BezierCurve, t: real)
    requires 0.0 <= t <= 1.0
    ensures Near(PointAt(s, t), s, t)
  {
    hide Sample, Cubic.At;
    SampleNear(s.X(), t);
    SampleNear(s.Y(), t);
  }

  /** Appends the samples of one segment; totalLength is the length of its control polygon. */
  method GetSamplePoints(s: BezierCurve, totalLength: real, sampleInterval: real, nSamplePoints: seq<Vec2>)
    returns (result: seq<Vec2>)
    requires totalLength >= 0.0 && sampleInterval > 0.0
    ensures nSamplePoints <= result
    ensures Samples(s, SampleCount(totalLength, sampleInterval), result[|nSamplePoints|..])
    ensures EvenlySampled(s, result[|nSamplePoints|..], SampleCount(totalLength, sampleInterval))
  {
    hide Step, Near, Parameter, EvenlySampled;
    result := nSamplePoints;
    var aNumOfPts := SampleCount(totalLength, sampleInterval);
    ghost var added: seq<Vec2> := [];
    for i := 0 to aNumOfPts
      invariant |added| == i && result == nSamplePoints + added
      invariant forall p | 0 <= p < i ::
                  added[p] == PointAt(s, Parameter(p, aNumOfPts)) && Near(added[p], s, Parameter(p, aNumOfPts))
    {
      var t := Parameter(i, aNumOfPts);
      var xa, ya := Step(s.p0.x, s.p1.x, t), Step(s.p0.y, s.p1.y, t);
      var xb, yb := Step(s.p1.x, s.p2.x, t), Step(s.p1.y, s.p2.y, t);
      var xc, yc := Step(s.p2.x, s.p3.x, t), Step(s.p2.y, s.p3.y, t);
      var xxa, yya := Step(xa, xb, t), Step(ya, yb, t);
      var xxb, yyb := Step(xb, xc, t), Step(yb, yc, t);
      var point := Vec2(Step(xxa, xxb, t), Step(yya, yyb, t));
      assert point == PointAt(s, t);
      PointNear(s, t);
      result := result + [point];
      added := added + [point];
    }
    assert result[|nSamplePoints|..] == added;
    SamplesAreEven(s, added, aNumOfPts);
  }

  /** Samples of a natural spline stay within five times the largest knot coordinate. */
  lemma SplineSampleBound(k: seq<Vec2>, s: seq<BezierCurve>, j: nat, n: nat, points: seq<Vec2>, m: real)
    requires IsNaturalSpline(k, s) && j < |s| && Samples(s[j], n, points)
    requires forall i | 0 <= i < |k| :: Abs(k[i].x) <= m && Abs(k[i].y) <= m
    ensures forall i | 0 <= i < |points| :: Abs(points[i].x) <= 5.0 * m && Abs(points[i].y) <= 5.0 * m
  {
    hide Sample, IsNatural, Near, Parameter;
    NaturalShape(Xs(k), XCubics(s));
    NaturalShape(Ys(k), YCubics(s));
    ControlBound(Xs(k), XCubics(s), m);
    ControlBound(Ys(k), YCubics(s), m);
    var x, y := s[j].X(), s[j].Y();
    assert Xs(k)[j] == k[j].x && Xs(k)[j + 1] == k[j + 1].x && Ys(k)[j] == k[j].y && Ys(k)[j + 1] == k[j + 1].y;
    assert x == XCubics(s)[j] && y == YCubics(s)[j];
    assert 0.0 <= Abs(k[j].x) <= m && Abs(k[j + 1].x) <= m && Abs(k[j].y) <= m && Abs(k[j + 1].y) <= m;
    forall i | 0 <= i < |points| ensures Abs(points[i].x) <= 5.0 * m && Abs(points[i].y) <= 5.0 * m {
      var t := Parameter(i, n);
      assert points[i] == PointAt(s[j], t);
      SampleBound(x, t, 5.0 * m);
      SampleBound(y, t, 5.0 * m);
    }
  }
}
