/** The interpolating curve of the pen tool: a chain of cubic Bezier segments
    whose inner control points solve a tridiagonal system. */
module CBSpline {
  import opened Geometry
  import opened RealSums
  import opened DenseMatrix
  import opened Tridiagonal

  /** One coordinate of a Bezier segment, with its value and first two derivatives at t. */
  datatype Cubic = Cubic(p0: real, p1: real, p2: real, p3: real) {
    function Bernstein(s: real, t: real): real {
      s * s * s * p0 + 3.0 * s * s * t * p1 + 3.0 * s * t * t * p2 + t * t * t * p3
    }

    function At(t: real): real {
      Bernstein(1.0 - t, t)
    }

    function Slope(t: real): real {
      3.0 * ((1.0 - t) * (1.0 - t) * (p1 - p0) + 2.0 * (1.0 - t) * t * (p2 - p1) + t * t * (p3 - p2))
    }

    function Curvature(t: real): real {
      6.0 * ((1.0 - t) * (p2 - 2.0 * p1 + p0) + t * (p3 - 2.0 * p2 + p1))
    }
  }

  /** The Taylor expansion at t is exact, so Slope and Curvature are the derivatives of At. */
  lemma CubicTaylor(c: Cubic, t: real, h: real)
    ensures c.At(t + h) == c.At(t) + h * c.Slope(t) + h * h * (c.Curvature(t) / 2.0)
                           + h * h * h * (c.p3 - 3.0 * c.p2 + 3.0 * c.p1 - c.p0)
  {}

  datatype BezierCurve = BezierCurve(p0: Vec2, p1: Vec2, p2: Vec2, p3: Vec2) {
    function X(): Cubic {
      Cubic(p0.x, p1.x, p2.x, p3.x)
    }

    function Y(): Cubic {
      Cubic(p0.y, p1.y, p2.y, p3.y)
    }
  }

  function Xs(k: seq<Vec2>): (r: seq<real>)
    ensures |r| == |k|
  {
    seq(|k|, i requires 0 <= i < |k| => k[i].x)
  }

  function Ys(k: seq<Vec2>): (r: seq<real>)
    ensures |r| == |k|
  {
    seq(|k|, i requires 0 <= i < |k| => k[i].y)
  }

  function XCubics(s: seq<BezierCurve>): (r: seq<Cubic>)
    ensures |r| == |s|
  {
    seq(|s|, i requires 0 <= i < |s| => s[i].X())
  }

  function YCubics(s: seq<BezierCurve>): (r: seq<Cubic>)
    ensures |r| == |s|
  {
    seq(|s|, i requires 0 <= i < |s| => s[i].Y())
  }

  // ----- natural splines, one coordinate at a time -----

  /** c interpolates k, is twice continuously differentiable at every knot and has no curvature at its ends. */
  ghost predicate IsNatural(k: seq<real>, c: seq<Cubic>) {
    && 2 <= |k| && |c| == |k| - 1
    && (forall i | 0 <= i < |c| :: c[i].At(0.0) == k[i] && c[i].At(1.0) == k[i + 1])
    && (forall i | 0 <= i < |c| - 1 :: c[i].Slope(1.0) == c[i + 1].Slope(0.0))
    && (forall i | 0 <= i < |c| - 1 :: c[i].Curvature(1.0) == c[i + 1].Curvature(0.0))
    && c[0].Curvature(0.0) == 0.0 && c[|c| - 1].Curvature(1.0) == 0.0
  }

  ghost predicate IsNaturalSpline(k: seq<Vec2>, s: seq<BezierCurve>) {
    IsNatural(Xs(k), XCubics(s)) && IsNatural(Ys(k), YCubics(s))
  }

  lemma CubicEnds(c: Cubic)
    ensures c.At(0.0) == c.p0 && c.At(1.0) == c.p3
    ensures c.Slope(0.0) == 3.0 * (c.p1 - c.p0) && c.Slope(1.0) == 3.0 * (c.p3 - c.p2)
    ensures c.Curvature(0.0) == 6.0 * (c.p2 - 2.0 * c.p1 + c.p0)
    ensures c.Curvature(1.0) == 6.0 * (c.p3 - 2.0 * c.p2 + c.p1)
  {}

  /** IsNatural in terms of the control values. */
  ghost predicate Joined(k: seq<real>, c: seq<Cubic>) {
    && 2 <= |k| && |c| == |k| - 1
    && (forall i | 0 <= i < |c| :: c[i].p0 == k[i] && c[i].p3 == k[i + 1])
    && (forall i | 0 <= i < |c| - 1 :: c[i].p2 + c[i + 1].p1 == 2.0 * k[i + 1])
    && (forall i | 0 <= i < |c| - 1 :: c[i].p1 - 2.0 * c[i].p2 == c[i + 1].p2 - 2.0 * c[i + 1].p1)
    && c[0].p2 - 2.0 * c[0].p1 + k[0] == 0.0
    && k[|c|] - 2.0 * c[|c| - 1].p2 + c[|c| - 1].p1 == 0.0
  }

  lemma NaturalIsJoined(k: seq<real>, c: seq<Cubic>)
    ensures IsNatural(k, c) <==> Joined(k, c)
  {
    forall i | 0 <= i < |c|
      ensures c[i].At(0.0) == c[i].p0 && c[i].At(1.0) == c[i].p3
      ensures c[i].Slope(0.0) == 3.0 * (c[i].p1 - c[i].p0) && c[i].Slope(1.0) == 3.0 * (c[i].p3 - c[i].p2)
      ensures c[i].Curvature(0.0) == 6.0 * (c[i].p2 - 2.0 * c[i].p1 + c[i].p0)
      ensures c[i].Curvature(1.0) == 6.0 * (c[i].p3 - 2.0 * c[i].p2 + c[i].p1)
    {
      CubicEnds(c[i]);
    }
    hide Cubic.At, Cubic.Slope, Cubic.Curvature;
    if IsNatural(k, c) {
      assert Joined(k, c);
    }
    if Joined(k, c) {
      assert IsNatural(k, c);
    }
  }

  // ----- the linear system -----

  /** The matrix UpdateCurve fills in, for n segments. */
  function SplineEntry(n: nat): (int, int) -> real {
    (i, j) =>
      if i == 0 then (if j == 0 then 2.0 else if j == 1 then 1.0 else 0.0)
      else if i == n - 1 then (if j == n - 2 then 2.0 else if j == n - 1 then 7.0 else 0.0)
      else if j == i then 4.0 else if j == i - 1 || j == i + 1 then 1.0 else 0.0
  }

  function SplineRhs(k: seq<real>): (b: seq<real>)
    requires 3 <= |k|
    ensures |b| == |k| - 1
  {
    var n := |k| - 1;
    seq(n, i requires 0 <= i < n =>
      if i == 0 then 2.0 * k[1] + k[0] else if i == n - 1 then 8.0 * k[i] + k[n] else 4.0 * k[i] + 2.0 * k[i + 1])
  }

  function Firsts(c: seq<Cubic>): (r: seq<real>)
    ensures |r| == |c|
  {
    seq(|c|, i requires 0 <= i < |c| => c[i].p1)
  }

  /** The second control value of segment i, from the knots and the first control values. */
  function Second(k: seq<real>, x: seq<real>, i: nat): real
    requires |x| == |k| - 1 && i < |x|
  {
    if i == |x| - 1 then (k[i + 1] + x[i]) / 2.0 else 2.0 * k[i + 1] - x[i + 1]
  }

  /** Row i of the system, spelled out. */
  ghost predicate SystemRow(k: seq<real>, x: seq<real>, i: nat)
    requires 3 <= |k| && |x| == |k| - 1 && i < |x|
  {
    if i == 0 then 2.0 * x[0] + x[1] == 2.0 * k[1] + k[0]
    else if i == |x| - 1 then 2.0 * x[i - 1] + 7.0 * x[i] == 8.0 * k[i] + k[i + 1]
    else x[i - 1] + 4.0 * x[i] + x[i + 1] == 4.0 * k[i] + 2.0 * k[i + 1]
  }

  lemma SystemRows(k: seq<real>, x: seq<real>)
    requires 3 <= |k| && |x| == |k| - 1
    ensures Solves(SplineEntry(|x|), SplineRhs(k), x) <==> forall i | 0 <= i < |x| :: SystemRow(k, x, i)
  {
    forall i | 0 <= i < |x|
      ensures RowValue(SplineEntry(|x|), x, i) == SplineRhs(k)[i] <==> SystemRow(k, x, i)
    {
      SystemRowAt(k, x, i);
    }
    hide RowValue, SystemRow;
  }

  lemma SystemRowAt(k: seq<real>, x: seq<real>, i: nat)
    requires 3 <= |k| && |x| == |k| - 1 && i < |x|
    ensures RowValue(SplineEntry(|x|), x, i) == SplineRhs(k)[i] <==> SystemRow(k, x, i)
  {}

  ghost predicate SecondsFit(k: seq<real>, c: seq<Cubic>) {
    |c| == |k| - 1 && forall i | 0 <= i < |c| :: c[i].p2 == Second(k, Firsts(c), i)
  }

  lemma JoinedSolves(k: seq<real>, c: seq<Cubic>)
    requires 3 <= |k| && Joined(k, c)
    ensures SecondsFit(k, c)
    ensures forall i | 0 <= i < |c| :: SystemRow(k, Firsts(c), i)
  {
    var x := Firsts(c);
    forall i | 0 <= i < |c| ensures SystemRow(k, x, i) {
      if i > 0 {
        assert c[i - 1].p2 + c[i].p1 == 2.0 * k[i];
        assert c[i - 1].p1 - 2.0 * c[i - 1].p2 == c[i].p2 - 2.0 * c[i].p1;
      }
    }
  }

  lemma SecondsAt(k: seq<real>, c: seq<Cubic>, i: nat)
    requires SecondsFit(k, c) && i < |c|
    ensures c[i].p2 == if i == |c| - 1 then (k[i + 1] + c[i].p1) / 2.0 else 2.0 * k[i + 1] - c[i + 1].p1
  {}

  lemma RowInFirsts(k: seq<real>, c: seq<Cubic>, i: nat)
    requires 3 <= |k| && |c| == |k| - 1 && i < |c| && SystemRow(k, Firsts(c), i)
    ensures i == 0 ==> 2.0 * c[0].p1 + c[1].p1 == 2.0 * k[1] + k[0]
    ensures 0 < i == |c| - 1 ==> 2.0 * c[i - 1].p1 + 7.0 * c[i].p1 == 8.0 * k[i] + k[i + 1]
    ensures 0 < i < |c| - 1 ==> c[i - 1].p1 + 4.0 * c[i].p1 + c[i + 1].p1 == 4.0 * k[i] + 2.0 * k[i + 1]
  {}

  lemma JoinFromRow(k: seq<real>, c: seq<Cubic>, i: nat)
    requires 3 <= |k| && SecondsFit(k, c) && i + 1 < |c| && SystemRow(k, Firsts(c), i + 1)
    ensures c[i].p2 + c[i + 1].p1 == 2.0 * k[i + 1]
    ensures c[i].p1 - 2.0 * c[i].p2 == c[i + 1].p2 - 2.0 * c[i + 1].p1
  {
    SecondsAt(k, c, i);
    SecondsAt(k, c, i + 1);
    RowInFirsts(k, c, i + 1);
    hide *;
  }

  lemma SolvesJoins(k: seq<real>, c: seq<Cubic>)
    requires 3 <= |k| && SecondsFit(k, c)
    requires forall i | 0 <= i < |c| :: c[i].p0 == k[i] && c[i].p3 == k[i + 1]
    requires forall i | 0 <= i < |c| :: SystemRow(k, Firsts(c), i)
    ensures Joined(k, c)
  {
    hide SystemRow, Firsts, Second;
    var n := |c|;
    forall i | 0 <= i < n - 1
      ensures c[i].p2 + c[i + 1].p1 == 2.0 * k[i + 1]
      ensures c[i].p1 - 2.0 * c[i].p2 == c[i + 1].p2 - 2.0 * c[i + 1].p1
    {
      JoinFromRow(k, c, i);
    }
    SecondsAt(k, c, 0);
    SecondsAt(k, c, n - 1);
    RowInFirsts(k, c, 0);
    hide SecondsFit;
  }

  /** For three and more knots, being the natural spline is the same as solving the
      system and taking the second control values from it. */
  lemma NaturalIffSolves(k: seq<real>, c: seq<Cubic>)
    requires 3 <= |k| && |c| == |k| - 1
    requires forall i | 0 <= i < |c| :: c[i].p0 == k[i] && c[i].p3 == k[i + 1]
    ensures IsNatural(k, c) <==> Solves(SplineEntry(|c|), SplineRhs(k), Firsts(c)) && SecondsFit(k, c)
  {
    hide *;
    NaturalIsJoined(k, c);
    SystemRows(k, Firsts(c));
    if Joined(k, c) {
      JoinedSolves(k, c);
    }
    if Solves(SplineEntry(|c|), SplineRhs(k), Firsts(c)) && SecondsFit(k, c) {
      SolvesJoins(k, c);
    }
  }

  lemma SplineIsDominant(n: nat)
    requires 2 <= n
    ensures Dominant(SplineEntry(n), n)
  {}

  lemma FirstsDetermine(k: seq<real>, c: seq<Cubic>, d: seq<Cubic>)
    requires |c| == |d| == |k| - 1 && SecondsFit(k, c) && SecondsFit(k, d) && Firsts(c) == Firsts(d)
    requires forall i | 0 <= i < |c| :: c[i].p0 == k[i] && c[i].p3 == k[i + 1]
    requires forall i | 0 <= i < |d| :: d[i].p0 == k[i] && d[i].p3 == k[i + 1]
    ensures c == d
  {
    hide Second, SecondsFit;
    forall i | 0 <= i < |c| ensures c[i] == d[i] {
      FirstsAt(k, c, i);
      FirstsAt(k, d, i);
      assert c[i].p0 == k[i] == d[i].p0 && c[i].p3 == k[i + 1] == d[i].p3;
      assert c[i].p1 == d[i].p1 && c[i].p2 == d[i].p2;
    }
  }

  lemma JoinedPairIsUnique(k: seq<real>, c: seq<Cubic>, d: seq<Cubic>)
    requires |k| == 2 && Joined(k, c) && Joined(k, d)
    ensures c == d
  {}

  /** Through given knots there is at most one natural spline. */
  lemma NaturalIsUnique(k: seq<real>, c: seq<Cubic>, d: seq<Cubic>)
    requires IsNatural(k, c) && IsNatural(k, d)
    ensures c == d
  {
    hide *;
    NaturalShape(k, c);
    NaturalShape(k, d);
    if |k| == 2 {
      NaturalIsJoined(k, c);
      NaturalIsJoined(k, d);
      JoinedPairIsUnique(k, c, d);
    } else {
      var a := SplineEntry(|c|);
      NaturalIffSolves(k, c);
      NaturalIffSolves(k, d);
      SplineIsDominant(|c|);
      DominantIsRegular(a, |c|);
      SolutionsAgree(a, SplineRhs(k), Firsts(c), Firsts(d));
      FirstsDetermine(k, c, d);
    }
  }

  // ----- bounds -----

  /** The right-hand side against the dominance gap of its row, which is 1, 2 or 5. */
  lemma RhsBound(k: seq<real>, m: real, i: nat)
    requires 3 <= |k| && i < |k| - 1
    requires forall p | 0 <= p < |k| :: Abs(k[p]) <= m
    ensures var a := SplineEntry(|k| - 1);
            Abs(SplineRhs(k)[i]) <= Mul(3.0 * m, Abs(a(i, i)) - OffDiagonal(a, |k| - 1, i))
  {
    var n, a := |k| - 1, SplineEntry(|k| - 1);
    var gap := Abs(a(i, i)) - OffDiagonal(a, n, i);
    assert gap == if i == 0 then 1.0 else if i == n - 1 then 5.0 else 2.0;
    assert Abs(k[i]) <= m && Abs(k[i + 1]) <= m;
    assert Mul(3.0 * m, gap) == if i == 0 then 3.0 * m else if i == n - 1 then 15.0 * m else 6.0 * m;
  }

  lemma SecondBound(k: seq<real>, x: seq<real>, i: nat, m: real)
    requires |x| == |k| - 1 && i < |x|
    requires Abs(k[i + 1]) <= m && Abs(x[i]) <= 3.0 * m && (i + 1 < |x| ==> Abs(x[i + 1]) <= 3.0 * m)
    ensures Abs(Second(k, x, i)) <= 5.0 * m
  {}

  lemma LineBound(k: seq<real>, c: seq<Cubic>, m: real)
    requires |k| == 2 && Joined(k, c) && Abs(k[0]) <= m && Abs(k[1]) <= m
    ensures Abs(c[0].p1) <= 3.0 * m && Abs(c[0].p2) <= 5.0 * m
  {}

  /** First control values stay within three times, second ones within five times the largest knot. */
  lemma ControlBound(k: seq<real>, c: seq<Cubic>, m: real)
    requires IsNatural(k, c)
    requires forall i | 0 <= i < |k| :: Abs(k[i]) <= m
    ensures forall i | 0 <= i < |c| :: Abs(c[i].p1) <= 3.0 * m && Abs(c[i].p2) <= 5.0 * m
  {
    NaturalShape(k, c);
    hide *;
    if |k| == 2 {
      NaturalIsJoined(k, c);
      LineBound(k, c, m);
    } else {
      NaturalIffSolves(k, c);
      var x := Firsts(c);
      FirstBound(k, x, m);
      forall i | 0 <= i < |c| ensures Abs(c[i].p1) <= 3.0 * m && Abs(c[i].p2) <= 5.0 * m {
        FirstsAt(k, c, i);
        SecondBound(k, x, i, m);
      }
    }
  }

  lemma FirstBound(k: seq<real>, x: seq<real>, m: real)
    requires 3 <= |k| && |x| == |k| - 1 && Solves(SplineEntry(|x|), SplineRhs(k), x)
    requires forall i | 0 <= i < |k| :: Abs(k[i]) <= m
    ensures forall i | 0 <= i < |x| :: Abs(x[i]) <= 3.0 * m
  {
    hide *;
    var n, a, b := |x|, SplineEntry(|x|), SplineRhs(k);
    SplineIsDominant(n);
    forall i | 0 <= i < n ensures Abs(b[i]) <= Mul(3.0 * m, Abs(a(i, i)) - OffDiagonal(a, n, i)) {
      RhsBound(k, m, i);
    }
    SolutionBound(a, b, x, 3.0 * m);
  }

  lemma NaturalShape(k: seq<real>, c: seq<Cubic>)
    requires IsNatural(k, c)
    ensures 2 <= |k| && |c| == |k| - 1
    ensures forall i | 0 <= i < |c| :: c[i].p0 == k[i] && c[i].p3 == k[i + 1]
  {
    NaturalIsJoined(k, c);
  }

  lemma FirstsAt(k: seq<real>, c: seq<Cubic>, i: nat)
    requires SecondsFit(k, c) && i < |c|
    ensures Firsts(c)[i] == c[i].p1 && c[i].p2 == Second(k, Firsts(c), i)
  {}

  /** The cubics of the line through knots that lie d apart. */
  function EvenCubics(k: seq<real>, d: real): (e: seq<Cubic>)
    requires 1 <= |k|
    ensures |e| == |k| - 1
  {
    seq(|k| - 1, i requires 0 <= i < |k| - 1 => Cubic(k[i], k[i] + d / 3.0, k[i] + 2.0 * d / 3.0, k[i] + d))
  }

  lemma EvenIsNatural(k: seq<real>, d: real)
    requires 2 <= |k| && forall i | 0 <= i < |k| - 1 :: k[i + 1] == k[i] + d
    ensures IsNatural(k, EvenCubics(k, d))
  {
    var e := EvenCubics(k, d);
    assert Joined(k, e);
    hide *;
    NaturalIsJoined(k, e);
  }

  /** Evenly spaced knots give evenly spaced control values: the line is reproduced. */
  lemma EvenKnots(k: seq<real>, c: seq<Cubic>, d: real)
    requires IsNatural(k, c)
    requires forall i | 0 <= i < |c| :: k[i + 1] == k[i] + d
    ensures forall i | 0 <= i < |c| :: c[i] == Cubic(k[i], k[i] + d / 3.0, k[i] + 2.0 * d / 3.0, k[i] + d)
  {
    hide IsNatural;
    NaturalShape(k, c);
    EvenIsNatural(k, d);
    NaturalIsUnique(k, c, EvenCubics(k, d));
  }

  // ----- the class -----

  /** The segments UpdateCurve builds from the first control values x and y. */
  function Segments(k: seq<Vec2>, x: seq<real>, y: seq<real>): (s: seq<BezierCurve>)
    requires |x| == |y| == |k| - 1
    ensures |s| == |x|
  {
    seq(|x|, i requires 0 <= i < |x| =>
      BezierCurve(k[i], Vec2(x[i], y[i]), Vec2(Second(Xs(k), x, i), Second(Ys(k), y, i)), k[i + 1]))
  }

  lemma SegmentCubics(k: seq<Vec2>, x: seq<real>, y: seq<real>)
    requires 3 <= |k| && |x| == |y| == |k| - 1
    ensures var c := XCubics(Segments(k, x, y));
            && |c| == |x| && Firsts(c) == x && SecondsFit(Xs(k), c)
            && forall i | 0 <= i < |c| :: c[i].p0 == Xs(k)[i] && c[i].p3 == Xs(k)[i + 1]
    ensures var c := YCubics(Segments(k, x, y));
            && |c| == |y| && Firsts(c) == y && SecondsFit(Ys(k), c)
            && forall i | 0 <= i < |c| :: c[i].p0 == Ys(k)[i] && c[i].p3 == Ys(k)[i + 1]
  {
    hide Second;
    assert Firsts(XCubics(Segments(k, x, y))) == x;
    assert Firsts(YCubics(Segments(k, x, y))) == y;
  }

  lemma SegmentsAreNatural(k: seq<Vec2>, x: seq<real>, y: seq<real>)
    requires 3 <= |k| && |x| == |y| == |k| - 1
    requires Solves(SplineEntry(|x|), SplineRhs(Xs(k)), x) && Solves(SplineEntry(|y|), SplineRhs(Ys(k)), y)
    ensures IsNaturalSpline(k, Segments(k, x, y))
  {
    hide IsNatural, Solves, Segments, SecondsFit, XCubics, YCubics, Xs, Ys, SplineRhs, SplineEntry, Firsts;
    var s := Segments(k, x, y);
    SegmentCubics(k, x, y);
    NaturalIffSolves(Xs(k), XCubics(s));
    NaturalIffSolves(Ys(k), YCubics(s));
  }

  lemma LineIsNatural(a: Vec2, b: Vec2)
    ensures var d := Vec2((b.x - a.x) * (1.0 / 3.0), (b.y - a.y) * (1.0 / 3.0));
            var p1 := Vec2(a.x + d.x, a.y + d.y);
            var p2 := Vec2(p1.x + d.x, p1.y + d.y);
            IsNaturalSpline([a, b], [BezierCurve(a, p1, p2, b)])
  {
    hide IsNatural;
    var d := Vec2((b.x - a.x) * (1.0 / 3.0), (b.y - a.y) * (1.0 / 3.0));
    var p1 := Vec2(a.x + d.x, a.y + d.y);
    var p2 := Vec2(p1.x + d.x, p1.y + d.y);
    NaturalIsJoined(Xs([a, b]), XCubics([BezierCurve(a, p1, p2, b)]));
    NaturalIsJoined(Ys([a, b]), YCubics([BezierCurve(a, p1, p2, b)]));
  }

  class CBSpline {
    var fControlPoints: seq<Vec2>
    var fCurveSegments: seq<BezierCurve>

    constructor ()
      ensures fControlPoints == [] && fCurveSegments == []
    {
      fControlPoints, fCurveSegments := [], [];
    }

    ghost predicate Valid()
      reads this
    {
      fControlPoints == [] ==> fCurveSegments == []
    }

    /** Appends the natural spline through the control points. */
    method UpdateCurve()
      requires 2 <= |fControlPoints|
      modifies this`fCurveSegments
      ensures old(fCurveSegments) <= fCurveSegments
      ensures IsNaturalSpline(fControlPoints, fCurveSegments[|old(fCurveSegments)|..])
    {
      hide IsNaturalSpline, Solves;
      var k := fControlPoints;
      if |k| == 2 {
        var d := Vec2((k[1].x - k[0].x) * (1.0 / 3.0), (k[1].y - k[0].y) * (1.0 / 3.0));
        var p1 := Vec2(k[0].x + d.x, k[0].y + d.y);
        var p2 := Vec2(p1.x + d.x, p1.y + d.y);
        var segment := BezierCurve(k[0], p1, p2, k[1]);
        fCurveSegments := fCurveSegments + [segment];
        assert fCurveSegments[|old(fCurveSegments)|..] == [segment];
        assert k == [k[0], k[1]];
        LineIsNatural(k[0], k[1]);
        return;
      }
      var aNumUnknowns := |k| - 1;
      var aA := FillMatrix(aNumUnknowns);
      var aX := SolveComponent(aA, Xs(k));
      var aY := SolveComponent(aA, Ys(k));
      var aX2 := SecondControls(Xs(k), aX);
      var aY2 := SecondControls(Ys(k), aY);
      ghost var x, y := aX[..], aY[..];
      ghost var segments := Segments(k, x, y);
      for i := 0 to aNumUnknowns
        invariant fCurveSegments == old(fCurveSegments) + segments[..i]
        modifies this`fCurveSegments
      {
        var segment := BezierCurve(k[i], Vec2(aX[i], aY[i]), Vec2(aX2[i], aY2[i]), k[i + 1]);
        assert segment == segments[i];
        fCurveSegments := fCurveSegments + [segment];
      }
      assert fCurveSegments[|old(fCurveSegments)|..] == segments;
      SegmentsAreNatural(k, x, y);
    }

    /** Replaces the control points; with fewer than two of them there is no curve. */
    method SetControlPoints(nControlPoints: seq<Vec2>)
      requires Valid()
      modifies this
      ensures Valid() && fControlPoints == nControlPoints
      ensures |nControlPoints| < 2 ==> fCurveSegments == []
      ensures |nControlPoints| >= 2 ==> IsNaturalSpline(nControlPoints, fCurveSegments)
    {
      if |fControlPoints| > 0 {
        fControlPoints, fCurveSegments := [], [];
      }
      for i := 0 to |nControlPoints|
        invariant fControlPoints == nControlPoints[..i] && fCurveSegments == []
      {
        fControlPoints := fControlPoints + [nControlPoints[i]];
      }
      if |fControlPoints| > 1 {
        UpdateCurve();
        assert fCurveSegments[0..] == fCurveSegments;
      }
    }
  }

  method FillMatrix(n: nat) returns (aA: array2<real>)
    requires 2 <= n
    ensures fresh(aA) && aA.Length0 == aA.Length1 == n
    ensures forall i, j | 0 <= i < n && 0 <= j < n :: aA[i, j] == SplineEntry(n)(i, j)
  {
    aA := new real[n, n]((i, j) => 0.0);
    aA[0, 0] := 2.0;
    aA[0, 1] := 1.0;
    aA[n - 1, n - 2] := 2.0;
    aA[n - 1, n - 1] := 7.0;
    for i := 1 to n - 1
      invariant forall p, q | 0 <= p < n && 0 <= q < n ::
                  aA[p, q] == if p < i || p == n - 1 then SplineEntry(n)(p, q) else 0.0
    {
      aA[i, i - 1] := 1.0;
      aA[i, i] := 4.0;
      aA[i, i + 1] := 1.0;
    }
  }

  /** The second control values of one coordinate. */
  method SecondControls(k: seq<real>, aX: array<real>) returns (aX2: array<real>)
    requires 2 <= aX.Length == |k| - 1
    ensures fresh(aX2) && aX2.Length == aX.Length
    ensures forall p | 0 <= p < aX.Length :: aX2[p] == Second(k, aX[..], p)
  {
    var n := aX.Length;
    aX2 := new real[n];
    aX2[n - 1] := (k[n] + aX[n - 1]) / 2.0;
    for i := 0 to n - 1
      invariant forall p | 0 <= p < i || p == n - 1 :: aX2[p] == Second(k, aX[..], p)
    {
      aX2[i] := 2.0 * k[i + 1] - aX[i + 1];
    }
  }

  lemma SameDominance(a: (int, int) -> real, a': (int, int) -> real, n: nat)
    requires forall i, j | 0 <= i < n && 0 <= j < n :: a'(i, j) == a(i, j)
    requires Dominant(a, n)
    ensures Dominant(a', n)
  {}

  lemma SameSolution(a: (int, int) -> real, a': (int, int) -> real, b: seq<real>, x: seq<real>)
    requires forall i, j | 0 <= i < |b| && 0 <= j < |b| :: a(i, j) == a'(i, j)
    requires Solves(a, b, x)
    ensures Solves(a', b, x)
  {
    hide Mul;
    forall i | 0 <= i < |x| ensures RowValue(a', x, i) == b[i] {
      assert RowValue(a, x, i) == b[i];
    }
  }

  /** The first control values of one coordinate. */
  method SolveComponent(aA: array2<real>, k: seq<real>) returns (aX: array<real>)
    requires 3 <= |k| && aA.Length0 == aA.Length1 == |k| - 1
    requires forall i, j | 0 <= i < |k| - 1 && 0 <= j < |k| - 1 :: aA[i, j] == SplineEntry(|k| - 1)(i, j)
    ensures fresh(aX) && aX.Length == |k| - 1
    ensures Solves(SplineEntry(|k| - 1), SplineRhs(k), aX[..])
  {
    hide Entries, Solves;
    var n := |k| - 1;
    aX := new real[n];
    var aB := new real[n];
    aB[0] := 2.0 * k[1] + k[0];
    aB[n - 1] := 8.0 * k[n - 1] + k[n];
    for i := 1 to n - 1
      invariant forall p | 0 <= p < i || p == n - 1 :: aB[p] == SplineRhs(k)[p]
    {
      aB[i] := 4.0 * k[i] + 2.0 * k[i + 1];
    }
    assert aB[..] == SplineRhs(k);
    forall i, j | 0 <= i < n && 0 <= j < n ensures Entries(aA)(i, j) == SplineEntry(n)(i, j) {
      EntryAt(aA, i, j);
    }
    SplineIsDominant(n);
    SameDominance(SplineEntry(n), Entries(aA), n);
    DominantIsRegular(Entries(aA), n);
    ThomasTriDiagonal(aA, aB, aX);
    SameSolution(Entries(aA), SplineEntry(n), SplineRhs(k), aX[..]);
  }
}
