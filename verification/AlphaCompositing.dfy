/** Front-to-back alpha compositing of the layers around a surface, for one pixel. */
module AlphaCompositing {
  import opened RealSums

  /** A pixel of one layer: its value and its blurred value. */
  datatype Layer = Layer(slice: real, blur: real)

  datatype Option<T> = None | Some(value: T)

  const LOW := 0.0
  const UP := 1.0
  const LAYER_COUNT := 21

  function Clamp(x: real): (r: real)
    ensures 0.0 <= r <= 1.0
  {
    var y := if x < 1.0 then x else 1.0;
    if y > 0.0 then y else 0.0
  }

  function Opacity(l: Layer): (o: real)
    ensures 0.0 <= o <= 1.0
  {
    Clamp((l.blur - LOW) / (UP - LOW))
  }

  /** Blurred values between zero and one are their own opacity; darker ones are clear, brighter ones opaque. */
  lemma OpacityIs(l: Layer)
    ensures 0.0 <= l.blur <= 1.0 ==> Opacity(l) == l.blur
    ensures l.blur <= 0.0 ==> Opacity(l) == 0.0
    ensures l.blur >= 1.0 ==> Opacity(l) == 1.0
  {}

  /** How far layer n lies from the surface along the normal. */
  function Offset(n: int): real {
    (n - 5) as real * 0.5
  }

  /** What shines through the first n layers: the product of what shines through each. */
  function Transparency(layers: seq<Layer>, n: nat): real
    requires n <= |layers|
  {
    if n == 0 then 1.0 else Mul(Transparency(layers, n - 1), 1.0 - Opacity(layers[n - 1]))
  }

  /** The weight of layer k: opaque itself, seen through the layers in front of it. */
  function Weight(layers: seq<Layer>, k: int): real {
    if 0 <= k < |layers| then Mul(Transparency(layers, k), Opacity(layers[k])) else 0.0
  }

  function Weights(layers: seq<Layer>): int -> real {
    k => Weight(layers, k)
  }

  function Weighted(layers: seq<Layer>, values: int -> real): int -> real {
    k => Mul(Weight(layers, k), values(k))
  }

  function Slices(layers: seq<Layer>): int -> real {
    k => if 0 <= k < |layers| then layers[k].slice else 0.0
  }

  function Blurs(layers: seq<Layer>): int -> real {
    k => if 0 <= k < |layers| then layers[k].blur else 0.0
  }

  function Integrated(layers: seq<Layer>, values: int -> real): real {
    Sum(|layers|, Weighted(layers, values))
  }

  // ----- weights -----

  lemma MulUnit(x: real, y: real)
    ensures Mul(1.0, y) == y && Mul(0.0, y) == 0.0 && Mul(y, 0.0) == 0.0 && Mul(y, 1.0) == y
    ensures Mul(x, 1.0 - y) == x - Mul(x, y)
    ensures x >= 0.0 && y >= 0.0 ==> Mul(x, y) >= 0.0
  {}

  lemma MulPositive(x: real, y: real)
    requires x > 0.0 && y > 0.0
    ensures Mul(x, y) > 0.0
  {}

  lemma {:induction false} TransparencyBounds(layers: seq<Layer>, n: nat)
    requires n <= |layers|
    ensures 0.0 <= Transparency(layers, n) <= 1.0
  {
    hide Mul, Opacity;
    if n > 0 {
      TransparencyBounds(layers, n - 1);
      var t, o := Transparency(layers, n - 1), Opacity(layers[n - 1]);
      MulUnit(t, o);
      MulUnit(t, 1.0 - o);
    }
  }

  lemma WeightIsNonNegative(layers: seq<Layer>, k: int)
    ensures Weight(layers, k) >= 0.0
  {
    hide Mul, Opacity, Transparency;
    if 0 <= k < |layers| {
      TransparencyBounds(layers, k);
      MulUnit(Transparency(layers, k), Opacity(layers[k]));
    }
  }

  /** The weights of the layers and what shines through all of them add up to one. */
  lemma {:induction false} WeightIsConserved(layers: seq<Layer>, n: nat)
    requires n <= |layers|
    ensures Sum(n, Weights(layers)) + Transparency(layers, n) == 1.0
  {
    hide Mul, Opacity;
    if n > 0 {
      WeightIsConserved(layers, n - 1);
      MulUnit(Transparency(layers, n - 1), Opacity(layers[n - 1]));
    }
  }

  /** Something is seen of the first n layers exactly when one of them is not clear. */
  lemma {:induction false} VisibleIff(layers: seq<Layer>, n: nat)
    requires n <= |layers|
    ensures Transparency(layers, n) < 1.0 <==> exists k :: 0 <= k < n && Opacity(layers[k]) > 0.0
  {
    hide Mul, Opacity;
    if n > 0 {
      VisibleIff(layers, n - 1);
      var t, o := Transparency(layers, n - 1), Opacity(layers[n - 1]);
      TransparencyBounds(layers, n - 1);
      MulUnit(t, o);
      MulUnit(t, 1.0 - o);
      if o > 0.0 && t > 0.0 {
        MulPositive(t, o);
      }
    }
  }

  /** Nothing shines through exactly when one layer is fully opaque. */
  lemma {:induction false} OpaqueIff(layers: seq<Layer>, n: nat)
    requires n <= |layers|
    ensures Transparency(layers, n) == 0.0 <==> exists k :: 0 <= k < n && Opacity(layers[k]) == 1.0
  {
    hide Mul, Opacity;
    if n > 0 {
      OpaqueIff(layers, n - 1);
      var t, o := Transparency(layers, n - 1), Opacity(layers[n - 1]);
      TransparencyBounds(layers, n - 1);
      MulUnit(t, 1.0 - o);
      MulUnit(0.0, t);
      if t > 0.0 && o < 1.0 {
        MulPositive(t, 1.0 - o);
      }
    }
  }

  /** What lies behind a fully opaque layer does not count. */
  lemma {:induction false} OpaqueHides(layers: seq<Layer>, values: int -> real, k: nat, n: nat)
    requires k < n <= |layers| && Opacity(layers[k]) == 1.0
    ensures Sum(n, Weighted(layers, values)) == Sum(k + 1, Weighted(layers, values))
  {
    hide Mul, Opacity, Transparency;
    if k + 1 < n {
      OpaqueHides(layers, values, k, n - 1);
      OpaqueIff(layers, n - 1);
      MulUnit(0.0, Opacity(layers[n - 1]));
      MulUnit(0.0, values(n - 1));
    }
  }

  // ----- layers behind layers -----

  /** The layers are half a unit apart and the sixth is the surface. */
  lemma OffsetIs(n: int)
    ensures Offset(5) == 0.0 && Offset(n + 1) == Offset(n) + 0.5
  {}

  /** One layer alone: it lets through what it is not opaque for, and shows its value by its opacity. */
  lemma OneLayer(l: Layer, values: int -> real)
    ensures Transparency([l], 1) == 1.0 - Opacity(l)
    ensures Integrated([l], values) == Opacity(l) * values(0)
  {
    hide Opacity;
    MulUnit(1.0, 1.0 - Opacity(l));
    MulUnit(1.0, Opacity(l));
    assert Transparency([l], 0) == 1.0;
    assert Sum(1, Weighted([l], values)) == Sum(0, Weighted([l], values)) + Weighted([l], values)(0);
  }

  lemma {:induction false} FrontLayers(a: seq<Layer>, b: seq<Layer>, n: nat)
    requires n <= |a|
    ensures Transparency(a + b, n) == Transparency(a, n)
  {
    if n > 0 {
      FrontLayers(a, b, n - 1);
    }
  }

  lemma {:induction false} BackLayers(a: seq<Layer>, b: seq<Layer>, n: nat)
    requires n <= |b|
    ensures Transparency(a + b, |a| + n) == Mul(Transparency(a, |a|), Transparency(b, n))
  {
    hide Mul, Opacity;
    if n == 0 {
      FrontLayers(a, b, |a|);
      MulUnit(Transparency(a, |a|), Transparency(a, |a|));
    } else {
      BackLayers(a, b, n - 1);
      MulLaws(Transparency(a, |a|), Transparency(b, n - 1), 1.0 - Opacity(b[n - 1]));
    }
  }

  lemma {:induction false} FrontSum(a: seq<Layer>, b: seq<Layer>, values: int -> real, n: nat)
    requires n <= |a|
    ensures Sum(n, Weighted(a + b, values)) == Sum(n, Weighted(a, values))
  {
    hide Mul, Opacity, Transparency;
    if n > 0 {
      FrontSum(a, b, values, n - 1);
      FrontLayers(a, b, n - 1);
      assert Weight(a + b, n - 1) == Weight(a, n - 1);
    }
  }

  lemma {:induction false} BackSum(a: seq<Layer>, b: seq<Layer>, values: int -> real, shifted: int -> real, n: nat)
    requires n <= |b| && forall k | 0 <= k < |b| :: shifted(k) == values(|a| + k)
    ensures Sum(|a| + n, Weighted(a + b, values))
         == Sum(|a|, Weighted(a, values)) + Mul(Transparency(a, |a|), Sum(n, Weighted(b, shifted)))
  {
    hide Mul, Opacity, Transparency;
    var t := Transparency(a, |a|);
    if n == 0 {
      FrontSum(a, b, values, |a|);
      MulUnit(t, t);
    } else {
      BackSum(a, b, values, shifted, n - 1);
      BackLayers(a, b, n - 1);
      var m, o, v := Transparency(b, n - 1), Opacity(b[n - 1]), shifted(n - 1);
      MulLaws(t, m, o);
      MulLaws(t, Mul(m, o), v);
      MulLaws(t, Sum(n - 1, Weighted(b, shifted)), Mul(Mul(m, o), v));
    }
  }

  /** Layers behind others: what they let through multiplies, and what they show is seen through those in front. */
  lemma StackedLayers(a: seq<Layer>, b: seq<Layer>, values: int -> real, shifted: int -> real)
    requires forall k | 0 <= k < |b| :: shifted(k) == values(|a| + k)
    ensures Transparency(a + b, |a + b|) == Transparency(a, |a|) * Transparency(b, |b|)
    ensures Integrated(a + b, values) == Integrated(a, values) + Transparency(a, |a|) * Integrated(b, shifted)
  {
    hide Sum, Transparency, Weighted;
    BackLayers(a, b, |b|);
    BackSum(a, b, values, shifted, |b|);
  }

  // ----- what is composed -----

  lemma TermBounds(w: real, v: real, lo: real, hi: real)
    requires w >= 0.0 && (w > 0.0 ==> lo <= v <= hi)
    ensures Mul(w, lo) <= Mul(w, v) <= Mul(w, hi)
  {
    hide Mul;
    if w > 0.0 {
      MulUnit(w, v - lo);
      MulUnit(w, hi - v);
      MulLaws(w, lo, v - lo);
      MulLaws(w, v, hi - v);
    } else {
      MulUnit(w, lo);
      MulUnit(w, v);
      MulUnit(w, hi);
    }
  }

  /** A weighted sum lies between the extremes of the values with weight, scaled by the weight in all. */
  lemma {:induction false} SumBounds(layers: seq<Layer>, values: int -> real, n: nat, lo: real, hi: real)
    requires n <= |layers| && forall k | 0 <= k < n && Weight(layers, k) > 0.0 :: lo <= values(k) <= hi
    ensures Mul(1.0 - Transparency(layers, n), lo) <= Sum(n, Weighted(layers, values))
            <= Mul(1.0 - Transparency(layers, n), hi)
  {
    hide Mul, Weight;
    if n == 0 {
      MulUnit(0.0, lo);
      MulUnit(0.0, hi);
    } else {
      SumBounds(layers, values, n - 1, lo, hi);
      WeightIsNonNegative(layers, n - 1);
      var w, rest := Weight(layers, n - 1), 1.0 - Transparency(layers, n - 1);
      TermBounds(w, values(n - 1), lo, hi);
      WeightStep(layers, n);
      MulLaws(lo, rest, w);
      MulLaws(hi, rest, w);
      MulLaws(lo, rest + w, w);
      MulLaws(hi, rest + w, w);
      MulLaws(rest, lo, w);
      MulLaws(rest, hi, w);
      MulLaws(w, lo, w);
      MulLaws(w, hi, w);
    }
  }

  lemma WeightStep(layers: seq<Layer>, n: nat)
    requires 0 < n <= |layers|
    ensures 1.0 - Transparency(layers, n) == (1.0 - Transparency(layers, n - 1)) + Weight(layers, n - 1)
  {
    hide Mul, Opacity;
    MulUnit(Transparency(layers, n - 1), Opacity(layers[n - 1]));
  }

  /** Divided by its weight the sum is a convex combination of the values that are seen. */
  lemma NormalisedIsConvex(layers: seq<Layer>, values: int -> real, lo: real, hi: real)
    requires Transparency(layers, |layers|) < 1.0
    requires forall k | 0 <= k < |layers| && Weight(layers, k) > 0.0 :: lo <= values(k) <= hi
    ensures lo <= Div(Integrated(layers, values), 1.0 - Transparency(layers, |layers|)) <= hi
  {
    hide Weight, Transparency, Sum;
    SumBounds(layers, values, |layers|, lo, hi);
    var w, s := 1.0 - Transparency(layers, |layers|), Integrated(layers, values);
    QuotientBounds(w, s, lo, hi);
  }

  lemma QuotientBounds(w: real, s: real, lo: real, hi: real)
    requires w > 0.0 && Mul(w, lo) <= s <= Mul(w, hi)
    ensures lo <= Div(s, w) <= hi
  {
    var q := Div(s, w);
    assert Mul(w, q) == s;
    MulCancel(w, lo, q);
    MulCancel(w, q, hi);
  }

  /** The surface moves along its normal no farther than the outermost layers reach. */
  lemma SurfaceStaysBetweenLayers(layers: seq<Layer>)
    requires 6 <= |layers|
    ensures Offset(0) <= Integrated(layers, Offset) <= Offset(|layers| - 1)
    ensures |layers| == LAYER_COUNT ==> -2.5 <= Integrated(layers, Offset) <= 7.5
  {
    hide Mul, Weight, Sum;
    var n := |layers|;
    TransparencyBounds(layers, n);
    SumBounds(layers, Offset, n, Offset(0), Offset(n - 1));
    var w := 1.0 - Transparency(layers, n);
    ShareOfNegative(w, Offset(0));
    ShareOfPositive(w, Offset(n - 1));
  }

  lemma ShareOfPositive(w: real, x: real)
    requires 0.0 <= w <= 1.0 && x >= 0.0
    ensures Mul(w, x) <= x
  {
    hide Mul;
    MulUnit(1.0 - w, x);
    MulLaws(x, w, 1.0 - w);
    MulLaws(x, 1.0 - w, w);
    MulUnit(x, x);
  }

  lemma ShareOfNegative(w: real, x: real)
    requires 0.0 <= w <= 1.0 && x <= 0.0
    ensures x <= Mul(w, x)
  {
    hide Mul;
    ShareOfPositive(w, -x);
    MulLaws(w, x, w);
  }

  /** The layer loop of one pixel, and the picture composed from it where anything is seen. */
  method SurfAlphaInteg(layers: seq<Layer>, composed: bool)
    returns (integZ: real, transparent: real, picture: Option<real>)
    requires forall k | 0 <= k < |layers| :: layers[k].blur >= 0.0
    ensures transparent == Transparency(layers, |layers|) && integZ == Integrated(layers, Offset)
    ensures picture.Some? <==> composed && exists k :: 0 <= k < |layers| && Opacity(layers[k]) > 0.0
    ensures picture.Some? ==>
              transparent < 1.0 && Div(Integrated(layers, Blurs(layers)), 1.0 - transparent) + 0.5 > 0.0
    ensures picture.Some? ==>
              picture.value == Div(Div(Integrated(layers, Slices(layers)), 1.0 - transparent),
                                   Div(Integrated(layers, Blurs(layers)), 1.0 - transparent) + 0.5)
  {
    hide Mul, Div, Clamp;
    var integ, integBlur := 0.0, 0.0;
    integZ, transparent, picture := 0.0, 1.0, None;
    for n := 0 to |layers|
      invariant transparent == Transparency(layers, n)
      invariant integ == Sum(n, Weighted(layers, Slices(layers)))
      invariant integBlur == Sum(n, Weighted(layers, Blurs(layers)))
      invariant integZ == Sum(n, Weighted(layers, Offset))
    {
      var off := (n - 5) as real * 0.5;
      var opaq := Clamp((layers[n].blur - LOW) / (UP - LOW));
      var joint := Mul(transparent, opaq);
      integ := integ + Mul(joint, layers[n].slice);
      integBlur := integBlur + Mul(joint, layers[n].blur);
      assert off == Offset(n) && joint == Weight(layers, n);
      assert Weighted(layers, Offset)(n) == Mul(joint, off);
      integZ := integZ + Mul(joint, off);
      MulUnit(transparent, opaq);
      transparent := transparent - joint;
    }
    VisibleIff(layers, |layers|);
    TransparencyBounds(layers, |layers|);
    if composed && transparent != 1.0 {
      BlurIsNonNegative(layers);
      integ := Div(integ, 1.0 - transparent);
      integBlur := Div(integBlur, 1.0 - transparent);
      picture := Some(Div(integ, integBlur + 0.5));
    }
  }

  lemma BlurIsNonNegative(layers: seq<Layer>)
    requires Transparency(layers, |layers|) < 1.0 && forall k | 0 <= k < |layers| :: layers[k].blur >= 0.0
    ensures Div(Integrated(layers, Blurs(layers)), 1.0 - Transparency(layers, |layers|)) >= 0.0
  {
    hide Sum, Mul;
    forall k | 0 <= k < |layers| ensures layers[k].blur <= Largest(layers, |layers|) {
      LargestIs(layers, |layers|, k);
    }
    NormalisedIsConvex(layers, Blurs(layers), 0.0, Largest(layers, |layers|));
  }

  function Largest(layers: seq<Layer>, n: nat): real
    requires n <= |layers|
  {
    if n == 0 then 0.0 else if layers[n - 1].blur > Largest(layers, n - 1) then layers[n - 1].blur else Largest(layers, n - 1)
  }

  lemma {:induction false} LargestIs(layers: seq<Layer>, n: nat, k: nat)
    requires k < n <= |layers|
    ensures layers[k].blur <= Largest(layers, n)
  {
    if k < n - 1 {
      LargestIs(layers, n - 1, k);
    }
  }

  /** Pixel values between zero and one compose to a picture between zero and two. */
  lemma PictureBounds(layers: seq<Layer>)
    requires Transparency(layers, |layers|) < 1.0
    requires forall k | 0 <= k < |layers| :: 0.0 <= layers[k].slice <= 1.0 && 0.0 <= layers[k].blur <= 1.0
    ensures var w := 1.0 - Transparency(layers, |layers|);
            var value, blur := Div(Integrated(layers, Slices(layers)), w), Div(Integrated(layers, Blurs(layers)), w);
            0.0 <= value <= 1.0 && 0.0 <= blur <= 1.0 && 0.0 <= Div(value, blur + 0.5) <= 2.0
  {
    hide Sum, Mul, Div;
    NormalisedIsConvex(layers, Slices(layers), 0.0, 1.0);
    NormalisedIsConvex(layers, Blurs(layers), 0.0, 1.0);
    var w := 1.0 - Transparency(layers, |layers|);
    var value, blur := Div(Integrated(layers, Slices(layers)), w), Div(Integrated(layers, Blurs(layers)), w);
    MulUnit(0.0, blur + 0.5);
    AtLeastHalf(blur + 0.5);
    QuotientBounds(blur + 0.5, value, 0.0, 2.0);
  }

  lemma AtLeastHalf(x: real)
    requires x >= 0.5
    ensures Mul(x, 2.0) >= 1.0
  {}
}
