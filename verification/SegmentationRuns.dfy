/** Planning segmentation runs between anchors, and what their results may change:
    no run overwrites an anchor. */
module SegmentationRuns {
  import opened Geometry
  import opened Segmentation
  import opened AnchorCache

  // ----- planning one run -----

  datatype Params = Params(startIndex: int, targetIndex: int, targetAnchor: int)

  datatype Plan = Plan(params: Params, skip: bool)

  /** C++ integer division. */
  function TruncDiv(a: int, b: int): int
    requires b > 0
  {
    if a >= 0 then a / b else -((-a) / b)
  }

  function TargetAnchor(s: Seg, forward: bool, currentIndex: int, numSlices: int): int {
    if forward then NearestHigher(s.cache, currentIndex, numSlices) else NearestLower(s.cache, currentIndex, s.minSlice)
  }

  /** The planned range before the step size is applied. */
  function PlanBase(anchor: int, forward: bool, useAnchor: bool, currentIndex: int, endIndex: int): Plan {
    var beside := if forward then anchor - 1 else anchor + 1;
    var target :=
      if useAnchor then (if anchor != -1 then beside else currentIndex)
      else if anchor != -1 && (if forward then endIndex >= anchor else endIndex <= anchor) then beside
      else endIndex;
    Plan(Params(if forward then currentIndex + 1 else currentIndex - 1, target, anchor),
         (useAnchor && anchor == -1) || currentIndex == target)
  }

  /** The number of slices, signed by direction, that whole steps cover. */
  function SteppedSlices(p: Params, forward: bool, step: int): int
    requires step > 0
  {
    TruncDiv(p.targetIndex - p.startIndex + (if p.targetAnchor != -1 then 0 else if forward then 1 else -1), step) * step
  }

  /** The optical flow planner's adjustment to the step size. */
  function PlanSteps(p: Params, forward: bool, useAnchor: bool, step: int): Plan {
    if step <= 1 then Plan(p, false)
    else
      var n := SteppedSlices(p, forward, step);
      if n == 0 then Plan(p, true)
      else if useAnchor then Plan(p, false)
      else Plan(p.(targetIndex := p.startIndex + n - (if forward then 1 else -1)), false)
  }

  /** A range from just beside the current slice in the given direction. */
  predicate Directed(p: Params, forward: bool, currentIndex: int) {
    if forward then p.startIndex == currentIndex + 1 <= p.targetIndex
    else p.startIndex == currentIndex - 1 >= p.targetIndex
  }

  function Length(p: Params): nat {
    1 + if p.startIndex <= p.targetIndex then p.targetIndex - p.startIndex else p.startIndex - p.targetIndex
  }

  /** The largest multiple of the step size up to n. */
  function WholeSteps(n: nat, step: int): (m: nat)
    requires step > 0
    ensures m <= n < m + step && m % step == 0
  {
    WholeStepsFit(n, step);
    n / step * step
  }

  lemma WholeStepsFit(n: nat, step: int)
    requires step > 0
    ensures 0 <= n / step * step <= n < n / step * step + step
    ensures n / step * step % step == 0
    ensures (0 - n / step) * step == 0 - n / step * step
  {
    var q := n / step;
    assert n == q * step + n % step;
    assert q * step >= 0;
    DivUnique(q * step, step, q, 0);
  }

  lemma TimesAtLeast(d: int, b: int)
    requires d >= 1 && b > 0
    ensures d * b >= b
  {}

  lemma DivUnique(a: int, b: int, q: int, r: int)
    requires b > 0 && a == q * b + r && 0 <= r < b
    ensures a / b == q && a % b == r
  {
    var d := q - a / b;
    assert a == a / b * b + a % b;
    assert d * b == a % b - r;
    if d >= 1 {
      TimesAtLeast(d, b);
      assert false;
    } else if d <= -1 {
      TimesAtLeast(-d, b);
      assert false;
    }
  }

  /** The slices available to a run: one fewer before an anchor in slice mode and in anchor mode alike. */
  function Available(p: Params): nat {
    if p.targetAnchor != -1 then Length(p) - 1 else Length(p)
  }

  lemma SteppedSlicesIs(p: Params, forward: bool, currentIndex: int, step: int)
    requires Directed(p, forward, currentIndex) && step > 1
    ensures SteppedSlices(p, forward, step)
         == if forward then WholeSteps(Available(p), step) else 0 - WholeSteps(Available(p), step)
  {
    WholeStepsFit(Available(p), step);
    var n := Available(p);
    assert TruncDiv(if forward then n else 0 - n, step) == if forward then n / step else 0 - n / step;
  }

  /** With a step size the run never passes the planned target. In slice mode its length is the
      largest multiple of the step size that fits what is available, and a run without room
      for one step is skipped. */
  lemma StepsFit(p: Params, forward: bool, useAnchor: bool, currentIndex: int, step: int)
    requires Directed(p, forward, currentIndex) && step > 1
    ensures var plan := PlanSteps(p, forward, useAnchor, step);
            && (plan.skip <==> Available(p) < step)
            && plan.params.startIndex == p.startIndex
            && Directed(plan.params, forward, currentIndex)
            && Length(plan.params) <= Length(p)
            && (useAnchor || plan.skip ==> plan.params == p)
            && (!useAnchor && !plan.skip ==> Length(plan.params) == WholeSteps(Available(p), step) > 0)
  {
    SteppedSlicesIs(p, forward, currentIndex, step);
    StepsOrNone(Available(p), step);
    hide SteppedSlices, WholeSteps;
  }

  lemma StepsOrNone(n: nat, step: int)
    requires step > 0
    ensures WholeSteps(n, step) == 0 <==> n < step
  {
    var m := WholeSteps(n, step);
    if n >= step {
      assert n / step >= 1;
      assert m > 0;
    }
  }

  /** A planned range holds no anchor: the slices from start to target are all free. */
  lemma PlanIsAnchorFree(s: Seg, forward: bool, useAnchor: bool, currentIndex: int, endIndex: int, numSlices: int)
    requires Good(s) && s.minSlice == Base(s) >= 0 && currentIndex >= 0
    requires if forward then currentIndex <= endIndex < numSlices else 0 <= endIndex <= currentIndex
    ensures var plan := PlanBase(TargetAnchor(s, forward, currentIndex, numSlices), forward, useAnchor, currentIndex, endIndex);
            !plan.skip ==>
              && Directed(plan.params, forward, currentIndex)
              && AnchorFree(s, plan.params.startIndex, plan.params.targetIndex)
              && (if forward then plan.params.targetIndex < numSlices else plan.params.targetIndex >= 0)
  {
    forall t | !InCloud(s, t) ensures !IsAnchor(s, t) {}
    NearestLowerIs(s, currentIndex);
    NearestHigherIs(s, currentIndex, numSlices);
    hide Aligned, IsAnchor, NearestHigher, NearestLower, Coherent;
  }

  /** A planned range reaches as far as its mode allows: in anchor mode up to an anchor, in slice mode up to
      the end slice or an anchor; and a run is skipped only when not even one slice is left. */
  lemma PlanIsMaximal(s: Seg, forward: bool, useAnchor: bool, currentIndex: int, endIndex: int, numSlices: int)
    requires Good(s) && s.minSlice == Base(s) >= 0 && currentIndex >= 0
    requires if forward then currentIndex <= endIndex < numSlices else 0 <= endIndex <= currentIndex
    ensures var plan := PlanBase(TargetAnchor(s, forward, currentIndex, numSlices), forward, useAnchor, currentIndex, endIndex);
            var beyond := if forward then plan.params.targetIndex + 1 else plan.params.targetIndex - 1;
            var first := if forward then currentIndex + 1 else currentIndex - 1;
            && (!plan.skip ==> IsAnchor(s, beyond) || (!useAnchor && plan.params.targetIndex == endIndex))
            && (plan.skip ==> || IsAnchor(s, first)
                              || (!useAnchor && endIndex == currentIndex)
                              || (useAnchor && forall t | currentIndex < t < numSlices && forward :: !IsAnchor(s, t))
                              || (useAnchor && forall t | t < currentIndex && !forward :: !IsAnchor(s, t)))
  {
    forall t | !InCloud(s, t) ensures !IsAnchor(s, t) {}
    NearestLowerIs(s, currentIndex);
    NearestHigherIs(s, currentIndex, numSlices);
    hide Aligned, IsAnchor, NearestHigher, NearestLower, Coherent;
  }

  /** A plan records the nearest anchor in its direction, or -1 when there is none, whether it limits the run or not. */
  lemma PlanRecordsAnchor(s: Seg, forward: bool, useAnchor: bool, currentIndex: int, endIndex: int, numSlices: int)
    requires Good(s) && s.minSlice == Base(s) >= 0 && currentIndex >= 0
    ensures var a := PlanBase(TargetAnchor(s, forward, currentIndex, numSlices), forward, useAnchor, currentIndex, endIndex)
                     .params.targetAnchor;
            if forward
            then && (a != -1 ==> currentIndex < a < numSlices && IsAnchor(s, a))
                 && forall u | currentIndex < u < numSlices && (a == -1 || u < a) :: !IsAnchor(s, u)
            else && (a != -1 ==> 0 <= a < currentIndex && IsAnchor(s, a))
                 && forall u | 0 <= u < currentIndex && (a == -1 || a < u) :: !IsAnchor(s, u)
  {
    forall t | !InCloud(s, t) ensures !IsAnchor(s, t) {}
    NearestLowerIs(s, currentIndex);
    NearestHigherIs(s, currentIndex, numSlices);
    hide Aligned, IsAnchor, NearestHigher, NearestLower, Coherent;
  }

  lemma SubrangeIsAnchorFree(s: Seg, a: int, b: int, b': int)
    requires AnchorFree(s, a, b)
    requires a <= b' <= b || b <= b' <= a
    ensures AnchorFree(s, a, b')
  {}

  // ----- interpolation window -----

  /** Rounding half away from zero. */
  function Round(x: real): int {
    if x >= 0.0 then (x + 0.5).Floor else -((0.5 - x).Floor)
  }

  function SegmentationLength(p: Params): int {
    Max(1, if p.startIndex <= p.targetIndex then p.targetIndex - p.startIndex else p.startIndex - p.targetIndex)
  }

  function InterpolationDistance(length: nat): nat {
    length / 2
  }

  function InterpolationWindow(length: nat, percent: int): int {
    if length > 1 then HalfShare(length, percent) else 0
  }

  /** Half of the given share of the run, without its middle slice. */
  function HalfShare(length: nat, percent: int): int {
    Round((percent as real / 100.0 * length as real - 1.0) / 2.0)
  }

  /** The window around the midpoint lies within the run on both sides. */
  lemma WindowFits(length: nat, percent: int)
    requires 1 <= length && 1 <= percent <= 100
    ensures 0 <= InterpolationWindow(length, percent) <= InterpolationDistance(length)
    ensures InterpolationDistance(length) + InterpolationWindow(length, percent) <= length
  {
    var share := percent as real / 100.0 * length as real;
    ShareBound(percent as real / 100.0, length as real);
    assert 0.0 < share <= length as real;
    var half := (share - 1.0) / 2.0;
    assert -0.5 < half <= (length as real - 1.0) / 2.0;
    RoundBound(half, length);
  }

  /** The window covers the given share of the run, as nearly as whole slices on both sides of the middle can. */
  lemma WindowIsNearest(length: nat, percent: int)
    requires 1 < length && 1 <= percent <= 100
    ensures var share, covered := percent as real / 100.0 * length as real, 2 * InterpolationWindow(length, percent) + 1;
            -1.0 <= covered as real - share <= 1.0
  {
    var half := (percent as real / 100.0 * length as real - 1.0) / 2.0;
    RoundIsNearest(half);
    assert InterpolationWindow(length, percent) == Round(half);
  }

  /** Halves are rounded away from zero. */
  lemma RoundHalves(n: nat)
    ensures Round(n as real + 0.5) == n + 1 && Round(-(n as real + 0.5)) == -(n + 1)
  {}

  /** The interpolation is centred on the middle of the run: as many slices lie before it as behind it, or one fewer. */
  lemma DistanceIsMiddle(p: Params, forward: bool, currentIndex: int)
    requires Directed(p, forward, currentIndex)
    ensures var before := InterpolationDistance(SegmentationLength(p));
            var behind := (if forward then p.targetIndex - p.startIndex else p.startIndex - p.targetIndex) - before;
            0 <= behind - before <= 1
  {}

  lemma RoundIsNearest(x: real)
    ensures -0.5 <= Round(x) as real - x <= 0.5
  {}

  lemma ShareBound(f: real, x: real)
    requires 0.0 < f <= 1.0 && x > 0.0
    ensures 0.0 < f * x <= x
  {
    assert (1.0 - f) * x >= 0.0;
  }

  lemma RoundBound(half: real, length: nat)
    requires -0.5 < half <= (length as real - 1.0) / 2.0
    ensures 0 <= Round(half) <= length / 2
  {
    if half >= 0.0 {
      assert half + 0.5 <= length as real / 2.0;
      assert (half + 0.5).Floor as real <= half + 0.5;
    } else {
      assert (0.5 - half).Floor == 0;
    }
  }

  // ----- finishing a run -----

  /** A queued run: the slices it was planned for, and the chain on the tool slice it starts from. */
  datatype Request = Request(segId: string, startIndex: int, targetIndex: int, chain: Row)

  predicate Upward(r: Request, toolStart: int) {
    r.targetIndex > toolStart
  }

  /** The planned slices of r lie beside the tool slice, within reach of the cloud, and hold no anchor. */
  ghost predicate Safe(s: Seg, r: Request, toolStart: int) {
    && InCloud(s, toolStart)
    && Directed(Params(r.startIndex, r.targetIndex, -1), Upward(r, toolStart), toolStart)
    && 0 <= Min(r.startIndex, r.targetIndex)
    && AnchorFree(s, r.startIndex, r.targetIndex)
  }

  /** The slice of the first row of a point set. */
  function FirstSlice(ps: PointSet): int {
    if ps.rows == [] || ps.rows[0] == [] then 0 else ps.rows[0][0].z
  }

  /** A contiguous point set has a row for slice t. */
  predicate Covers(ps: PointSet, t: int) {
    FirstSlice(ps) <= t < FirstSlice(ps) + |ps.rows|
  }

  /** What a segmenter returns: nothing, or contiguous ascending rows between the tool slice and the target
      that touch the cloud, with the starting chain as the row of the tool slice if there is one. */
  ghost predicate Delivers(s: Seg, r: Request, toolStart: int, ps: PointSet) {
    ps.rows != [] ==>
      var lo, hi := FirstSlice(ps), FirstSlice(ps) + |ps.rows| - 1;
      && ps.Valid() && Incoming(s, ps, lo)
      && Min(toolStart, r.targetIndex) <= lo && hi <= Max(toolStart, r.targetIndex)
      && Touches(s, lo, hi)
      && (Covers(ps, toolStart) ==> ps.rows[toolStart - lo] == r.chain)
  }

  lemma IncomingStarts(s: Seg, ps: PointSet, lo: int)
    requires 0 < s.master.width && Incoming(s, ps, lo)
    ensures ps.rows != [] && FirstSlice(ps) == lo && ps.Valid()
  {
    forall i | 0 <= i < |ps.rows| ensures |ps.rows[i]| == ps.width {
      assert SliceRow(ps.rows[i], ps.width, lo + i);
    }
    assert SliceRow(ps.rows[0], ps.width, lo + 0);
  }

  /** Local reslice returns the starting chain and the rows behind it, all of them or as many as it reached. */
  lemma LocalResliceDelivers(s: Seg, r: Request, toolStart: int, ps: PointSet)
    requires Good(s) && Safe(s, r, toolStart) && Upward(r, toolStart)
    requires Incoming(s, ps, toolStart) && ps.rows[0] == r.chain && toolStart + |ps.rows| - 1 <= r.targetIndex
    ensures Delivers(s, r, toolStart, ps)
  {
    IncomingStarts(s, ps, toolStart);
  }

  /** Optical flow returns the planned rows, all of them, or when an interpolated run stops early as many as it
      reached from the start slice on. */
  lemma OpticalFlowDelivers(s: Seg, r: Request, toolStart: int, ps: PointSet)
    requires Good(s) && Safe(s, r, toolStart)
    requires ps.rows != [] ==> |ps.rows| <= Length(Params(r.startIndex, r.targetIndex, -1))
    requires ps.rows != [] ==> Incoming(s, ps, if Upward(r, toolStart) then r.startIndex else r.startIndex - |ps.rows| + 1)
    ensures Delivers(s, r, toolStart, ps)
  {
    if ps.rows != [] {
      IncomingStarts(s, ps, if Upward(r, toolStart) then r.startIndex else r.startIndex - |ps.rows| + 1);
    }
  }

  /** Either one returns the starting chain alone when it gives up. */
  lemma EarlyReturnDelivers(s: Seg, r: Request, toolStart: int, ps: PointSet)
    requires Good(s) && Safe(s, r, toolStart) && Incoming(s, ps, toolStart) && ps.rows == [r.chain]
    ensures Delivers(s, r, toolStart, ps)
  {
    IncomingStarts(s, ps, toolStart);
  }

  /** The slice a run started beside, as the bookkeeping recomputes it. */
  function StartSlice(r: Request, toolStart: int): int {
    if Upward(r, toolStart) then r.startIndex - 1 else r.startIndex + 1
  }

  /** The bookkeeping for a finished run: merge, mark the start slice, store positions, reset flags. */
  function Finish(s: Seg, r: Request, toolStart: int, ps: PointSet): Seg {
    var merged := SetUsedInRun(Merge(s, ps), StartSlice(r, toolStart), true);
    var stored := SetOriginalPos(merged, ps, 0);
    if r.startIndex != r.targetIndex then ResetAnnotations(stored, r.startIndex, r.targetIndex) else stored
  }

  /** The slice whose points a result replaces by a chain that differs from its row in the cloud, if there is one. */
  function Overwritten(s: Seg, r: Request, toolStart: int, ps: PointSet): set<int> {
    if InCloud(s, toolStart) && Covers(ps, toolStart) && r.chain != MasterRow(s, toolStart) then {toolStart} else {}
  }

  /** Slice t keeps the anchor bit of each of its points, and the points themselves unless it is in lost. */
  ghost predicate Keeps(s: Seg, s': Seg, t: int, lost: set<int>)
    requires Aligned(s) && Aligned(s')
  {
    InCloud(s, t) ==>
      && InCloud(s', t) && (t !in lost ==> MasterRow(s', t) == MasterRow(s, t))
      && SameBits(AnnRow(s, t), AnnRow(s', t))
  }

  ghost predicate KeepsAnchors(s: Seg, s': Seg, lost: set<int>) {
    Aligned(s) && Aligned(s') && forall t | IsAnchor(s, t) :: Keeps(s, s', t, lost)
  }

  lemma KeepsAnchorsTrans(s: Seg, s1: Seg, s2: Seg, lost: set<int>)
    requires KeepsAnchors(s, s1, lost) && KeepsAnchors(s1, s2, {})
    ensures KeepsAnchors(s, s2, lost)
  {
    forall t | IsAnchor(s, t) ensures Keeps(s, s2, t, lost) {
      assert Keeps(s, s1, t, lost);
      SameBitsSameRow(AnnRow(s, t), AnnRow(s1, t));
      assert Keeps(s1, s2, t, {});
    }
  }

  lemma SameAnchorsKeeps(s: Seg, s': Seg)
    requires Aligned(s) && Aligned(s') && SameAnchors(s, s')
    ensures KeepsAnchors(s, s', {})
    ensures Base(s') == Base(s) && Top(s') == Top(s)
  {
    forall t | IsAnchor(s, t) ensures Keeps(s, s', t, {}) {
      assert SameBits(s.ann.rows[t - Base(s)], s'.ann.rows[t - Base(s)]);
    }
  }

  /** A delivery extends the cloud on one side at most, and the only anchor it can hold a row for is the tool slice. */
  lemma DeliveryTouches(s: Seg, r: Request, toolStart: int, ps: PointSet)
    requires Good(s) && Safe(s, r, toolStart) && Delivers(s, r, toolStart, ps) && ps.rows != []
    ensures var lo, hi := FirstSlice(ps), FirstSlice(ps) + |ps.rows| - 1;
            && Incoming(s, ps, lo) && Touches(s, lo, hi) && OneSided(s, lo, hi)
            && forall t | lo <= t <= hi && IsAnchor(s, t) ::
                 t in Overwritten(s, r, toolStart, ps) || (InCloud(s, t) && ps.rows[t - lo] == MasterRow(s, t))
  {
    hide Good, IsAnchor, Incoming;
  }

  lemma MergeKeepsAnchors(s: Seg, ps: PointSet, lo: int, lost: set<int>)
    requires Good(s) && Incoming(s, ps, lo)
    requires var hi := lo + |ps.rows| - 1; Touches(s, lo, hi) && OneSided(s, lo, hi)
    requires forall t | lo <= t < lo + |ps.rows| && IsAnchor(s, t) ::
               t in lost || (InCloud(s, t) && ps.rows[t - lo] == MasterRow(s, t))
    ensures KeepsAnchors(s, Merge(s, ps), lost)
    ensures RowsInCloud(Merge(s, ps), ps, 0)
  {
    hide Merge, IsAnchor, DefaultRow;
    MergeMeaning(s, ps, lo);
    var s' := Merge(s, ps);
    forall t | IsAnchor(s, t) ensures Keeps(s, s', t, lost) {
      if InCloud(s, t) {
        assert MasterRow(s', t) == (if lo <= t < lo + |ps.rows| then ps.rows[t - lo] else MasterRow(s, t));
        assert AnnRow(s', t) == AnnRow(s, t);
      }
    }
    forall p | 0 <= p < |ps.rows| ensures 0 < |ps.rows[p]| == s'.ann.width && InCloud(s', ps.rows[p][0].z) {
      assert SliceRow(ps.rows[p], ps.width, lo + p);
    }
  }

  /** Merging a delivery keeps every anchor bit, and the points of every anchor but an overwritten tool slice. */
  lemma DeliveryMerges(s: Seg, r: Request, toolStart: int, ps: PointSet)
    requires Good(s) && Safe(s, r, toolStart) && Delivers(s, r, toolStart, ps)
    ensures var s' := Merge(s, ps);
            && Good(s') && KeepsAnchors(s, s', Overwritten(s, r, toolStart, ps))
            && (forall t :: IsAnchor(s', t) == IsAnchor(s, t))
            && (forall t :: InCloud(s', t) <==> InCloud(s, t) || Covers(ps, t))
            && (Base(s) >= 0 ==> Base(s') >= 0)
            && RowsInCloud(s', ps, 0)
  {
    hide *;
    if ps.rows == [] {
      NothingMerges(s, ps, Overwritten(s, r, toolStart, ps));
    } else {
      DeliveryTouches(s, r, toolStart, ps);
      MergeGood(s, ps, FirstSlice(ps));
      MergeKeepsAnchors(s, ps, FirstSlice(ps), Overwritten(s, r, toolStart, ps));
      MergeCovers(s, r, toolStart, ps);
    }
  }

  lemma NothingMerges(s: Seg, ps: PointSet, lost: set<int>)
    requires Good(s) && ps.rows == []
    ensures Merge(s, ps) == s && KeepsAnchors(s, s, lost) && RowsInCloud(s, ps, 0)
    ensures forall t :: !Covers(ps, t)
  {
    hide IsAnchor, Coherent;
    forall t | IsAnchor(s, t) ensures Keeps(s, s, t, lost) {
      if InCloud(s, t) {
        assert SameBits(AnnRow(s, t), AnnRow(s, t));
      }
    }
  }

  lemma MergeCovers(s: Seg, r: Request, toolStart: int, ps: PointSet)
    requires Good(s) && Safe(s, r, toolStart) && Delivers(s, r, toolStart, ps) && ps.rows != []
    ensures forall t :: InCloud(Merge(s, ps), t) <==> InCloud(s, t) || Covers(ps, t)
    ensures Base(s) >= 0 ==> Base(Merge(s, ps)) >= 0
  {
    hide Merge, Good, IsAnchor;
    DeliveryTouches(s, r, toolStart, ps);
    GoodIsAligned(s);
    MergeMeaning(s, ps, FirstSlice(ps));
  }

  lemma GoodIsAligned(s: Seg)
    requires Good(s)
    ensures Aligned(s)
  {}

  lemma EmptyMerge(s: Seg, ps: PointSet)
    requires ps.rows == []
    ensures Merge(s, ps) == s
  {}

  /** Finishing a run: still good, no anchor loses a bit, none but an overwritten tool slice loses its points,
      no slice becomes or stops being an anchor, and no slice leaves the cloud. */
  lemma FinishKeepsAnchors(s: Seg, r: Request, toolStart: int, ps: PointSet)
    requires Good(s) && Safe(s, r, toolStart) && Delivers(s, r, toolStart, ps)
    ensures var s' := Finish(s, r, toolStart, ps);
            && Good(s') && KeepsAnchors(s, s', Overwritten(s, r, toolStart, ps))
            && (forall t :: IsAnchor(s', t) == IsAnchor(s, t))
            && (forall t :: InCloud(s', t) <==> InCloud(s, t) || Covers(ps, t))
            && (Base(s) >= 0 ==> Base(s') >= 0)
  {
    hide Good, Aligned, IsAnchor, SetUsedInRun, SetOriginalPos, ResetAnnotations, Merge, KeepsAnchors, SameAnchors, RowsInCloud,
         Overwritten, InCloud, Covers;
    var s1, lost := Merge(s, ps), Overwritten(s, r, toolStart, ps);
    DeliveryMerges(s, r, toolStart, ps);
    var s2 := SetUsedInRun(s1, StartSlice(r, toolStart), true);
    SetUsedInRunGood(s1, StartSlice(r, toolStart), true);
    SameAnchorsStep(s, s1, s2, ps, lost);
    var s3 := SetOriginalPos(s2, ps, 0);
    SetOriginalPosGood(s2, ps, 0);
    SameAnchorsStep(s, s2, s3, ps, lost);
    if r.startIndex != r.targetIndex {
      assert AnchorFree(s3, r.startIndex, r.targetIndex);
      ResetGood(s3, r.startIndex, r.targetIndex);
      SameAnchorsStep(s, s3, ResetAnnotations(s3, r.startIndex, r.targetIndex), ps, lost);
    }
  }

  /** A step that changes no anchor bit, after steps that kept the anchors of s. */
  lemma SameAnchorsStep(s: Seg, s1: Seg, s2: Seg, ps: PointSet, lost: set<int>)
    requires Good(s1) && Good(s2) && SameAnchors(s1, s2) && KeepsAnchors(s, s1, lost)
    ensures KeepsAnchors(s, s2, lost)
    ensures forall t :: IsAnchor(s2, t) == IsAnchor(s1, t)
    ensures forall t :: InCloud(s2, t) == InCloud(s1, t)
    ensures Base(s2) == Base(s1)
    ensures RowsInCloud(s1, ps, 0) ==> RowsInCloud(s2, ps, 0)
  {
    hide IsAnchor, HasAnchorBit, KeepsAnchors;
    SameAnchorsKeeps(s1, s2);
    KeepsAnchorsTrans(s, s1, s2, lost);
    SameBitsSameAnchors(s1, s2);
  }

  /** The annotation of a point after a run: kept or new, the tool slice marked as used, delivered slices with
      their positions, and the flags cleared over a range of several slices, as far as it lies in the cloud,
      but for the one skipped point. */
  function FinishedAnnotation(s: Seg, r: Request, toolStart: int, ps: PointSet, u: int, j: nat): Annotation
    requires Aligned(s) && j < s.ann.width && forall i | 0 <= i < |ps.rows| :: |ps.rows[i]| == s.ann.width
  {
    AllRows(s);
    var lo := FirstSlice(ps);
    var old' := if InCloud(s, u) then AnnRow(s, u)[j] else Annotation(u, Flags(false, false, false), 0.0, 0.0);
    var marked := if u == toolStart then old'.(flags := old'.flags.(usedInRun := true)) else old';
    var stored := if lo <= u < lo + |ps.rows| then marked.(x := ps.rows[u - lo][j].x, y := ps.rows[u - lo][j].y) else marked;
    var skipped := if r.startIndex < r.targetIndex then s.ann.width - 1 else 0;
    if r.startIndex != r.targetIndex && (InCloud(s, r.startIndex) || Covers(ps, r.startIndex))
       && Min(r.startIndex, r.targetIndex) <= u <= Max(r.startIndex, r.targetIndex)
       && !(u == r.targetIndex && j == skipped)
    then stored.(flags := Flags(false, false, false)) else stored
  }

  /** The points of a slice after a delivery: the new row, or else the old one. */
  function DeliveredRow(s: Seg, lo: int, ps: PointSet, u: int): Row {
    if lo <= u < lo + |ps.rows| then ps.rows[u - lo] else if InCloud(s, u) then MasterRow(s, u) else []
  }

  /** The merge of a delivery, point by point. */
  lemma DeliveredPoints(s: Seg, r: Request, toolStart: int, ps: PointSet)
    requires Good(s) && Safe(s, r, toolStart) && Delivers(s, r, toolStart, ps)
    ensures var s', lo, n := Merge(s, ps), FirstSlice(ps), |ps.rows|;
            && Aligned(s') && s'.ann.width == s.ann.width
            && Base(s') == (if n == 0 then Base(s) else Min(Base(s), lo))
            && Top(s') == (if n == 0 then Top(s) else Max(Top(s), lo + n - 1))
            && (forall u | InCloud(s', u) :: MasterRow(s', u) == DeliveredRow(s, lo, ps, u))
            && (forall u | InCloud(s', u) :: |AnnRow(s', u)| == s.ann.width && (InCloud(s, u) ==> |AnnRow(s, u)| == s.ann.width))
            && forall u, j | InCloud(s', u) && 0 <= j < s.ann.width ::
                 AnnRow(s', u)[j] == if InCloud(s, u) then AnnRow(s, u)[j] else DefaultAnnotation(u)
  {
    hide Merge, IsAnchor, Coherent;
    GoodIsAligned(s);
    AllRows(s);
    var s' := Merge(s, ps);
    if ps.rows == [] {
      EmptyMerge(s, ps);
    } else {
      DeliveryTouches(s, r, toolStart, ps);
      MergeFrame(s, ps);
      MergeMeaning(s, ps, FirstSlice(ps));
      AllRows(s');
    }
  }

  /** The stages of finishing a run: their clouds cover the same slices. */
  lemma FinishStages(s: Seg, r: Request, toolStart: int, ps: PointSet)
    requires Good(s) && Safe(s, r, toolStart) && Delivers(s, r, toolStart, ps)
    ensures var s1 := Merge(s, ps);
            var s2 := SetUsedInRun(s1, toolStart, true);
            var s3 := SetOriginalPos(s2, ps, 0);
            var s4 := if r.startIndex != r.targetIndex then ResetAnnotations(s3, r.startIndex, r.targetIndex) else s3;
            && s4 == Finish(s, r, toolStart, ps)
            && Aligned(s1) && Aligned(s2) && Aligned(s3) && Aligned(s4)
            && s2.master == s1.master && s3.master == s1.master && s4.master == s1.master
            && s1.ann.width == s2.ann.width == s3.ann.width == s4.ann.width == s.ann.width
            && (forall t :: InCloud(s3, t) <==> InCloud(s, t) || Covers(ps, t))
            && (ps.rows != [] ==> Incoming(s2, ps, FirstSlice(ps)))
            && (ps.rows != [] ==> var lo := FirstSlice(ps); Base(s2) <= lo && lo + |ps.rows| - 1 <= Top(s2))
  {
    hide Good, Merge, SetUsedInRun, SetOriginalPos, ResetAnnotations, IsAnchor, KeepsAnchors, AnnotationRows, SliceRows;
    GoodIsAligned(s);
    FinishKeepsAnchors(s, r, toolStart, ps);
    DeliveryMerges(s, r, toolStart, ps);
    DeliveredPoints(s, r, toolStart, ps);
    var lo := FirstSlice(ps);
    var s1 := Merge(s, ps);
    MergeFrame(s, ps);
    var s2 := SetUsedInRun(s1, toolStart, true);
    UsedInRunMarks(s1, toolStart, true);
    PositionsStored(s2, ps, lo, 0);
    assert StartSlice(r, toolStart) == toolStart;
    if r.startIndex != r.targetIndex {
      ResetMarks(SetOriginalPos(s2, ps, 0), r.startIndex, r.targetIndex);
    }
    GoodIsAligned(Finish(s, r, toolStart, ps));
  }

  lemma AlignedHasPoints(s: Seg)
    requires Aligned(s)
    ensures 0 < s.ann.width && InCloud(s, Base(s))
  {}

  /** One point through the stages. */
  lemma FinishPoint(s: Seg, r: Request, toolStart: int, ps: PointSet, u: int, j: nat)
    requires Good(s) && Safe(s, r, toolStart) && Delivers(s, r, toolStart, ps)
    requires j < s.ann.width && InCloud(Finish(s, r, toolStart, ps), u)
    ensures forall i | 0 <= i < |ps.rows| :: |ps.rows[i]| == s.ann.width
    ensures Aligned(s) && Aligned(Finish(s, r, toolStart, ps))
    ensures |AnnRow(Finish(s, r, toolStart, ps), u)| == s.ann.width
    ensures AnnRow(Finish(s, r, toolStart, ps), u)[j] == FinishedAnnotation(s, r, toolStart, ps, u, j)
  {
    hide Good, Safe, Delivers, Merge, SetUsedInRun, SetOriginalPos, ResetAnnotations, Finish, Cleared, Aligned, Incoming, IsAnchor;
    GoodIsAligned(s);
    FinishStages(s, r, toolStart, ps);
    DeliveredPoints(s, r, toolStart, ps);
    var lo := FirstSlice(ps);
    var s1 := Merge(s, ps);
    var s2 := SetUsedInRun(s1, toolStart, true);
    var s3 := SetOriginalPos(s2, ps, 0);
    AllRows(s1);
    AllRows(s2);
    AllRows(s3);
    AllRows(Finish(s, r, toolStart, ps));
    hide FirstSlice, FinishedAnnotation;
    UsedInRunMarks(s1, toolStart, true);
    PositionsStored(s2, ps, lo, 0);
    var a1, a2, a3, a4 := AnnRow(s1, u)[j], AnnRow(s2, u)[j], AnnRow(s3, u)[j], AnnRow(Finish(s, r, toolStart, ps), u)[j];
    if r.startIndex != r.targetIndex {
      ResetMarks(s3, r.startIndex, r.targetIndex);
    }
    FinishedInSteps(s, r, toolStart, ps, u, j, a1, a2, a3, a4);
  }

  lemma FinishedInSteps(s: Seg, r: Request, toolStart: int, ps: PointSet, u: int, j: nat,
                        a1: Annotation, a2: Annotation, a3: Annotation, a4: Annotation)
    requires Aligned(s) && j < s.ann.width && forall i | 0 <= i < |ps.rows| :: |ps.rows[i]| == s.ann.width
    requires InCloud(s, u) ==> |AnnRow(s, u)| == s.ann.width
    requires a1 == if InCloud(s, u) then AnnRow(s, u)[j] else DefaultAnnotation(u)
    requires a2 == if u == toolStart then a1.(flags := a1.flags.(usedInRun := true)) else a1
    requires var lo := FirstSlice(ps);
             a3 == if lo <= u < lo + |ps.rows| then a2.(x := ps.rows[u - lo][j].x, y := ps.rows[u - lo][j].y) else a2
    requires var last := if r.startIndex < r.targetIndex then s.ann.width - 1 else 0;
             a4 == if r.startIndex != r.targetIndex && (InCloud(s, r.startIndex) || Covers(ps, r.startIndex))
                      && Min(r.startIndex, r.targetIndex) <= u <= Max(r.startIndex, r.targetIndex)
                      && !(u == r.targetIndex && j == last)
                   then Cleared(a3) else a3
    ensures a4 == FinishedAnnotation(s, r, toolStart, ps, u, j)
  {
    ClearedIs(a3);
    hide Aligned, Cleared, FirstSlice;
  }

  /** Every annotation of s' is the finished one. */
  ghost predicate FinishedPoints(s: Seg, r: Request, toolStart: int, ps: PointSet, s': Seg)
    requires Aligned(s) && Aligned(s') && forall i | 0 <= i < |ps.rows| :: |ps.rows[i]| == s.ann.width
  {
    && (forall u | InCloud(s', u) :: |AnnRow(s', u)| == s.ann.width)
    && forall u, j | InCloud(s', u) && 0 <= j < s.ann.width :: AnnRow(s', u)[j] == FinishedAnnotation(s, r, toolStart, ps, u, j)
  }

  /** All that a finished run changes, for every point of the cloud. */
  lemma FinishMeaning(s: Seg, r: Request, toolStart: int, ps: PointSet)
    requires Good(s) && Safe(s, r, toolStart) && Delivers(s, r, toolStart, ps)
    ensures Aligned(s) && forall i | 0 <= i < |ps.rows| :: |ps.rows[i]| == s.ann.width
    ensures var s', lo, n := Finish(s, r, toolStart, ps), FirstSlice(ps), |ps.rows|;
            && Aligned(s') && s'.ann.width == s.ann.width
            && Base(s') == (if n == 0 then Base(s) else Min(Base(s), lo))
            && Top(s') == (if n == 0 then Top(s) else Max(Top(s), lo + n - 1))
            && (forall u | InCloud(s', u) :: MasterRow(s', u) == DeliveredRow(s, lo, ps, u))
            && FinishedPoints(s, r, toolStart, ps, s')
  {
    hide Good, Safe, Delivers, Merge, Finish, SetUsedInRun, SetOriginalPos, ResetAnnotations, Aligned, FirstSlice, Cleared;
    FinishStages(s, r, toolStart, ps);
    DeliveredPoints(s, r, toolStart, ps);
    var s' := Finish(s, r, toolStart, ps);
    AlignedHasPoints(s');
    FinishPoint(s, r, toolStart, ps, Base(s'), 0);
    forall u | InCloud(s', u)
      ensures MasterRow(s', u) == DeliveredRow(s, FirstSlice(ps), ps, u)
    {
      assert InCloud(Merge(s, ps), u) && MasterRow(Merge(s, ps), u) == MasterRow(s', u);
    }
    AllRows(s');
    forall u, j | InCloud(s', u) && 0 <= j < s.ann.width
      ensures AnnRow(s', u)[j] == FinishedAnnotation(s, r, toolStart, ps, u, j)
    {
      FinishPoint(s, r, toolStart, ps, u, j);
    }
  }

  /** An anchor keeps its points through a run exactly when it is not the tool slice, or the result has no row
      there, or the starting chain is the row the cloud has there when the result arrives. */
  lemma FinishKeepsIff(s: Seg, r: Request, toolStart: int, ps: PointSet, t: int)
    requires Good(s) && Safe(s, r, toolStart) && Delivers(s, r, toolStart, ps) && IsAnchor(s, t)
    ensures var s' := Finish(s, r, toolStart, ps);
            && InCloud(s, t) && InCloud(s', t)
            && (MasterRow(s', t) == MasterRow(s, t)
                <==> !(t == toolStart && Covers(ps, toolStart) && r.chain != MasterRow(s, toolStart)))
  {
    hide Good, Delivers, Finish, FinishedPoints;
    FinishMeaning(s, r, toolStart, ps);
    FinishKeepsAnchors(s, r, toolStart, ps);
    if ps.rows != [] {
      DeliveryTouches(s, r, toolStart, ps);
    }
    if Covers(ps, toolStart) {
      DeliveredChain(s, r, toolStart, ps);
    }
  }

  lemma DeliveredChain(s: Seg, r: Request, toolStart: int, ps: PointSet)
    requires Delivers(s, r, toolStart, ps) && Covers(ps, toolStart)
    ensures ps.rows[toolStart - FirstSlice(ps)] == r.chain
  {}

  // ----- resetting beyond the cloud -----

  /** Does the reset after a run write within the annotation cloud? Without a row for the start slice it writes nothing. */
  predicate ResetFits(s: Seg, r: Request) {
    var a := RowIndex(s, r.startIndex);
    r.startIndex == r.targetIndex || a == -1 || SweepFits(|s.ann.rows|, s.ann.width, a + (r.targetIndex - r.startIndex))
  }

  /** The segment just before the reset. */
  function Stored(s: Seg, r: Request, toolStart: int, ps: PointSet): Seg {
    SetOriginalPos(SetUsedInRun(Merge(s, ps), StartSlice(r, toolStart), true), ps, 0)
  }

  /** The reset stays within the cloud exactly when there is nothing to reset, or the planned target is reached by
      cloud and result together; with a single column the target may lie one slice beyond. */
  lemma ResetFitsIff(s: Seg, r: Request, toolStart: int, ps: PointSet)
    requires Good(s) && Safe(s, r, toolStart) && Delivers(s, r, toolStart, ps)
    ensures var end := if Upward(r, toolStart) then r.targetIndex - 1 else r.targetIndex + 1;
            ResetFits(Stored(s, r, toolStart, ps), r)
            <==> || r.startIndex == r.targetIndex
                 || !(InCloud(s, r.startIndex) || Covers(ps, r.startIndex))
                 || InCloud(s, r.targetIndex) || Covers(ps, r.targetIndex)
                 || (s.ann.width == 1 && (InCloud(s, end) || Covers(ps, end)))
  {
    hide Good, Delivers, Merge, SetUsedInRun, SetOriginalPos, RowIndex, Aligned, IsAnchor;
    FinishStages(s, r, toolStart, ps);
    assert StartSlice(r, toolStart) == toolStart;
    var s3 := Stored(s, r, toolStart, ps);
    RowIndexIs(s3, r.startIndex);
    RowCount(s3);
  }

  lemma RowCount(s: Seg)
    requires Aligned(s)
    ensures |s.ann.rows| == Top(s) - Base(s) + 1
  {}

  /** A forward run that stops early: with more than one column its reset writes behind the annotation cloud,
      unless the cloud already went as far as the target. */
  lemma EarlyStopFitsIff(s: Seg, r: Request, toolStart: int, ps: PointSet)
    requires Good(s) && Safe(s, r, toolStart) && Delivers(s, r, toolStart, ps) && Upward(r, toolStart)
    requires s.ann.width > 1 && r.startIndex < r.targetIndex && Covers(ps, r.startIndex)
    ensures ResetFits(Stored(s, r, toolStart, ps), r)
            <==> InCloud(s, r.targetIndex) || FirstSlice(ps) + |ps.rows| - 1 == r.targetIndex
  {
    hide Good, ResetFits, Stored, FirstSlice, Incoming;
    ResetFitsIff(s, r, toolStart, ps);
  }

  // ----- where the promises fail -----

  /** Local reslice hands back the chain it started from. Where that is not the row of the cloud, as after a changed
      curve was resampled into the cloud, every run of any segment puts the chain over it: an anchor with other
      points than before. */
  lemma ChainOverwritesAnchor(s: Seg, r: Request, toolStart: int, ps: PointSet)
    requires Good(s) && Safe(s, r, toolStart) && Upward(r, toolStart) && IsAnchor(s, toolStart)
    requires Incoming(s, ps, toolStart) && ps.rows[0] == r.chain && toolStart + |ps.rows| - 1 <= r.targetIndex
    requires r.chain != MasterRow(s, toolStart)
    ensures Delivers(s, r, toolStart, ps)
    ensures var s' := Finish(s, r, toolStart, ps);
            IsAnchor(s', toolStart) && InCloud(s', toolStart) && MasterRow(s', toolStart) == r.chain
  {
    hide Good, Finish, IsAnchor, FinishedPoints;
    LocalResliceDelivers(s, r, toolStart, ps);
    GoodIsAligned(s);
    IncomingStarts(s, ps, toolStart);
    FinishMeaning(s, r, toolStart, ps);
    FinishKeepsAnchors(s, r, toolStart, ps);
  }

  /** A forward run over several slices that stops before its target, on a cloud that does not go as far either: with
      more than one column the reset writes behind the annotations. */
  lemma EarlyStopWritesBehind(s: Seg, r: Request, toolStart: int, ps: PointSet)
    requires Good(s) && Safe(s, r, toolStart) && Upward(r, toolStart) && 1 < s.ann.width && Top(s) < r.targetIndex
    requires Incoming(s, ps, toolStart) && ps.rows[0] == r.chain
    requires 1 < |ps.rows| && toolStart + |ps.rows| - 1 < r.targetIndex
    ensures Delivers(s, r, toolStart, ps) && !ResetFits(Stored(s, r, toolStart, ps), r)
  {
    hide Good, Stored, ResetFits, Incoming;
    LocalResliceDelivers(s, r, toolStart, ps);
    GoodIsAligned(s);
    IncomingStarts(s, ps, toolStart);
    EarlyStopFitsIff(s, r, toolStart, ps);
  }

  /** The point the reset leaves out, the last one of the last slice going up and the first one going down, keeps its
      flags: a manual mark there survives a run that has moved the point. */
  lemma RunLeavesMark(s: Seg, r: Request, toolStart: int, ps: PointSet)
    requires Good(s) && Safe(s, r, toolStart) && Delivers(s, r, toolStart, ps)
    requires r.startIndex != r.targetIndex && InCloud(s, r.targetIndex)
    ensures var s', end := Finish(s, r, toolStart, ps), r.targetIndex;
            var j := if r.startIndex < end then s.ann.width - 1 else 0;
            && Aligned(s) && Aligned(s') && InCloud(s', end) && j < |AnnRow(s, end)| == |AnnRow(s', end)|
            && AnnRow(s', end)[j].flags == AnnRow(s, end)[j].flags
  {
    hide Good, Delivers, Finish, FirstSlice, Cleared;
    GoodIsAligned(s);
    AllRows(s);
    FinishMeaning(s, r, toolStart, ps);
    FinishKeepsAnchors(s, r, toolStart, ps);
    var j := if r.startIndex < r.targetIndex then s.ann.width - 1 else 0;
    assert AnnRow(Finish(s, r, toolStart, ps), r.targetIndex)[j] == FinishedAnnotation(s, r, toolStart, ps, r.targetIndex, j);
  }

  // ----- inputs on which they fail -----

  /** Three points at even distances, as resampling leaves them, and the same curve with the middle point dragged;
      its end points are where they were. */
  const EVEN: Row := [Point(0.0, 0.0, 10), Point(5.0, 0.0, 10), Point(10.0, 0.0, 10)]
  const DRAGGED: Row := [Point(0.0, 0.0, 10), Point(1.0, 0.0, 10), Point(10.0, 0.0, 10)]

  function MovedTo(row: Row, z: int): Row {
    seq(|row|, j requires 0 <= j < |row| => row[j].(z := z))
  }

  /** The curve on n slices, one after the other. */
  function Copies(row: Row, lo: int, n: nat): seq<Row> {
    seq(n, i requires 0 <= i < n => MovedTo(row, lo + i))
  }

  /** The starting chain on slice 10 and n even rows behind it. */
  function Resliced(chain: Row, n: nat): PointSet {
    OrderedPointSet(|chain|, [chain] + Copies(EVEN, 11, n))
  }

  lemma ReslicedIs(chain: Row, n: nat)
    requires SliceRow(chain, 3, 10)
    ensures SliceRows(Resliced(chain, n).rows, 3, 10) && Resliced(chain, n).rows[0] == chain && |Resliced(chain, n).rows| == n + 1
  {
    var rows := Resliced(chain, n).rows;
    forall i | 0 <= i < |rows| ensures SliceRow(rows[i], 3, 10 + i) {
      if i > 0 {
        assert rows[i] == MovedTo(EVEN, 11 + (i - 1));
      }
    }
  }

  /** A segment with the even curve on slices 10 to 10 + n. Slice 10 is an anchor; on the last slice the last point is
      marked as manual, as it stays when a user takes an anchor back. */
  function EvenSegment(n: nat): Seg {
    Seg(Resliced(EVEN, n), OrderedPointSet(3, seq(n + 1, i requires 0 <= i < n + 1 => ExampleMarks(i, i == n > 0))),
        map[10 := Flags(true, false, false)], {}, 10)
  }

  function ExampleMarks(i: nat, last: bool): (row: AnnotationRow)
    ensures AnnotatesSlice(row, 3, 10 + i) && HasAnchorBit(row) == (i == 0) && (last ==> row[2].flags.manual)
  {
    var a := Annotation(10 + i, Flags(i == 0, false, false), 0.0, 0.0);
    var row := [a, a, a.(flags := a.flags.(manual := last))];
    assert row[0] == a;
    row
  }

  lemma EvenSegmentIsGood(n: nat)
    ensures var s := EvenSegment(n);
            && Good(s) && Base(s) == 10 && Top(s) == 10 + n && s.ann.width == s.master.width == 3
            && (forall t :: IsAnchor(s, t) <==> t == 10) && MasterRow(s, 10) == EVEN
            && (n > 0 ==> AnnRow(s, 10 + n)[2].flags.manual)
  {
    var s := EvenSegment(n);
    ReslicedIs(EVEN, n);
    assert SliceRow(s.master.rows[0], 3, 10 + 0);
    forall i | 0 <= i <= n ensures s.ann.rows[i] == ExampleMarks(i, i == n > 0) {}
    hide ExampleMarks, HasAnchorBit;
    forall t ensures IsAnchor(s, t) <==> t == 10 {}
  }

  /** A chain that was dragged, against its resampled curve in the cloud: the run to slice 12 brings it back. */
  lemma DraggedChainOverwrites()
    ensures var s, r, ps := EvenSegment(0), Request("", 11, 12, DRAGGED), Resliced(DRAGGED, 2);
            && Good(s) && Safe(s, r, 10) && Delivers(s, r, 10, ps) && IsAnchor(s, 10)
            && InCloud(Finish(s, r, 10, ps), 10) && MasterRow(Finish(s, r, 10, ps), 10) == DRAGGED != MasterRow(s, 10)
  {
    var s, r, ps := EvenSegment(0), Request("", 11, 12, DRAGGED), Resliced(DRAGGED, 2);
    EvenSegmentIsGood(0);
    ReslicedIs(DRAGGED, 2);
    assert DRAGGED[1] != EVEN[1];
    hide Good, Finish, EvenSegment, Resliced, IsAnchor;
    ChainOverwritesAnchor(s, r, 10, ps);
  }

  /** A run to slice 20 from a cloud that ends on slice 10 stops after slice 14. */
  lemma StoppedRunWritesBehind()
    ensures var s, r, ps := EvenSegment(0), Request("", 11, 20, EVEN), Resliced(EVEN, 4);
            Good(s) && Safe(s, r, 10) && Delivers(s, r, 10, ps) && !ResetFits(Stored(s, r, 10, ps), r)
  {
    var s, r, ps := EvenSegment(0), Request("", 11, 20, EVEN), Resliced(EVEN, 4);
    EvenSegmentIsGood(0);
    ReslicedIs(EVEN, 4);
    hide Good, Stored, ResetFits, EvenSegment, Resliced, IsAnchor;
    EarlyStopWritesBehind(s, r, 10, ps);
  }

  /** A run to slice 12, whose last point carries a manual mark, leaves the mark. */
  lemma FinishedRunLeavesMark()
    ensures var s, r, ps := EvenSegment(2), Request("", 11, 12, EVEN), Resliced(EVEN, 2);
            && Good(s) && Safe(s, r, 10) && Delivers(s, r, 10, ps)
            && var s' := Finish(s, r, 10, ps);
               Aligned(s') && InCloud(s', 12) && |AnnRow(s', 12)| == 3 && AnnRow(s', 12)[2].flags.manual
  {
    var s, r, ps := EvenSegment(2), Request("", 11, 12, EVEN), Resliced(EVEN, 2);
    EvenSegmentIsGood(2);
    ReslicedIs(EVEN, 2);
    hide Good, Finish, EvenSegment, Resliced, IsAnchor, Delivers;
    LocalResliceDelivers(s, r, 10, ps);
    GoodIsAligned(s);
    AllRows(s);
    RunLeavesMark(s, r, 10, ps);
  }

  /** What was safe to run before an event is safe after it. */
  lemma StaysSafe(s: Seg, s': Seg, r: Request, toolStart: int)
    requires Safe(s, r, toolStart)
    requires forall t :: IsAnchor(s', t) == IsAnchor(s, t)
    requires forall t | InCloud(s, t) :: InCloud(s', t)
    ensures Safe(s', r, toolStart)
  {}
}
