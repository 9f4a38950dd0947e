/** A whole session with the segmentation tool: anchors toggled by hand, runs
    started on any number of segments, results and failures arriving in order.
    Every event keeps the invariant, under which no run can touch an anchor bit. */
module SegmentationSession {
  import opened Geometry
  import opened Segmentation
  import opened AnchorCache
  import opened SegmentationRuns

  datatype Mode = NoRun | ToSlice(endIndex: int) | ToAnchor(unusedIndex: int)

  datatype Algorithm = Lrps | Ofs

  /** What the user chose for a run from toolStart. */
  datatype Choice = Choice(algorithm: Algorithm, toolStart: int, backward: Mode, forward: Mode, stepSize: int, numSlices: int)

  /** A segment that takes part, with its changed curve on the tool slice, resampled, if there is one (no rows
      otherwise), and the chain its runs start from. */
  datatype Active = Active(segId: string, changed: PointSet, chain: Row)

  datatype Win = Win(segs: map<string, Seg>, queue: seq<Request>, toolStart: int)

  datatype Event =
    | Toggle(segId: string, t: int, on: bool)
    | Buffer(segId: string, points: set<int>)
    | Unbuffer(segId: string, points: set<int>)
    | Start(choice: Choice, actives: seq<Active>)
    | Keep(toolStart: int, kept: map<string, PointSet>, leave: bool)
    | Finished(ps: PointSet)
    | Failed

  // ----- starting -----

  /** Before planning: the changed curve goes into the cloud and the tool slice becomes an anchor. */
  function Prepare(s: Seg, toolStart: int, changed: PointSet): Seg {
    var anchored := SetAnchor(Merge(s, changed), toolStart, true);
    SetManualPoints(anchored, toolStart).(buffered := {})
  }

  function LookUp(s: Seg, forward: bool, toolStart: int, numSlices: int): Seg {
    if forward then LookUpHigher(s, toolStart, numSlices) else LookUpLower(s, toolStart)
  }

  function PlanRun(s: Seg, forward: bool, mode: Mode, toolStart: int, numSlices: int, step: int): Plan
    requires !mode.NoRun?
  {
    var end := if mode.ToSlice? then mode.endIndex else mode.unusedIndex;
    var plan := PlanBase(TargetAnchor(s, forward, toolStart, numSlices), forward, mode.ToAnchor?, toolStart, end);
    if plan.skip then plan else PlanSteps(plan.params, forward, mode.ToAnchor?, step)
  }

  /** The requests one direction adds to the queue. */
  function Requests(s: Seg, segId: string, chain: Row, forward: bool, mode: Mode,
                    toolStart: int, numSlices: int, step: int): seq<Request> {
    if mode.NoRun? then []
    else
      var plan := PlanRun(s, forward, mode, toolStart, numSlices, step);
      if plan.skip then [] else [Request(segId, plan.params.startIndex, plan.params.targetIndex, chain)]
  }

  function AfterPlanning(s: Seg, forward: bool, mode: Mode, toolStart: int, numSlices: int): Seg {
    if mode.NoRun? then s else LookUp(s, forward, toolStart, numSlices)
  }

  /** LRPS knows no backward runs and no step size. */
  function BackwardMode(c: Choice): Mode {
    if c.algorithm.Lrps? then NoRun else c.backward
  }

  function StepSize(c: Choice): int {
    if c.algorithm.Lrps? then 1 else c.stepSize
  }

  /** The segment and its requests after both directions are planned, backward first. */
  function Started(s: Seg, a: Active, c: Choice): (Seg, seq<Request>) {
    var s0 := Prepare(s, c.toolStart, a.changed);
    var s1 := AfterPlanning(s0, false, BackwardMode(c), c.toolStart, c.numSlices);
    (AfterPlanning(s1, true, c.forward, c.toolStart, c.numSlices),
     Requests(s0, a.segId, a.chain, false, BackwardMode(c), c.toolStart, c.numSlices, StepSize(c))
       + Requests(s1, a.segId, a.chain, true, c.forward, c.toolStart, c.numSlices, StepSize(c)))
  }

  function StartAll(w: Win, c: Choice, actives: seq<Active>): Win
    requires forall a | a in actives :: a.segId in w.segs
    decreases |actives|
  {
    if actives == [] then w
    else
      var a := actives[0];
      var (s, requests) := Started(w.segs[a.segId], a, c);
      StartAll(w.(segs := w.segs[a.segId := s], queue := w.queue + requests), c, actives[1..])
  }

  /** Keeping a changed curve without a run: the tool slice becomes an anchor, unused, and gets the curve. */
  function KeepChanges(s: Seg, toolStart: int, changed: PointSet): Seg {
    var marked := SetManualPoints(SetAnchor(s, toolStart, true), toolStart);
    Merge(SetUsedInRun(marked, toolStart, false), changed)
  }

  function KeepAll(w: Win, toolStart: int, kept: map<string, PointSet>): Win {
    w.(segs := map id | id in w.segs :: if id in kept then KeepChanges(w.segs[id], toolStart, kept[id]) else w.segs[id])
  }

  // ----- the machine -----

  /** Leaving the tool after the last run: caches and slice numbers are set up anew, if there are points. */
  function CleanUp(s: Seg): Seg {
    SetUpAnnotations(s.(buffered := {}, minSlice := if s.master.rows == [] then s.minSlice else Base(s)))
  }

  /** Toggling by hand: the anchor is looked up, then set. */
  function Toggled(s: Seg, t: int, on: bool): Seg {
    SetAnchor(LookedUp(s, t), t, on)
  }

  function LookedUp(s: Seg, t: int): Seg {
    s.(cache := InsertDefaults(s.cache, t, t))
  }

  function Dequeued(w: Win): Win
    requires w.queue != []
  {
    Settled(w.(queue := w.queue[1..]))
  }

  /** With nothing left to run, every segment is cleaned up. */
  function Settled(w: Win): Win {
    if w.queue == [] then w.(segs := map id | id in w.segs :: CleanUp(w.segs[id])) else w
  }

  /** The end slices the spin boxes allow. */
  predicate ModeFits(mode: Mode, forward: bool, c: Choice) {
    !mode.NoRun? ==>
      var end := if mode.ToSlice? then mode.endIndex else mode.unusedIndex;
      if forward then c.toolStart <= end < c.numSlices else 0 <= end <= c.toolStart
  }

  ghost predicate ActiveFits(w: Win, a: Active, c: Choice) {
    && a.segId in w.segs
    && InCloud(w.segs[a.segId], c.toolStart)
    && ChangedFits(w.segs[a.segId], c.toolStart, a.changed)
  }

  predicate ChangedFits(s: Seg, toolStart: int, changed: PointSet) {
    changed.rows != [] ==> |changed.rows| == 1 && Incoming(s, changed, toolStart)
  }

  /** When an event can happen: the widgets are locked while runs are queued, results are what
      segmenters deliver for the run submitted first. */
  ghost predicate CanHappen(w: Win, e: Event) {
    match e
    case Toggle(segId, _, _) => w.queue == [] && segId in w.segs
    case Buffer(segId, points) =>
      w.queue == [] && segId in w.segs && forall j | j in points :: 0 <= j < w.segs[segId].ann.width
    case Unbuffer(segId, _) => w.queue == [] && segId in w.segs
    case Start(c, actives) =>
      && w.queue == [] && 0 <= c.toolStart
      && ModeFits(c.backward, false, c) && ModeFits(c.forward, true, c)
      && (forall a | a in actives :: ActiveFits(w, a, c))
      && (forall i, j | 0 <= i < j < |actives| :: actives[i].segId != actives[j].segId)
    case Finished(ps) =>
      && w.queue != [] && w.queue[0].segId in w.segs
      && Delivers(w.segs[w.queue[0].segId], w.queue[0], w.toolStart, ps)
    case Keep(toolStart, kept, _) =>
      w.queue == [] && forall id | id in kept :: KeepFits(w, id, toolStart, kept[id])
    case Failed => w.queue != []
  }

  ghost predicate KeepFits(w: Win, id: string, toolStart: int, changed: PointSet) {
    id in w.segs && InCloud(w.segs[id], toolStart) && ChangedFits(w.segs[id], toolStart, changed)
  }

  function StartedWin(w: Win, c: Choice, actives: seq<Active>): Win
    requires forall a | a in actives :: a.segId in w.segs
  {
    Settled(StartAll(w.(toolStart := c.toolStart), c, actives))
  }

  ghost function Next(w: Win, e: Event): Win
    requires CanHappen(w, e)
  {
    match e
    case Toggle(segId, t, on) => w.(segs := w.segs[segId := Toggled(w.segs[segId], t, on)])
    case Buffer(segId, points) =>
      w.(segs := w.segs[segId := w.segs[segId].(buffered := w.segs[segId].buffered + points)])
    case Unbuffer(segId, points) =>
      w.(segs := w.segs[segId := w.segs[segId].(buffered := w.segs[segId].buffered - points)])
    case Start(c, actives) => StartedWin(w, c, actives)
    case Finished(ps) =>
      var r := w.queue[0];
      Dequeued(w.(segs := w.segs[r.segId := Finish(w.segs[r.segId], r, w.toolStart, ps)]))
    case Keep(toolStart, kept, leave) =>
      var w' := KeepAll(w, toolStart, kept);
      if leave then Settled(w') else w'
    case Failed => Dequeued(w)
  }

  ghost predicate Sound(s: Seg) {
    Good(s) && Base(s) >= 0
  }

  /** Nothing was drawn or loaded for the segment yet. */
  predicate Empty(s: Seg) {
    s.master.rows == [] && s.ann.rows == []
  }

  ghost predicate Fine(s: Seg) {
    Empty(s) || Sound(s)
  }

  /** Between runs: what must hold of a segment before the tool can start on it. */
  ghost predicate Ready(s: Seg) {
    Sound(s) && s.minSlice == Base(s)
  }

  ghost predicate Waiting(s: Seg) {
    Empty(s) || Ready(s)
  }

  /** Every segment is good or still empty, and every queued run is safe for its segment. */
  ghost predicate Inv(w: Win) {
    && (forall id | id in w.segs :: Fine(w.segs[id]) && (w.queue == [] ==> Waiting(w.segs[id])))
    && forall i | 0 <= i < |w.queue| ::
         w.queue[i].segId in w.segs && Safe(w.segs[w.queue[i].segId], w.queue[i], w.toolStart)
  }

  /** No anchor bit of the row is lost. */
  predicate BitsKept(row: AnnotationRow, row': AnnotationRow) {
    |row| == |row'| && forall j | 0 <= j < |row| :: row[j].flags.anchor ==> row'[j].flags.anchor
  }

  /** Slice t is still an anchor, with every anchor bit it had. */
  ghost predicate AnchorKept(s: Seg, s': Seg, t: int) {
    && Aligned(s) && Aligned(s') && InCloud(s, t) && InCloud(s', t) && IsAnchor(s', t)
    && BitsKept(AnnRow(s, t), AnnRow(s', t))
  }

  /** The event does not toggle slice t itself. */
  predicate LeavesAlone(e: Event, id: string, t: int) {
    e.Toggle? ==> !(e.segId == id && e.t == t)
  }

  // ----- preparing and planning keep anchors -----

  lemma AnchorKeptTrans(s: Seg, s1: Seg, s2: Seg, t: int)
    requires AnchorKept(s, s1, t) && AnchorKept(s1, s2, t)
    ensures AnchorKept(s, s2, t)
  {}

  lemma AnchorKeptSelf(s: Seg, t: int)
    requires Aligned(s) && IsAnchor(s, t)
    ensures AnchorKept(s, s, t)
  {}

  lemma KeptByKeeps(s: Seg, s': Seg, t: int)
    requires exists lost :: KeepsAnchors(s, s', lost)
    requires IsAnchor(s, t) && IsAnchor(s', t)
    ensures AnchorKept(s, s', t)
  {
    var lost :| KeepsAnchors(s, s', lost);
    assert Keeps(s, s', t, lost);
  }

  lemma KeptBySameAnchors(s: Seg, s': Seg, t: int)
    requires Aligned(s) && Aligned(s') && SameAnchors(s, s') && IsAnchor(s, t)
    ensures AnchorKept(s, s', t)
  {
    hide Aligned, IsAnchor, SameAnchors;
    SameAnchorsKeeps(s, s');
    SameBitsSameAnchors(s, s');
    assert KeepsAnchors(s, s', {});
    KeptByKeeps(s, s', t);
  }

  /** Toggling keeps every other anchor, and switching on keeps the slice itself. */
  lemma ToggleKeeps(s: Seg, t: int, on: bool, u: int)
    requires Good(s) && IsAnchor(s, u) && (u == t ==> on)
    ensures AnchorKept(s, SetAnchor(s, t, on), u)
  {
    RowIndexIs(s, t);
    SetAnchorGood(s, t, on);
    ToggleElsewhere(s, t, on);
    RowOf(s, u);
    if u == t {
      var row := AnnRow(s, t);
      assert AnnRow(SetAnchor(s, t, on), t) == WithAnchor(row, on);
    } else {
      assert AnnRow(SetAnchor(s, t, on), u) == AnnRow(s, u);
    }
  }

  lemma ChangedMerges(s: Seg, toolStart: int, changed: PointSet)
    requires Good(s) && InCloud(s, toolStart) && ChangedFits(s, toolStart, changed)
    ensures var s' := Merge(s, changed);
            && Good(s') && Base(s') == Base(s) && Top(s') == Top(s) && s'.minSlice == s.minSlice
            && (forall t :: IsAnchor(s', t) == IsAnchor(s, t))
            && (forall t | IsAnchor(s, t) :: AnchorKept(s, s', t))
  {
    var s' := Merge(s, changed);
    if changed.rows == [] {
      EmptyMerge(s, changed);
      forall t | IsAnchor(s, t) ensures AnchorKept(s, s', t) {
        AnchorKeptSelf(s, t);
      }
    } else {
      hide Merge, IsAnchor, Good;
      GoodIsAligned(s);
      MergeFrame(s, changed);
      MergeGood(s, changed, toolStart);
      MergeMeaning(s, changed, toolStart);
      forall t | IsAnchor(s, t) ensures AnchorKept(s, s', t) {
        AnchorIsRowBit(s, t);
        assert AnnRow(s', t) == AnnRow(s, t);
      }
    }
  }

  lemma PrepareKeeps(s: Seg, toolStart: int, changed: PointSet)
    requires Sound(s) && InCloud(s, toolStart) && ChangedFits(s, toolStart, changed)
    ensures var s' := Prepare(s, toolStart, changed);
            && Sound(s') && Base(s') == Base(s) && Top(s') == Top(s) && s'.minSlice == s.minSlice
            && IsAnchor(s', toolStart)
            && (forall t | IsAnchor(s, t) :: AnchorKept(s, s', t))
  {
    hide Merge, IsAnchor, SetAnchor, SetManualPoints, AnchorKept, Aligned, Coherent, SameAnchors;
    var s1 := Merge(s, changed);
    ChangedMerges(s, toolStart, changed);
    var s2 := SetAnchor(s1, toolStart, true);
    SetAnchorGood(s1, toolStart, true);
    SetAnchorFrame(s1, toolStart, true);
    var s3 := SetManualPoints(s2, toolStart);
    SetManualPointsGood(s2, toolStart);
    SetManualPointsFrame(s2, toolStart);
    SameBitsSameAnchors(s2, s3);
    SameAnchorsKeeps(s2, s3);
    var s4 := s3.(buffered := {});
    Unbuffered(s3);
    forall t | IsAnchor(s, t) ensures AnchorKept(s, s4, t) {
      ToggleKeeps(s1, toolStart, true, t);
      AnchorKeptTrans(s, s1, s2, t);
      AnchorKeptAnchors(s1, s2, t);
      KeptBySameAnchors(s2, s3, t);
      AnchorKeptTrans(s, s2, s3, t);
      AnchorKeptAnchors(s2, s3, t);
      KeptBySameAnchors(s3, s4, t);
      AnchorKeptTrans(s, s3, s4, t);
    }
  }

  /** The merge of a changed curve replaces the points of the tool slice and nothing else. */
  lemma ChangedPoints(s: Seg, toolStart: int, changed: PointSet)
    requires Good(s) && InCloud(s, toolStart) && ChangedFits(s, toolStart, changed)
    ensures var s' := Merge(s, changed);
            && Aligned(s) && Aligned(s') && Base(s') == Base(s) && Top(s') == Top(s)
            && s'.ann.width == s.ann.width && s'.buffered == s.buffered
            && forall u | InCloud(s, u) ::
                 && MasterRow(s', u) == (if u == toolStart && changed.rows != [] then changed.rows[0] else MasterRow(s, u))
                 && AnnRow(s', u) == AnnRow(s, u)
  {
    GoodIsAligned(s);
    if changed.rows == [] {
      EmptyMerge(s, changed);
    } else {
      hide Merge, Good, IsAnchor;
      MergeFrame(s, changed);
      MergeMeaning(s, changed, toolStart);
    }
  }

  /** What preparing a run does to every point: the changed curve is in the cloud, the tool slice is an anchor
      with the buffered points marked as manual, all else is as before, and the buffer is empty. */
  lemma PrepareMeaning(s: Seg, toolStart: int, changed: PointSet)
    requires Good(s) && InCloud(s, toolStart) && ChangedFits(s, toolStart, changed)
    ensures var s' := Prepare(s, toolStart, changed);
            && Aligned(s) && Aligned(s') && Base(s') == Base(s) && Top(s') == Top(s) && s'.buffered == {}
            && (forall u | InCloud(s, u) ::
                  && |AnnRow(s, u)| == |AnnRow(s', u)| == s.ann.width
                  && MasterRow(s', u) == (if u == toolStart && changed.rows != [] then changed.rows[0] else MasterRow(s, u)))
            && forall u, j {:trigger AnnRow(s', u)[j]} | InCloud(s, u) && 0 <= j < s.ann.width ::
                 AnnRow(s', u)[j] == var a := AnnRow(s, u)[j];
                   if u == toolStart then a.(flags := Flags(true, a.flags.manual || j in s.buffered, a.flags.usedInRun)) else a
  {
    hide Merge, SetAnchor, SetManualPoints, Good, Aligned, ChangedFits;
    ChangedPoints(s, toolStart, changed);
    var s1 := Merge(s, changed);
    AnchorMarks(s1, toolStart, true);
    var s2 := SetAnchor(s1, toolStart, true);
    ManualMarks(s2, toolStart);
    var s3 := SetManualPoints(s2, toolStart);
    AllRows(s);
    AllRows(s1);
    AllRows(s2);
    AllRows(s3);
    var s' := Prepare(s, toolStart, changed);
    BufferIgnored(s3);
    forall u | InCloud(s, u)
      ensures MasterRow(s', u) == (if u == toolStart && changed.rows != [] then changed.rows[0] else MasterRow(s, u))
    {
      assert MasterRow(s3, u) == MasterRow(s1, u);
    }
    forall u, j | InCloud(s, u) && 0 <= j < s.ann.width
      ensures AnnRow(s', u)[j] == var a := AnnRow(s, u)[j];
        if u == toolStart then a.(flags := Flags(true, a.flags.manual || j in s.buffered, a.flags.usedInRun)) else a
    {
      var a, b, c := AnnRow(s1, u)[j], AnnRow(s2, u)[j], AnnRow(s3, u)[j];
      assert b == if u == toolStart then a.(flags := a.flags.(anchor := true)) else a;
      assert c == if u == toolStart && j in s.buffered then b.(flags := b.flags.(manual := true)) else b;
    }
  }

  lemma BufferIgnored(s: Seg)
    requires Aligned(s)
    ensures Aligned(s.(buffered := {}))
  {}

  lemma AnchorKeptAnchors(s: Seg, s': Seg, t: int)
    requires AnchorKept(s, s', t)
    ensures IsAnchor(s', t)
  {}

  lemma SetAnchorFrame(s: Seg, t: int, on: bool)
    ensures SetAnchor(s, t, on).minSlice == s.minSlice && SetAnchor(s, t, on).master == s.master
  {}

  lemma SetManualPointsFrame(s: Seg, t: int)
    ensures SetManualPoints(s, t).minSlice == s.minSlice && SetManualPoints(s, t).master == s.master
  {}

  lemma Unbuffered(s: Seg)
    requires Good(s)
    ensures var s' := s.(buffered := {});
            Good(s') && SameAnchors(s, s') && forall t :: IsAnchor(s', t) == IsAnchor(s, t)
  {
    var s' := s.(buffered := {});
    forall t ensures IsAnchor(s', t) == IsAnchor(s, t) {}
    forall t ensures CacheEntry(s'.cache, t).anchor == IsAnchor(s', t) {
      assert CacheEntry(s.cache, t).anchor == IsAnchor(s, t);
    }
  }

  /** Everything an anchor consists of is as before; used where only the cache changed. */
  ghost predicate SameSlices(s: Seg, s': Seg) {
    && SameAnchors(s, s') && Base(s') == Base(s) && Top(s') == Top(s) && s'.minSlice == s.minSlice
    && forall t :: IsAnchor(s', t) == IsAnchor(s, t)
  }

  lemma LookUpKeeps(s: Seg, forward: bool, toolStart: int, numSlices: int)
    requires Sound(s)
    ensures var s' := LookUp(s, forward, toolStart, numSlices); Sound(s') && SameSlices(s, s')
  {
    hide Good, IsAnchor, SameAnchors;
    LookUpGood(s, toolStart, numSlices);
    SameBitsSameAnchors(s, LookUp(s, forward, toolStart, numSlices));
  }

  lemma PlanningKeeps(s: Seg, forward: bool, mode: Mode, toolStart: int, numSlices: int)
    requires Sound(s)
    ensures var s' := AfterPlanning(s, forward, mode, toolStart, numSlices); Sound(s') && SameSlices(s, s')
  {
    LookUpKeeps(s, forward, toolStart, numSlices);
    hide Good, IsAnchor;
    forall i | 0 <= i < |s.ann.rows| ensures SameBits(s.ann.rows[i], s.ann.rows[i]) {}
  }

  /** Every request that planning produces is safe. */
  lemma RequestsAreSafe(s: Seg, segId: string, chain: Row, forward: bool, mode: Mode, c: Choice)
    requires Sound(s) && s.minSlice == Base(s) && InCloud(s, c.toolStart) && 0 <= c.toolStart
    requires ModeFits(mode, forward, c)
    ensures forall r | r in Requests(s, segId, chain, forward, mode, c.toolStart, c.numSlices, StepSize(c)) ::
              r.segId == segId && r.chain == chain && Safe(s, r, c.toolStart)
  {
    hide Good, IsAnchor, PlanBase, PlanSteps, TargetAnchor;
    if !mode.NoRun? {
      var step := StepSize(c);
      var end := if mode.ToSlice? then mode.endIndex else mode.unusedIndex;
      var base := PlanBase(TargetAnchor(s, forward, c.toolStart, c.numSlices), forward, mode.ToAnchor?, c.toolStart, end);
      PlanIsAnchorFree(s, forward, mode.ToAnchor?, c.toolStart, end, c.numSlices);
      if !base.skip {
        SteppedPlan(base.params, forward, mode.ToAnchor?, c.toolStart, step);
        var p := PlanSteps(base.params, forward, mode.ToAnchor?, step).params;
        SubrangeIsAnchorFree(s, base.params.startIndex, base.params.targetIndex, p.targetIndex);
      }
    }
  }

  lemma SteppedPlan(p: Params, forward: bool, useAnchor: bool, currentIndex: int, step: int)
    requires Directed(p, forward, currentIndex)
    ensures var p' := PlanSteps(p, forward, useAnchor, step).params;
            && Directed(p', forward, currentIndex) && p'.startIndex == p.startIndex
            && (p.startIndex <= p'.targetIndex <= p.targetIndex || p.targetIndex <= p'.targetIndex <= p.startIndex)
  {
    if step > 1 {
      StepsFit(p, forward, useAnchor, currentIndex, step);
    }
  }

  /** A started segment: its tool slice is an anchor, all other anchors are kept, its requests are safe. */
  lemma StartedKeeps(s: Seg, a: Active, c: Choice)
    requires Sound(s) && s.minSlice == Base(s) && InCloud(s, c.toolStart) && 0 <= c.toolStart
    requires ChangedFits(s, c.toolStart, a.changed)
    requires ModeFits(c.backward, false, c) && ModeFits(c.forward, true, c)
    ensures var (s', requests) := Started(s, a, c);
            && Sound(s') && s'.minSlice == Base(s')
            && IsAnchor(s', c.toolStart)
            && (forall t | IsAnchor(s, t) :: AnchorKept(s, s', t))
            && (forall r | r in requests :: r.segId == a.segId && r.chain == a.chain && Safe(s', r, c.toolStart))
  {
    hide Sound, IsAnchor, Prepare, AfterPlanning, Requests, AnchorKept, SameAnchors, AnchorFree, Directed;
    var s0 := Prepare(s, c.toolStart, a.changed);
    PrepareKeeps(s, c.toolStart, a.changed);
    var s1 := AfterPlanning(s0, false, BackwardMode(c), c.toolStart, c.numSlices);
    PlanningKeeps(s0, false, BackwardMode(c), c.toolStart, c.numSlices);
    var s2 := AfterPlanning(s1, true, c.forward, c.toolStart, c.numSlices);
    PlanningKeeps(s1, true, c.forward, c.toolStart, c.numSlices);
    RequestsAreSafe(s0, a.segId, a.chain, false, BackwardMode(c), c);
    RequestsAreSafe(s1, a.segId, a.chain, true, c.forward, c);
    forall r | r in Started(s, a, c).1 ensures r.segId == a.segId && r.chain == a.chain && Safe(s2, r, c.toolStart) {
      if r in Requests(s0, a.segId, a.chain, false, BackwardMode(c), c.toolStart, c.numSlices, StepSize(c)) {
        SafeInSameSlices(s0, s1, r, c.toolStart);
      }
      SafeInSameSlices(s1, s2, r, c.toolStart);
    }
    forall t | IsAnchor(s, t) ensures AnchorKept(s, s2, t) {
      KeptThroughSameSlices(s, s0, s1, t);
      KeptThroughSameSlices(s, s1, s2, t);
    }
  }

  lemma SafeInSameSlices(s: Seg, s': Seg, r: Request, toolStart: int)
    requires SameSlices(s, s') && Safe(s, r, toolStart)
    ensures Safe(s', r, toolStart)
  {
    hide IsAnchor, SameAnchors;
  }

  lemma KeptThroughSameSlices(s: Seg, s1: Seg, s2: Seg, t: int)
    requires AnchorKept(s, s1, t) && SameSlices(s1, s2) && Sound(s1) && Sound(s2)
    ensures AnchorKept(s, s2, t)
  {
    AnchorKeptAnchors(s, s1, t);
    KeptBySameAnchors(s1, s2, t);
    AnchorKeptTrans(s, s1, s2, t);
  }

  // ----- the whole machine -----

  /** A segment with a slice in its cloud is not empty. */
  lemma FineWithSlice(s: Seg, t: int)
    requires InCloud(s, t)
    ensures Fine(s) ==> Sound(s)
    ensures Waiting(s) ==> Ready(s)
  {}

  lemma FineAnchored(s: Seg, t: int)
    requires Fine(s) && IsAnchor(s, t)
    ensures Sound(s) && InCloud(s, t)
  {}

  lemma FineWithRun(s: Seg, r: Request, toolStart: int)
    requires Fine(s) && Safe(s, r, toolStart)
    ensures Sound(s)
  {}

  lemma CleanUpKeeps(s: Seg)
    requires Fine(s)
    ensures Waiting(CleanUp(s))
    ensures Sound(s) ==> Ready(CleanUp(s)) && SameSlices(s.(minSlice := Base(s)), CleanUp(s))
    ensures forall t | IsAnchor(s, t) :: AnchorKept(s, CleanUp(s), t)
  {
    if Empty(s) {
      return;
    }
    var s1 := s.(buffered := {}, minSlice := Base(s));
    SetUpAnnotationsGood(s1);
    assert SameAnchors(s, CleanUp(s));
    forall t ensures IsAnchor(CleanUp(s), t) == IsAnchor(s, t) {}
    forall t | IsAnchor(s, t) ensures AnchorKept(s, CleanUp(s), t) {
      KeptBySameAnchors(s, CleanUp(s), t);
    }
  }

  /** What a partial start maintains: segments not yet reached are ready, requests so far are safe. */
  ghost predicate Starting(w: Win) {
    && (forall id | id in w.segs :: Waiting(w.segs[id]))
    && forall i | 0 <= i < |w.queue| ::
         w.queue[i].segId in w.segs && Safe(w.segs[w.queue[i].segId], w.queue[i], w.toolStart)
  }

  ghost predicate Distinct(actives: seq<Active>) {
    forall i, j | 0 <= i < j < |actives| :: actives[i].segId != actives[j].segId
  }

  predicate NotQueued(w: Win, actives: seq<Active>) {
    forall a, i | a in actives && 0 <= i < |w.queue| :: w.queue[i].segId != a.segId
  }

  lemma StartOne(w: Win, c: Choice, actives: seq<Active>)
    requires actives != [] && Starting(w) && w.toolStart == c.toolStart && 0 <= c.toolStart
    requires forall a | a in actives :: a.segId in w.segs && ActiveFits(w, a, c)
    requires Distinct(actives) && NotQueued(w, actives)
    requires ModeFits(c.backward, false, c) && ModeFits(c.forward, true, c)
    ensures var a := actives[0];
            var (s, requests) := Started(w.segs[a.segId], a, c);
            var w' := w.(segs := w.segs[a.segId := s], queue := w.queue + requests);
            && Starting(w') && NotQueued(w', actives[1..])
            && (forall b | b in actives[1..] :: b.segId in w'.segs && ActiveFits(w', b, c))
  {
    hide Ready, Safe, Started;
    var a := actives[0];
    var s0 := w.segs[a.segId];
    assert ActiveFits(w, a, c) && Waiting(s0);
    FineWithSlice(s0, c.toolStart);
    ReadyStarts(s0, a, c);
    var (s, requests) := Started(s0, a, c);
    var w' := w.(segs := w.segs[a.segId := s], queue := w.queue + requests);
    forall i | 0 <= i < |w'.queue|
      ensures w'.queue[i].segId in w'.segs && Safe(w'.segs[w'.queue[i].segId], w'.queue[i], w'.toolStart)
    {
      if i >= |w.queue| {
        assert w'.queue[i] == requests[i - |w.queue|];
      }
    }
    forall b | b in actives[1..] ensures b.segId != a.segId {
      var j :| 0 <= j < |actives[1..]| && actives[1..][j] == b;
      assert actives[j + 1] == b;
    }
  }

  lemma ReadyStarts(s: Seg, a: Active, c: Choice)
    requires Ready(s) && InCloud(s, c.toolStart) && 0 <= c.toolStart && ChangedFits(s, c.toolStart, a.changed)
    requires ModeFits(c.backward, false, c) && ModeFits(c.forward, true, c)
    ensures var (s', requests) := Started(s, a, c);
            && Ready(s') && IsAnchor(s', c.toolStart)
            && (forall t | IsAnchor(s, t) :: AnchorKept(s, s', t))
            && (forall r | r in requests :: r.segId == a.segId && Safe(s', r, c.toolStart))
  {
    hide Sound, Started, Safe, IsAnchor;
    StartedKeeps(s, a, c);
  }

  /** Starting on all active segments, one after the other. */
  lemma {:induction false} StartAllKeeps(w: Win, c: Choice, actives: seq<Active>, id: string, t: int)
    requires Starting(w) && w.toolStart == c.toolStart && 0 <= c.toolStart
    requires forall a | a in actives :: a.segId in w.segs && ActiveFits(w, a, c)
    requires Distinct(actives) && NotQueued(w, actives)
    requires ModeFits(c.backward, false, c) && ModeFits(c.forward, true, c)
    ensures var w' := StartAll(w, c, actives);
            && Starting(w') && w'.segs.Keys == w.segs.Keys && w'.toolStart == w.toolStart
            && (id in w.segs && IsAnchor(w.segs[id], t) ==> AnchorKept(w.segs[id], w'.segs[id], t))
            && (forall a | a in actives && a.segId == id :: IsAnchor(w'.segs[id], c.toolStart))
    decreases |actives|
  {
    hide Ready, Safe, Started, ActiveFits, NotQueued, AnchorKept, IsAnchor;
    if actives == [] {
      if id in w.segs && IsAnchor(w.segs[id], t) {
        WaitingKept(w.segs[id], t);
      }
    } else {
      var a := actives[0];
      assert ActiveFits(w, a, c);
      StartOne(w, c, actives);
      var s0 := w.segs[a.segId];
      var (s, requests) := Started(s0, a, c);
      var w1 := w.(segs := w.segs[a.segId := s], queue := w.queue + requests);
      ActiveReadyStarts(w, a, c);
      StartAllKeeps(w1, c, actives[1..], id, t);
      StartAllKeeps(w1, c, actives[1..], id, c.toolStart);
      if id in w.segs && IsAnchor(w.segs[id], t) && id == a.segId {
        AnchorKeptAnchors(s0, s, t);
        AnchorKeptTrans(s0, s, StartAll(w1, c, actives[1..]).segs[id], t);
      }
      if id == a.segId {
        forall b | b in actives[1..] ensures b.segId != id {
          var j :| 0 <= j < |actives[1..]| && actives[1..][j] == b;
          assert actives[j + 1] == b;
        }
        AnchorKeptAnchors(s, StartAll(w1, c, actives[1..]).segs[id], c.toolStart);
      }
    }
  }

  lemma WaitingKept(s: Seg, t: int)
    requires Waiting(s) && IsAnchor(s, t)
    ensures AnchorKept(s, s, t)
  {
    AnchorKeptSelf(s, t);
  }

  lemma ActiveReadyStarts(w: Win, a: Active, c: Choice)
    requires Starting(w) && w.toolStart == c.toolStart && ActiveFits(w, a, c) && 0 <= c.toolStart
    requires ModeFits(c.backward, false, c) && ModeFits(c.forward, true, c)
    ensures var (s, requests) := Started(w.segs[a.segId], a, c);
            && IsAnchor(s, c.toolStart)
            && forall t | IsAnchor(w.segs[a.segId], t) ::
                 AnchorKept(w.segs[a.segId], s, t)
  {
    hide Ready, Safe, Started, AnchorKept, IsAnchor;
    FineWithSlice(w.segs[a.segId], c.toolStart);
    ReadyStarts(w.segs[a.segId], a, c);
  }

  lemma CleanedUp(w: Win, id: string, t: int)
    requires forall i | i in w.segs :: Fine(w.segs[i])
    ensures var w' := w.(queue := [], segs := map i | i in w.segs :: CleanUp(w.segs[i]));
            && Inv(w')
            && (id in w.segs && IsAnchor(w.segs[id], t) ==> AnchorKept(w.segs[id], w'.segs[id], t))
  {
    hide CleanUp, Good, IsAnchor, AnchorKept;
    forall i | i in w.segs ensures Waiting(CleanUp(w.segs[i])) {
      CleanUpKeeps(w.segs[i]);
    }
    if id in w.segs {
      CleanUpKeeps(w.segs[id]);
    }
  }

  /** Taking the first request off the queue, with the cleanup that follows the last one. */
  lemma DequeueKeeps(w: Win, id: string, t: int)
    requires w.queue != [] && Inv(w)
    ensures Inv(Dequeued(w))
    ensures Dequeued(w).segs.Keys == w.segs.Keys
    ensures id in w.segs && IsAnchor(w.segs[id], t) ==> AnchorKept(w.segs[id], Dequeued(w).segs[id], t)
  {
    hide CleanUp, Good, IsAnchor, AnchorKept, Safe;
    if |w.queue| == 1 {
      CleanedUp(w, id, t);
    } else if id in w.segs && IsAnchor(w.segs[id], t) {
      FineKept(w.segs[id], t);
    }
  }

  lemma FineKept(s: Seg, t: int)
    requires Fine(s) && IsAnchor(s, t)
    ensures AnchorKept(s, s, t)
  {
    AnchorKeptSelf(s, t);
  }

  lemma FinishedKeeps(w: Win, ps: PointSet, id: string, t: int)
    requires Inv(w) && w.queue != []
    requires Delivers(w.segs[w.queue[0].segId], w.queue[0], w.toolStart, ps)
    ensures var r := w.queue[0];
            var w' := w.(segs := w.segs[r.segId := Finish(w.segs[r.segId], r, w.toolStart, ps)]);
            && Inv(w')
            && (id in w.segs && IsAnchor(w.segs[id], t) ==> AnchorKept(w.segs[id], w'.segs[id], t))
  {
    hide Good, IsAnchor, AnchorKept, Safe, Finish, Delivers, KeepsAnchors;
    var r := w.queue[0];
    var s, s' := w.segs[r.segId], Finish(w.segs[r.segId], r, w.toolStart, ps);
    FineWithRun(s, r, w.toolStart);
    FinishKeepsAnchors(s, r, w.toolStart, ps);
    var w' := w.(segs := w.segs[r.segId := s']);
    forall i | 0 <= i < |w'.queue|
      ensures w'.queue[i].segId in w'.segs && Safe(w'.segs[w'.queue[i].segId], w'.queue[i], w'.toolStart)
    {
      if w.queue[i].segId == r.segId {
        StaysSafe(s, s', w.queue[i], w.toolStart);
      }
    }
    if id in w.segs && IsAnchor(w.segs[id], t) {
      if id == r.segId {
        KeptByKeeps(s, s', t);
      } else {
        FineKept(w.segs[id], t);
      }
    }
  }

  lemma StartKeeps(w: Win, c: Choice, actives: seq<Active>, id: string, t: int)
    requires Inv(w) && CanHappen(w, Start(c, actives))
    ensures Inv(StartedWin(w, c, actives)) && StartedWin(w, c, actives).segs.Keys == w.segs.Keys
    ensures id in w.segs && IsAnchor(w.segs[id], t) ==> AnchorKept(w.segs[id], StartedWin(w, c, actives).segs[id], t)
    ensures forall a | a in actives && a.segId == id :: IsAnchor(StartedWin(w, c, actives).segs[id], c.toolStart)
  {
    hide CleanUp, Good, IsAnchor, AnchorKept, Safe, Started, ActiveFits, ModeFits;
    var w0 := w.(toolStart := c.toolStart);
    forall a | a in actives ensures a.segId in w0.segs && ActiveFits(w0, a, c) {
      ActiveElsewhere(w, w0, a, c);
    }
    StartAllKeeps(w0, c, actives, id, t);
    var w1 := StartAll(w0, c, actives);
    if w1.queue == [] {
      CleanedUp(w1, id, t);
      CleanedUp(w1, id, c.toolStart);
      if id in w.segs && AnchorKept(w.segs[id], w1.segs[id], t) {
        AnchorKeptAnchors(w.segs[id], w1.segs[id], t);
        AnchorKeptTrans(w.segs[id], w1.segs[id], CleanUp(w1.segs[id]), t);
      }
      if exists a :: a in actives && a.segId == id {
        AnchorKeptAnchors(w1.segs[id], CleanUp(w1.segs[id]), c.toolStart);
      }
    }
  }

  lemma ActiveElsewhere(w: Win, w': Win, a: Active, c: Choice)
    requires ActiveFits(w, a, c) && w'.segs == w.segs
    ensures ActiveFits(w', a, c) && a.segId in w'.segs
  {}

  /** Every event keeps the invariant, and every anchor it does not concern directly. */
  lemma NextKeeps(w: Win, e: Event, id: string, t: int)
    requires Inv(w) && CanHappen(w, e)
    ensures Inv(Next(w, e)) && Next(w, e).segs.Keys == w.segs.Keys
    ensures id in w.segs && IsAnchor(w.segs[id], t) && LeavesAlone(e, id, t)
            ==> AnchorKept(w.segs[id], Next(w, e).segs[id], t)
  {
    hide Waiting, Fine, Toggled, IsAnchor, AnchorKept;
    match e
    case Toggle(segId, u, on) =>
      ToggledKeeps(w.segs[segId], u, on);
      OneSegmentChanges(w, segId, Toggled(w.segs[segId], u, on), id, t);
    case Buffer(segId, points) =>
      BufferedKeeps(w.segs[segId], points);
      OneSegmentChanges(w, segId, w.segs[segId].(buffered := w.segs[segId].buffered + points), id, t);
    case Unbuffer(segId, points) =>
      UnbufferedKeeps(w.segs[segId], points);
      OneSegmentChanges(w, segId, w.segs[segId].(buffered := w.segs[segId].buffered - points), id, t);
    case Start(c, actives) =>
      hide *;
      StartKeeps(w, c, actives, id, t);
    case Finished(ps) =>
      FinishedEvent(w, ps, id, t);
    case Keep(toolStart, kept, leave) =>
      KeepEvent(w, toolStart, kept, leave, id, t);
    case Failed =>
      hide Inv, IsAnchor, AnchorKept, Dequeued;
      DequeueKeeps(w, id, t);
  }

  lemma FinishedEvent(w: Win, ps: PointSet, id: string, t: int)
    requires Inv(w) && CanHappen(w, Finished(ps))
    ensures var w' := Next(w, Finished(ps));
            && Inv(w') && w'.segs.Keys == w.segs.Keys
            && (id in w.segs && IsAnchor(w.segs[id], t) ==> AnchorKept(w.segs[id], w'.segs[id], t))
  {
    hide Inv, IsAnchor, AnchorKept, Finish, Delivers, Dequeued;
    var r := w.queue[0];
    var w1 := w.(segs := w.segs[r.segId := Finish(w.segs[r.segId], r, w.toolStart, ps)]);
    FinishedKeeps(w, ps, id, t);
    DequeueKeeps(w1, id, t);
    if id in w.segs && IsAnchor(w.segs[id], t) {
      AnchorKeptAnchors(w.segs[id], w1.segs[id], t);
      AnchorKeptTrans(w.segs[id], w1.segs[id], Dequeued(w1).segs[id], t);
    }
  }

  lemma KeepChangesKeeps(s: Seg, toolStart: int, changed: PointSet)
    requires Sound(s) && InCloud(s, toolStart) && ChangedFits(s, toolStart, changed)
    ensures var s' := KeepChanges(s, toolStart, changed);
            && Sound(s') && Base(s') == Base(s) && Top(s') == Top(s) && s'.minSlice == s.minSlice
            && IsAnchor(s', toolStart)
            && (forall t | IsAnchor(s, t) :: AnchorKept(s, s', t))
  {
    hide Merge, IsAnchor, SetAnchor, SetManualPoints, SetUsedInRun, AnchorKept, Aligned, Coherent, SameAnchors, ChangedFits;
    var s1 := SetAnchor(s, toolStart, true);
    SetAnchorGood(s, toolStart, true);
    SetAnchorFrame(s, toolStart, true);
    var s2 := SetManualPoints(s1, toolStart);
    SetManualPointsGood(s1, toolStart);
    SetManualPointsFrame(s1, toolStart);
    SameBitsSameAnchors(s1, s2);
    SameAnchorsKeeps(s1, s2);
    var s3 := SetUsedInRun(s2, toolStart, false);
    SetUsedInRunGood(s2, toolStart, false);
    SetUsedInRunFrame(s2, toolStart, false);
    SameBitsSameAnchors(s2, s3);
    SameAnchorsKeeps(s2, s3);
    ChangedElsewhere(s, s3, toolStart, changed);
    ChangedMerges(s3, toolStart, changed);
    var s4 := Merge(s3, changed);
    forall t | IsAnchor(s, t) ensures AnchorKept(s, s4, t) {
      ToggleKeeps(s, toolStart, true, t);
      AnchorKeptAnchors(s, s1, t);
      KeptBySameAnchors(s1, s2, t);
      AnchorKeptTrans(s, s1, s2, t);
      AnchorKeptAnchors(s1, s2, t);
      KeptBySameAnchors(s2, s3, t);
      AnchorKeptTrans(s, s2, s3, t);
      AnchorKeptAnchors(s2, s3, t);
      AnchorKeptTrans(s, s3, s4, t);
    }
  }

  lemma ChangedElsewhere(s: Seg, s': Seg, toolStart: int, changed: PointSet)
    requires ChangedFits(s, toolStart, changed) && s'.master == s.master
    ensures ChangedFits(s', toolStart, changed)
  {}

  lemma SetUsedInRunFrame(s: Seg, t: int, used: bool)
    ensures SetUsedInRun(s, t, used).minSlice == s.minSlice && SetUsedInRun(s, t, used).master == s.master
  {}

  /** Keeping changed curves, with or without leaving the tool. */
  lemma KeepEvent(w: Win, toolStart: int, kept: map<string, PointSet>, leave: bool, id: string, t: int)
    requires Inv(w) && CanHappen(w, Keep(toolStart, kept, leave))
    ensures var w' := Next(w, Keep(toolStart, kept, leave));
            && Inv(w') && w'.segs.Keys == w.segs.Keys
            && (id in w.segs && IsAnchor(w.segs[id], t) ==> AnchorKept(w.segs[id], w'.segs[id], t))
  {
    hide Sound, InCloud, ChangedFits, KeepChanges, IsAnchor, AnchorKept, CleanUp;
    var w1 := KeepAll(w, toolStart, kept);
    forall i | i in w.segs ensures Waiting(w1.segs[i]) {
      if i in kept {
        assert KeepFits(w, i, toolStart, kept[i]);
        FineWithSlice(w.segs[i], toolStart);
        KeepChangesKeeps(w.segs[i], toolStart, kept[i]);
      }
    }
    if id in w.segs && IsAnchor(w.segs[id], t) {
      if id in kept {
        assert KeepFits(w, id, toolStart, kept[id]);
        FineWithSlice(w.segs[id], toolStart);
        KeepChangesKeeps(w.segs[id], toolStart, kept[id]);
      } else {
        FineKept(w.segs[id], t);
      }
      AnchorKeptAnchors(w.segs[id], w1.segs[id], t);
      if leave {
        CleanedUp(w1, id, t);
        AnchorKeptTrans(w.segs[id], w1.segs[id], CleanUp(w1.segs[id]), t);
      }
    } else if leave {
      CleanedUp(w1, id, t);
    }
  }

  /** Between runs a single segment changes. */
  lemma OneSegmentChanges(w: Win, segId: string, s': Seg, id: string, t: int)
    requires Inv(w) && w.queue == [] && segId in w.segs && Waiting(s')
    ensures var w' := w.(segs := w.segs[segId := s']);
            && Inv(w') && w'.segs.Keys == w.segs.Keys
            && (id in w.segs && id != segId && IsAnchor(w.segs[id], t) ==> AnchorKept(w.segs[id], w'.segs[id], t))
  {
    hide Sound, IsAnchor, AnchorKept;
    if id in w.segs && id != segId && IsAnchor(w.segs[id], t) {
      FineKept(w.segs[id], t);
    }
  }

  /** Toggling keeps every other anchor, and switching on keeps all. */
  lemma ToggledKeeps(s: Seg, u: int, on: bool)
    requires Waiting(s)
    ensures Waiting(Toggled(s, u, on))
    ensures forall t | IsAnchor(s, t) && t != u :: AnchorKept(s, Toggled(s, u, on), t)
  {
    if Empty(s) {
      return;
    }
    hide Good, IsAnchor, AnchorKept, SetAnchor, InsertDefaults, SameAnchors;
    var s1 := LookedUp(s, u);
    LookedUpKeeps(s, u);
    SetAnchorGood(s1, u, on);
    SetAnchorFrame(s1, u, on);
    forall t | IsAnchor(s, t) && t != u ensures AnchorKept(s, Toggled(s, u, on), t) {
      WaitingKept(s, t);
      KeptThroughSameSlices(s, s, s1, t);
      ToggleKeeps(s1, u, on, t);
      AnchorKeptTrans(s, s1, Toggled(s, u, on), t);
    }
  }

  lemma LookedUpKeeps(s: Seg, t: int)
    requires Sound(s)
    ensures Sound(LookedUp(s, t)) && SameSlices(s, LookedUp(s, t))
  {
    var s' := LookedUp(s, t);
    forall u ensures IsAnchor(s', u) == IsAnchor(s, u) && CacheEntry(s'.cache, u) == CacheEntry(s.cache, u) {}
    assert Good(s');
  }

  lemma BufferedKeeps(s: Seg, points: set<int>)
    requires Waiting(s) && forall j | j in points :: 0 <= j < s.ann.width
    ensures var s' := s.(buffered := s.buffered + points);
            Waiting(s') && forall t | IsAnchor(s, t) :: AnchorKept(s, s', t)
  {
    if Empty(s) {
      return;
    }
    BufferGood(s, points);
    BufferKept(s, s.buffered + points);
  }

  lemma UnbufferedKeeps(s: Seg, points: set<int>)
    requires Waiting(s)
    ensures var s' := s.(buffered := s.buffered - points);
            Waiting(s') && forall t | IsAnchor(s, t) :: AnchorKept(s, s', t)
  {
    if Empty(s) {
      return;
    }
    Unbuffered(s);
    BufferGood(s.(buffered := {}), s.buffered - points);
    BufferKept(s, s.buffered - points);
  }

  lemma BufferKept(s: Seg, points: set<int>)
    requires Sound(s)
    ensures forall t | IsAnchor(s, t) :: AnchorKept(s, s.(buffered := points), t)
  {}

  lemma AnchorInCloud(s: Seg, t: int)
    requires IsAnchor(s, t)
    ensures InCloud(s, t)
  {}

  lemma InvKept(w: Win, id: string, t: int)
    requires Inv(w) && id in w.segs && IsAnchor(w.segs[id], t)
    ensures AnchorKept(w.segs[id], w.segs[id], t)
  {
    FineKept(w.segs[id], t);
  }

  // ----- whole sessions -----

  /** Segments that were just opened, with aligned clouds or none, satisfy the invariant once curves and
      annotations are set up, whatever their caches held. */
  lemma OpenedIsInv(segs: map<string, Seg>, toolStart: int)
    requires forall id | id in segs :: Empty(segs[id]) || (Aligned(segs[id]) && Base(segs[id]) >= 0)
    ensures Inv(Win(map id | id in segs :: CleanUp(segs[id]), [], toolStart))
  {
    hide CleanUp, Aligned, Sound;
    forall id | id in segs ensures Waiting(CleanUp(segs[id])) {
      if Empty(segs[id]) {
        CleanUpKeeps(segs[id]);
      } else {
        OpenedIsReady(segs[id]);
      }
    }
  }

  lemma OpenedIsReady(s: Seg)
    requires Aligned(s) && Base(s) >= 0
    ensures Ready(CleanUp(s))
  {
    SetUpAnnotationsGood(s.(buffered := {}, minSlice := Base(s)));
  }

  ghost predicate Session(w: Win, events: seq<Event>)
    decreases |events|
  {
    events == [] || (CanHappen(w, events[0]) && Session(Next(w, events[0]), events[1..]))
  }

  ghost function Final(w: Win, events: seq<Event>): Win
    requires Session(w, events)
    decreases |events|
  {
    if events == [] then w else Final(Next(w, events[0]), events[1..])
  }
}
