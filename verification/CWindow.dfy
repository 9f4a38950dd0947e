/** The window that starts segmentation runs and takes their results: its methods
    carry out the events of module SegmentationSession on the segment objects. */
module Windows {
  import opened Geometry
  import opened Segmentation
  import opened AnchorCache
  import opened SegmentationRuns
  import opened SegmentationSession
  import opened SessionEvents
  import opened SegmentationStructs

  /** The run handed to the worker, if there is one. */
  datatype Submitted = Idle | Running(request: Request)

  class CWindow {
    var fSegStructMap: map<string, SegmentationStruct>
    var segmentationQueue: seq<Request>
    var submitted: Submitted
    var fSliceIndexToolStart: int
    var fSegParams: Params
    var stepSize: int
    var smoothnessInterpolationPercent: int
    const numSlices: int

    /** The segments are objects of their own over the same volume. */
    ghost predicate Separate()
      reads this
    {
      && (forall a, b | a in fSegStructMap && b in fSegStructMap && a != b :: fSegStructMap[a] != fSegStructMap[b])
      && (forall a | a in fSegStructMap :: fSegStructMap[a].numSlices == numSlices)
    }

    ghost predicate Valid()
      reads this
    {
      Separate() && (submitted.Idle? ==> segmentationQueue == [])
    }

    ghost function Segs(): map<string, Seg>
      reads this, fSegStructMap.Values
    {
      map id | id in fSegStructMap :: fSegStructMap[id].State()
    }

    ghost function Pending(): seq<Request>
      reads this
    {
      (if submitted.Running? then [submitted.request] else []) + segmentationQueue
    }

    ghost function Abstract(): Win
      reads this, fSegStructMap.Values
    {
      Win(Segs(), Pending(), fSliceIndexToolStart)
    }

    constructor (segs: map<string, SegmentationStruct>, numSlices: int)
      ensures fSegStructMap == segs && submitted == Idle && segmentationQueue == [] && this.numSlices == numSlices
    {
      fSegStructMap, segmentationQueue, submitted, fSliceIndexToolStart := segs, [], Idle, 0;
      fSegParams, stepSize, smoothnessInterpolationPercent := Params(0, 0, -1), 1, 0;
      this.numSlices := numSlices;
    }

    /** Plans the slices of one run between the current slice and the nearest anchor; a segment without annotations
        has none. */
    method PrepareSegmentationBaseBefore(segID: string, forward: bool, useAnchor: bool, currentIndex: int, endIndex: int)
      returns (skipRun: bool)
      requires segID in fSegStructMap && fSegStructMap[segID].numSlices == numSlices
      modifies this`fSegParams, fSegStructMap[segID]
      ensures var s, annotated := old(fSegStructMap[segID].State()), fSegStructMap[segID].hasAnnotations;
              var anchor := if annotated then TargetAnchor(s, forward, currentIndex, numSlices) else -1;
              && Plan(fSegParams, skipRun) == PlanBase(anchor, forward, useAnchor, currentIndex, endIndex)
              && fSegStructMap[segID].State() == (if annotated then LookUp(s, forward, currentIndex, numSlices) else s)
              && fSegStructMap[segID].fStartingPath == old(fSegStructMap[segID].fStartingPath)
              && (old(fSegStructMap[segID].Valid()) ==> fSegStructMap[segID].Valid())
    {
      hide LookUpHigher, LookUpLower, NearestHigher, NearestLower;
      var start, target := currentIndex + (if forward then 1 else -1), -1;
      skipRun := false;
      var anchor;
      if forward {
        anchor := fSegStructMap[segID].FindNearestHigherAnchor(currentIndex);
      } else {
        anchor := fSegStructMap[segID].FindNearestLowerAnchor(currentIndex);
      }
      if !useAnchor {
        target := endIndex;
        if anchor != -1 && (if forward then target >= anchor else target <= anchor) {
          target := anchor + (if forward then -1 else 1);
        }
      } else {
        target := if anchor != -1 then (if forward then anchor - 1 else anchor + 1) else currentIndex;
        skipRun := anchor == -1;
      }
      if !skipRun {
        skipRun := currentIndex == target;
      }
      fSegParams := Params(start, target, anchor);
    }

    /** Fits the planned run to the step size, chooses the interpolation window and the chain the run back from the
        target starts with, and queues the run. */
    method PrepareSegmentationOFS(segID: string, forward: bool, useAnchor: bool, currentIndex: int)
      returns (skipRun: bool, interpolationDistance: int, interpolationWindow: int, reSegStartingChain: Row)
      requires segID in fSegStructMap && fSegStructMap[segID].Valid()
      modifies this`fSegParams, this`segmentationQueue
      ensures var p := old(fSegParams);
              && Plan(fSegParams, skipRun) == PlanSteps(p, forward, useAnchor, stepSize)
              && segmentationQueue == old(segmentationQueue)
                   + if skipRun then [] else [Planned(segID)]
      ensures var interpolated := !skipRun && useAnchor && smoothnessInterpolationPercent > 0 && fSegParams.targetAnchor != -1;
              var length, s := SegmentationLength(fSegParams), fSegStructMap[segID].State();
              var beyond := fSegParams.targetIndex + (if forward then 1 else -1);
              && interpolationDistance == (if interpolated then InterpolationDistance(length) else 0)
              && interpolationWindow == (if interpolated then InterpolationWindow(length, smoothnessInterpolationPercent) else 0)
              && (Aligned(s) ==>
                    reSegStartingChain == if interpolated && length > 1 && InCloud(s, beyond) then MasterRow(s, beyond) else [])
    {
      hide HalfShare, SteppedSlices;
      interpolationDistance, interpolationWindow, skipRun, reSegStartingChain := 0, 0, false, [];
      if stepSize > 1 {
        var n := SteppedSlices(fSegParams, forward, stepSize);
        if n != 0 {
          if !useAnchor {
            fSegParams := fSegParams.(targetIndex := fSegParams.startIndex + n - (if forward then 1 else -1));
          }
        } else {
          skipRun := true;
        }
      }
      if !skipRun && useAnchor && smoothnessInterpolationPercent > 0 && fSegParams.targetAnchor != -1 {
        var segmentationLength := SegmentationLength(fSegParams);
        interpolationDistance := segmentationLength / 2;
        if segmentationLength > 1 {
          interpolationWindow := HalfShare(segmentationLength, smoothnessInterpolationPercent);
          var seg := fSegStructMap[segID];
          var pointIndex := seg.GetPointIndexForSliceIndex(fSegParams.targetIndex + (if forward then 1 else -1));
          if pointIndex != -1 {
            reSegStartingChain := seg.fMasterCloud.rows[pointIndex];
          }
        }
      }
      if !skipRun {
        QueueSegmentation(Planned(segID));
      }
    }

    /** The run as planned, from the starting path of the segment. */
    function Planned(segID: string): Request
      requires segID in fSegStructMap
      reads this, fSegStructMap[segID]
    {
      Request(segID, fSegParams.startIndex, fSegParams.targetIndex, fSegStructMap[segID].fStartingPath)
    }

    method PrepareSegmentationLRPS(segID: string)
      requires segID in fSegStructMap
      modifies this`segmentationQueue
      ensures segmentationQueue == old(segmentationQueue) + [Planned(segID)]
    {
      QueueSegmentation(Planned(segID));
    }

    method QueueSegmentation(r: Request)
      modifies this`segmentationQueue
      ensures segmentationQueue == old(segmentationQueue) + [r]
    {
      segmentationQueue := segmentationQueue + [r];
    }

    /** Plans and queues the run of one direction, unless the user wants none. */
    method PrepareRun(segID: string, forward: bool, mode: Mode, c: Choice)
      requires segID in fSegStructMap && fSegStructMap[segID].Valid() && fSegStructMap[segID].hasAnnotations
      requires fSegStructMap[segID].numSlices == numSlices == c.numSlices && c.stepSize == stepSize
      modifies this`fSegParams, this`segmentationQueue, fSegStructMap[segID]
      ensures var s, chain := old(fSegStructMap[segID].State()), fSegStructMap[segID].fStartingPath;
              && fSegStructMap[segID].State() == AfterPlanning(s, forward, mode, c.toolStart, numSlices)
              && fSegStructMap[segID].Valid() && chain == old(fSegStructMap[segID].fStartingPath)
              && segmentationQueue == old(segmentationQueue)
                                      + Requests(s, segID, chain, forward, mode, c.toolStart, numSlices, StepSize(c))
    {
      hide LookUp, TargetAnchor, PlanBase, SteppedSlices;
      if !mode.NoRun? {
        var end := if mode.ToSlice? then mode.endIndex else mode.unusedIndex;
        var skip := PrepareSegmentationBaseBefore(segID, forward, mode.ToAnchor?, c.toolStart, end);
        if !skip {
          if c.algorithm.Lrps? {
            PrepareSegmentationLRPS(segID);
          } else {
            var _, _, _, _ := PrepareSegmentationOFS(segID, forward, mode.ToAnchor?, c.toolStart);
          }
        }
      }
    }

    /** Prepares one segment for a run from the tool slice and queues its runs. */
    method StartSegment(a: Active, c: Choice)
      requires a.segId in fSegStructMap && fSegStructMap[a.segId].hasAnnotations
      requires fSegStructMap[a.segId].numSlices == numSlices == c.numSlices && c.stepSize == stepSize
      requires Ready(fSegStructMap[a.segId].State()) && InCloud(fSegStructMap[a.segId].State(), c.toolStart)
      requires a.changed.Valid() && ChangedFits(fSegStructMap[a.segId].State(), c.toolStart, a.changed)
      requires a.chain == fSegStructMap[a.segId].fStartingPath
      modifies this`fSegParams, this`segmentationQueue, fSegStructMap[a.segId]
      ensures var started := Started(old(fSegStructMap[a.segId].State()), a, c);
              && fSegStructMap[a.segId].State() == started.0
              && fSegStructMap[a.segId].fStartingPath == a.chain
              && segmentationQueue == old(segmentationQueue) + started.1
    {
      hide Ready, ChangedFits, Merge, SetAnchor, SetManualPoints, AfterPlanning, Requests, InCloud;
      var seg := fSegStructMap[a.segId];
      PreparesSafely(seg.State(), c.toolStart, a.changed);
      seg.MergePointSetIntoPointCloud(a.changed);
      seg.SetAnnotationAnchor(c.toolStart, true);
      seg.SetAnnotationManualPoints(c.toolStart);
      seg.ForgetChangedCurves();
      PrepareRun(a.segId, false, BackwardMode(c), c);
      PrepareRun(a.segId, true, c.forward, c);
    }

    /** Starts runs from the tool slice on the segments taking part, in the order of the map. */
    method DoSegmentation(c: Choice, actives: seq<Active>)
      requires Valid() && submitted == Idle && c.numSlices == numSlices && c.stepSize == stepSize
      requires Inv(Abstract()) && CanHappen(Abstract(), Start(c, actives))
      requires forall a | a in actives ::
                 && a.changed.Valid() && a.chain == fSegStructMap[a.segId].fStartingPath && fSegStructMap[a.segId].hasAnnotations
      modifies this, fSegStructMap.Values
      ensures Valid() && fSegStructMap == old(fSegStructMap)
      ensures Abstract() == Next(old(Abstract()), Start(c, actives))
      ensures QueuedAs(old(Segs()), c, actives, Pending())
    {
      hide StartAll, Ready, Fine, ChangedFits, InCloud, Inv, CanHappen, Next, Settled, QueuedAs;
      ghost var w := Abstract().(toolStart := c.toolStart);
      StartFacts(Abstract(), c, actives);
      StartQueues(Abstract(), c, actives);
      fSliceIndexToolStart := c.toolStart;
      assert w == Win(Segs(), segmentationQueue, c.toolStart);
      StartSegments(c, actives);
      assert Segs() == StartAll(w, c, actives).segs && segmentationQueue == StartAll(w, c, actives).queue;
      ExecuteNextSegmentation();
    }

    /** The loop over the segments taking part. */
    method StartSegments(c: Choice, actives: seq<Active>)
      requires Separate() && numSlices == c.numSlices && c.stepSize == stepSize && fSliceIndexToolStart == c.toolStart
      requires forall a | a in actives ::
                 && a.segId in fSegStructMap && Ready(Segs()[a.segId]) && InCloud(Segs()[a.segId], c.toolStart)
                 && a.changed.Valid() && ChangedFits(Segs()[a.segId], c.toolStart, a.changed)
                 && a.chain == fSegStructMap[a.segId].fStartingPath && fSegStructMap[a.segId].hasAnnotations
      requires forall i, j | 0 <= i < j < |actives| :: actives[i].segId != actives[j].segId
      modifies this`fSegParams, this`segmentationQueue, fSegStructMap.Values
      ensures Win(Segs(), segmentationQueue, c.toolStart)
           == StartAll(Win(old(Segs()), old(segmentationQueue), c.toolStart), c, actives)
    {
      hide Started, StartAll, Ready, ChangedFits, InCloud;
      ghost var w := Win(Segs(), segmentationQueue, c.toolStart);
      assert actives[0..] == actives;
      for i := 0 to |actives|
        invariant forall j | i <= j < |actives| :: Segs()[actives[j].segId] == w.segs[actives[j].segId]
        invariant forall j | i <= j < |actives| :: actives[j].chain == fSegStructMap[actives[j].segId].fStartingPath
        invariant StartAll(w, c, actives) == StartAll(Win(Segs(), segmentationQueue, c.toolStart), c, actives[i..])
      {
        assert actives[i] in actives && actives[i..][1..] == actives[i + 1..] && actives[i..][0] == actives[i];
        StartAllStep(Win(Segs(), segmentationQueue, c.toolStart), c, actives[i..]);
        StartNext(actives[i], c);
      }
      StartAllEnds(Win(Segs(), segmentationQueue, c.toolStart), c);
    }

    /** Starting one segment leaves the others alone. */
    method StartNext(a: Active, c: Choice)
      requires Separate() && numSlices == c.numSlices && c.stepSize == stepSize
      requires a.segId in fSegStructMap && Ready(Segs()[a.segId]) && InCloud(Segs()[a.segId], c.toolStart)
      requires fSegStructMap[a.segId].hasAnnotations
      requires a.changed.Valid() && ChangedFits(Segs()[a.segId], c.toolStart, a.changed)
      requires a.chain == fSegStructMap[a.segId].fStartingPath
      modifies this`fSegParams, this`segmentationQueue, fSegStructMap[a.segId]
      ensures var started := Started(old(Segs())[a.segId], a, c);
              && Segs() == old(Segs())[a.segId := started.0]
              && segmentationQueue == old(segmentationQueue) + started.1
    {
      hide Started, Ready, ChangedFits, InCloud;
      StartSegment(a, c);
    }

    /** Submits the run at the front of the queue, or ends the session with the tool. */
    method ExecuteNextSegmentation()
      requires Separate()
      requires forall id | id in fSegStructMap :: Fine(Segs()[id])
      modifies this`submitted, this`segmentationQueue, fSegStructMap.Values
      ensures Abstract() == Settled(Win(old(Segs()), old(segmentationQueue), fSliceIndexToolStart))
      ensures submitted.Idle? ==> segmentationQueue == []
    {
      hide Fine, CleanUp;
      if segmentationQueue != [] {
        submitted, segmentationQueue := Running(segmentationQueue[0]), segmentationQueue[1..];
      } else {
        submitted := Idle;
        CleanupSegmentation();
      }
    }

    method CleanupSegmentation()
      requires Separate()
      requires forall id | id in fSegStructMap :: Fine(fSegStructMap[id].State())
      modifies fSegStructMap.Values
      ensures forall id | id in fSegStructMap :: fSegStructMap[id].State() == CleanUp(old(fSegStructMap[id].State()))
    {
      hide Fine, CleanUp;
      var todo := fSegStructMap.Keys;
      while todo != {}
        invariant todo <= fSegStructMap.Keys
        invariant forall id | id in fSegStructMap :: fSegStructMap[id].State()
                    == if id in todo then old(fSegStructMap[id].State()) else CleanUp(old(fSegStructMap[id].State()))
        decreases todo
      {
        NotEmpty(todo);
        var id :| id in todo;
        CleanupSegment(fSegStructMap[id]);
        todo := todo - {id};
      }
    }

    static method CleanupSegment(seg: SegmentationStruct)
      requires Fine(seg.State())
      modifies seg
      ensures seg.State() == CleanUp(old(seg.State()))
    {
      hide Fine, Decoded;
      FineIsValid(seg.State());
      seg.ForgetChangedCurves();
      seg.SetUpCurves();
      seg.SetUpAnnotations();
    }

    /** Takes the result of the submitted run into its segment and submits the next run. The result says whether
        all that is written lies within the clouds. */
    method OnSegmentationFinished(ps: PointSet) returns (inBounds: bool)
      requires Valid() && submitted.Running? && Inv(Abstract())
      requires CanHappen(Abstract(), Finished(ps))
      modifies this`submitted, this`segmentationQueue, fSegStructMap.Values
      ensures Valid() && Abstract() == Next(old(Abstract()), Finished(ps))
      ensures var r := old(submitted.request);
              inBounds <==> ResetFits(Stored(old(Segs())[r.segId], r, fSliceIndexToolStart, ps), r)
    {
      hide Delivers, Inv, CanHappen, Next, Settled, Finish, ResetFits, Stored;
      var r := submitted.request;
      ghost var w := Abstract();
      FinishedFacts(w, ps);
      inBounds := TakeResult(fSegStructMap[r.segId], r, ps);
      assert Segs() == w.segs[r.segId := Finish(w.segs[r.segId], r, fSliceIndexToolStart, ps)];
      assert segmentationQueue == w.queue[1..];
      ExecuteNextSegmentation();
    }

    method TakeResult(seg: SegmentationStruct, r: Request, ps: PointSet) returns (inBounds: bool)
      requires Sound(seg.State()) && Safe(seg.State(), r, fSliceIndexToolStart)
      requires Delivers(seg.State(), r, fSliceIndexToolStart, ps)
      modifies seg
      ensures seg.State() == Finish(old(seg.State()), r, fSliceIndexToolStart, ps)
      ensures inBounds <==> ResetFits(Stored(old(seg.State()), r, fSliceIndexToolStart, ps), r)
    {
      hide Sound, Safe, Delivers, Merge, SetUsedInRun, SetOriginalPos, Segmentation.ResetAnnotations, CanStore, RowIndex;
      ResultFits(seg.State(), r, fSliceIndexToolStart, ps);
      seg.MergePointSetIntoPointCloud(ps);
      var directionUp := r.targetIndex > fSliceIndexToolStart;
      seg.SetAnnotationUsedInRun(r.startIndex + (if directionUp then -1 else 1), true);
      seg.SetAnnotationOriginalPos(ps);
      inBounds := true;
      if r.startIndex != r.targetIndex {
        ResetFrame(seg.State(), r.startIndex, r.targetIndex);
        inBounds := seg.ResetAnnotations(r.startIndex, r.targetIndex);
      }
    }

    /** Keeps changed curves that no run has used, on the slice the tool was started on, with or without leaving
        the tool. */
    method KeepChangedCurves(toolStart: int, kept: map<string, PointSet>, leave: bool)
      requires Valid() && submitted == Idle && Inv(Abstract())
      requires CanHappen(Abstract(), Keep(toolStart, kept, leave))
      requires forall id | id in kept :: kept[id].Valid()
      modifies fSegStructMap.Values
      ensures Valid() && Abstract() == Next(old(Abstract()), Keep(toolStart, kept, leave))
    {
      hide Inv, Fine, InCloud, ChangedFits, CanHappen, Next, KeepChanges, CleanUp;
      ghost var w := Abstract();
      KeepFacts(w, toolStart, kept, leave);
      ghost var w' := KeepAll(w, toolStart, kept);
      assert Segs() == w.segs;
      KeepCurves(toolStart, kept);
      assert Segs() == w'.segs;
      if leave {
        forall id | id in fSegStructMap ensures Fine(fSegStructMap[id].State()) {
          assert Segs()[id] == w'.segs[id];
        }
        CleanupSegmentation();
      }
    }

    /** The loop over the segments with changed curves. */
    method KeepCurves(toolStart: int, kept: map<string, PointSet>)
      requires Separate()
      requires forall id | id in kept ::
                 && id in fSegStructMap && kept[id].Valid()
                 && KeepReady(fSegStructMap[id].State(), toolStart, kept[id])
      modifies fSegStructMap.Values
      ensures forall id | id in fSegStructMap :: fSegStructMap[id].State()
                == if id in kept then KeepChanges(old(fSegStructMap[id].State()), toolStart, kept[id])
                   else old(fSegStructMap[id].State())
    {
      hide KeepReady, KeepChanges;
      var todo := kept.Keys;
      while todo != {}
        invariant todo <= kept.Keys
        invariant forall id | id in fSegStructMap :: fSegStructMap[id].State()
                    == if id in kept && id !in todo then KeepChanges(old(fSegStructMap[id].State()), toolStart, kept[id])
                       else old(fSegStructMap[id].State())
        decreases todo
      {
        NotEmpty(todo);
        var id :| id in todo;
        KeepChangedCurve(fSegStructMap[id], toolStart, kept[id]);
        todo := todo - {id};
      }
    }

    static method KeepChangedCurve(seg: SegmentationStruct, toolStart: int, changed: PointSet)
      requires KeepReady(seg.State(), toolStart, changed) && changed.Valid()
      modifies seg
      ensures seg.State() == KeepChanges(old(seg.State()), toolStart, changed)
    {
      hide Sound, InCloud, ChangedFits, Merge, SetAnchor, SetManualPoints, SetUsedInRun;
      KeepsSafely(seg.State(), toolStart);
      seg.SetAnnotationAnchor(toolStart, true);
      seg.SetAnnotationManualPoints(toolStart);
      seg.SetAnnotationUsedInRun(toolStart, false);
      seg.MergePointSetIntoPointCloud(changed);
    }

    /** A run that failed leaves its segment alone. */
    method OnSegmentationFailed()
      requires Valid() && submitted.Running? && Inv(Abstract())
      modifies this`submitted, this`segmentationQueue, fSegStructMap.Values
      ensures Valid() && Abstract() == Next(old(Abstract()), Failed)
    {
      hide Inv, Fine, Settled;
      InvIsFine(Abstract());
      assert segmentationQueue == Pending()[1..];
      ExecuteNextSegmentation();
    }

    /** Switches the anchor of a slice of one segment. */
    method ToggleAnchor(segId: string, slice: int)
      requires Valid() && segId in fSegStructMap && Inv(Abstract()) && submitted == Idle
      modifies fSegStructMap[segId]
      ensures Valid()
      ensures var w := old(Abstract());
              Abstract() == Next(w, Toggle(segId, slice, !CacheEntry(w.segs[segId].cache, slice).anchor))
      ensures var s, s' := old(Segs())[segId], Segs()[segId];
              forall u :: IsAnchor(s', u) == if u == slice && InCloud(s, slice) then !IsAnchor(s, u) else IsAnchor(s, u)
    {
      hide Inv, Fine, Toggled, CacheEntry, IsAnchor, InCloud;
      ghost var w := Abstract();
      InvIsFine(w);
      assert Fine(w.segs[segId]);
      SwitchAnchor(fSegStructMap[segId], slice);
      assert Segs() == w.segs[segId := fSegStructMap[segId].State()];
      AnchorIsNegated(w.segs[segId], slice);
    }

    static method SwitchAnchor(seg: SegmentationStruct, slice: int)
      requires Fine(seg.State())
      modifies seg
      ensures seg.State() == Toggled(old(seg.State()), slice, !CacheEntry(old(seg.State()).cache, slice).anchor)
    {
      hide Fine, SetAnchor, InsertDefaults, CacheEntry;
      FineIsValid(seg.State());
      var anchor := seg.LookUpAnchor(slice);
      seg.SetAnnotationAnchor(slice, !anchor);
    }
  }

  lemma AnchorIsNegated(s: Seg, slice: int)
    requires Fine(s)
    ensures var s' := Toggled(s, slice, !CacheEntry(s.cache, slice).anchor);
            forall u :: IsAnchor(s', u) == if u == slice && InCloud(s, slice) then !IsAnchor(s, u) else IsAnchor(s, u)
  {
    hide Fine, Toggled, IsAnchor;
    ToggledAnchors(s, slice, !CacheEntry(s.cache, slice).anchor);
    if InCloud(s, slice) {
      FineIsAligned(s, slice);
      CacheIsAnchor(s, slice);
    }
  }

  lemma CacheIsAnchor(s: Seg, slice: int)
    requires Good(s)
    ensures CacheEntry(s.cache, slice).anchor == IsAnchor(s, slice)
  {}

  lemma FineIsValid(s: Seg)
    requires Fine(s)
    ensures s.master.Valid() && s.ann.Valid()
  {
    if !Empty(s) {
      SoundIsValid(s);
    }
  }

  lemma InvIsFine(w: Win)
    requires Inv(w)
    ensures forall id | id in w.segs :: Fine(w.segs[id])
  {}

  lemma FinishedFacts(w: Win, ps: PointSet)
    requires Inv(w) && CanHappen(w, Finished(ps))
    ensures w.queue != [] && w.queue[0].segId in w.segs
    ensures var r := w.queue[0];
            var s := w.segs[r.segId];
            && Sound(s) && Safe(s, r, w.toolStart) && Delivers(s, r, w.toolStart, ps)
            && Sound(Finish(s, r, w.toolStart, ps))
            && Next(w, Finished(ps))
               == Settled(w.(segs := w.segs[r.segId := Finish(s, r, w.toolStart, ps)], queue := w.queue[1..]))
    ensures forall id | id in w.segs :: Fine(w.segs[id])
  {
    hide Good, Safe, Delivers, Finish, Settled, KeepsAnchors, IsAnchor;
    var r := w.queue[0];
    assert Safe(w.segs[r.segId], r, w.toolStart);
    FineWithRun(w.segs[r.segId], r, w.toolStart);
    FinishKeepsAnchors(w.segs[r.segId], r, w.toolStart, ps);
  }

  lemma DeliveryIsValid(s: Seg, r: Request, toolStart: int, ps: PointSet)
    requires Delivers(s, r, toolStart, ps)
    ensures ps.rows != [] ==> ps.Valid()
  {}

  lemma RowsAreStorable(s: Seg, ps: PointSet)
    requires Good(s) && RowsInCloud(s, ps, 0)
    ensures forall i | 0 <= i < |ps.rows| :: CanStore(s, ps, i)
  {
    forall i | 0 <= i < |ps.rows| ensures CanStore(s, ps, i) {
      RowIndexIs(s, ps.rows[i][0].z);
      RowOf(s, ps.rows[i][0].z);
    }
  }

  /** Merging a result, marking its start slice and storing its positions stay within the clouds, whatever part of
      the planned slices it has. (The reset that follows does so exactly under the condition of ResetFitsIff.) */
  lemma ResultFits(s: Seg, r: Request, toolStart: int, ps: PointSet)
    requires Sound(s) && Safe(s, r, toolStart) && Delivers(s, r, toolStart, ps)
    ensures s.master.Valid() && s.ann.Valid() && s.master.rows != [] && ps.Valid()
    ensures var s1 := Merge(s, ps);
            var s2 := SetUsedInRun(s1, StartSlice(r, toolStart), true);
            var s3 := SetOriginalPos(s2, ps, 0);
            && s1.master.Valid() && s1.ann.Valid() && s2.master.Valid() && s2.ann.Valid()
            && (forall i | 0 <= i < |ps.rows| :: CanStore(s2, ps, i))
            && s3.master.Valid() && s3.ann.Valid()
  {
    hide Good, Aligned, Safe, Incoming, IsAnchor, SetUsedInRun, SetOriginalPos, Merge, KeepsAnchors, SameAnchors, RowsInCloud,
         CanStore, RowIndex;
    SoundIsValid(s);
    DeliveryIsValid(s, r, toolStart, ps);
    var s1, lost := Merge(s, ps), Overwritten(s, r, toolStart, ps);
    DeliveryMerges(s, r, toolStart, ps);
    GoodIsValid(s1);
    var s2 := SetUsedInRun(s1, StartSlice(r, toolStart), true);
    SetUsedInRunGood(s1, StartSlice(r, toolStart), true);
    GoodIsValid(s2);
    SameAnchorsStep(s, s1, s2, ps, lost);
    RowsAreStorable(s2, ps);
    SetOriginalPosGood(s2, ps, 0);
    GoodIsValid(SetOriginalPos(s2, ps, 0));
  }

  lemma ResetFrame(s: Seg, t: int, end: int)
    ensures var s' := Segmentation.ResetAnnotations(s, t, end);
            |s'.ann.rows| == |s.ann.rows| && s'.ann.width == s.ann.width
  {}

  ghost predicate KeepReady(s: Seg, toolStart: int, changed: PointSet) {
    Sound(s) && InCloud(s, toolStart) && ChangedFits(s, toolStart, changed)
  }

  lemma KeepFacts(w: Win, toolStart: int, kept: map<string, PointSet>, leave: bool)
    requires Inv(w) && CanHappen(w, Keep(toolStart, kept, leave))
    ensures forall id | id in w.segs :: Fine(w.segs[id])
    ensures forall id | id in kept :: id in w.segs && KeepReady(w.segs[id], toolStart, kept[id])
    ensures forall id | id in w.segs :: Fine(KeepAll(w, toolStart, kept).segs[id])
    ensures w.queue == []
    ensures Next(w, Keep(toolStart, kept, leave))
         == if leave then Settled(KeepAll(w, toolStart, kept)) else KeepAll(w, toolStart, kept)
  {
    hide Sound, InCloud, ChangedFits, KeepChanges, Settled, IsAnchor, AnchorKept;
    InvIsFine(w);
    forall id | id in kept
      ensures id in w.segs && KeepReady(w.segs[id], toolStart, kept[id])
      ensures Sound(KeepChanges(w.segs[id], toolStart, kept[id]))
    {
      assert KeepFits(w, id, toolStart, kept[id]);
      FineWithSlice(w.segs[id], toolStart);
      KeepChangesKeeps(w.segs[id], toolStart, kept[id]);
    }
  }

  /** Marking the tool slice of a segment stays within its clouds. */
  lemma KeepsSafely(s: Seg, toolStart: int)
    requires Sound(s)
    ensures s.master.Valid() && s.ann.Valid() && s.master.rows != []
    ensures var s1 := SetAnchor(s, toolStart, true);
            s1.master.Valid() && s1.ann.Valid() && forall j | j in s1.buffered :: 0 <= j < s1.ann.width
    ensures var s2 := SetManualPoints(SetAnchor(s, toolStart, true), toolStart); s2.master.Valid() && s2.ann.Valid()
    ensures var s3 := SetUsedInRun(SetManualPoints(SetAnchor(s, toolStart, true), toolStart), toolStart, false);
            s3.master.Valid() && s3.ann.Valid() && s3.master.rows != []
  {
    hide SetAnchor, SetManualPoints, SetUsedInRun, Good, IsAnchor;
    SoundIsValid(s);
    var s1 := SetAnchor(s, toolStart, true);
    SetAnchorGood(s, toolStart, true);
    SetAnchorFrame(s, toolStart, true);
    GoodIsValid(s1);
    var s2 := SetManualPoints(s1, toolStart);
    SetManualPointsGood(s1, toolStart);
    SetManualPointsFrame(s1, toolStart);
    GoodIsValid(s2);
    SetUsedInRunGood(s2, toolStart, false);
    SetUsedInRunFrame(s2, toolStart, false);
    GoodIsValid(SetUsedInRun(s2, toolStart, false));
  }

  lemma GoodIsValid(s: Seg)
    requires Good(s)
    ensures s.master.Valid() && s.ann.Valid() && forall j | j in s.buffered :: 0 <= j < s.ann.width
  {
    ContiguousEnds(s, Base(s), Base(s));
  }

  /** What the start of a session with the tool may rely on. */
  lemma StartFacts(w: Win, c: Choice, actives: seq<Active>)
    requires Inv(w) && CanHappen(w, Start(c, actives))
    ensures w.queue == []
    ensures forall id | id in w.segs :: Fine(w.segs[id])
    ensures forall a | a in actives :: a.segId in w.segs && Ready(w.segs[a.segId]) && InCloud(w.segs[a.segId], c.toolStart)
                                       && ChangedFits(w.segs[a.segId], c.toolStart, a.changed)
    ensures forall i, j | 0 <= i < j < |actives| :: actives[i].segId != actives[j].segId
    ensures forall id | id in w.segs :: id in StartAll(w.(toolStart := c.toolStart), c, actives).segs
                                        && Fine(StartAll(w.(toolStart := c.toolStart), c, actives).segs[id])
    ensures Next(w, Start(c, actives)) == Settled(StartAll(w.(toolStart := c.toolStart), c, actives))
  {
    hide Sound, InCloud, Incoming, StartAll;
    var w0 := w.(toolStart := c.toolStart);
    forall a | a in actives ensures ActiveFits(w0, a, c) {
      ActiveElsewhere(w, w0, a, c);
    }
    StartAllKeeps(w0, c, actives, "", 0);
    forall a | a in actives
      ensures a.segId in w.segs && Ready(w.segs[a.segId]) && InCloud(w.segs[a.segId], c.toolStart)
      ensures ChangedFits(w.segs[a.segId], c.toolStart, a.changed)
    {
      assert ActiveFits(w, a, c);
      FineWithSlice(w.segs[a.segId], c.toolStart);
    }
  }

  lemma StartAllStep(w: Win, c: Choice, actives: seq<Active>)
    requires actives != [] && forall a | a in actives :: a.segId in w.segs
    ensures var a := actives[0];
            var (s, requests) := Started(w.segs[a.segId], a, c);
            StartAll(w, c, actives)
              == StartAll(w.(segs := w.segs[a.segId := s], queue := w.queue + requests), c, actives[1..])
  {}

  lemma StartAllEnds(w: Win, c: Choice)
    ensures StartAll(w, c, []) == w
  {}

  lemma NotEmpty(s: set<string>)
    requires s != {}
    ensures exists x :: x in s
  {
    assert (forall x :: x !in s) ==> s == {};
  }

  lemma SoundIsValid(s: Seg)
    requires Sound(s)
    ensures s.master.Valid() && s.ann.Valid() && s.master.rows != [] && s.ann.rows != []
    ensures forall j | j in s.buffered :: 0 <= j < s.ann.width
  {
    ContiguousEnds(s, Base(s), Base(s));
  }

  /** The preparation of a segment stays within its clouds. */
  lemma PreparesSafely(s: Seg, toolStart: int, changed: PointSet)
    requires Ready(s) && InCloud(s, toolStart) && ChangedFits(s, toolStart, changed)
    ensures s.master.Valid() && s.ann.Valid() && s.master.rows != []
    ensures var s1 := Merge(s, changed); s1.master.Valid() && s1.ann.Valid()
    ensures var s2 := SetAnchor(Merge(s, changed), toolStart, true);
            && s2.master.Valid() && s2.ann.Valid() && (forall j | j in s2.buffered :: 0 <= j < s2.ann.width)
            && SetManualPoints(s2, toolStart).master.Valid() && SetManualPoints(s2, toolStart).ann.Valid()
  {
    hide Merge, SetAnchor, SetManualPoints, Good, Aligned, IsAnchor, AnchorKept, ChangedFits;
    SoundIsValid(s);
    ChangedMerges(s, toolStart, changed);
    SoundIsValid(Merge(s, changed));
    SetAnchorGood(Merge(s, changed), toolStart, true);
    GoodIsValid(SetAnchor(Merge(s, changed), toolStart, true));
    SetManualPointsGood(SetAnchor(Merge(s, changed), toolStart, true), toolStart);
    GoodIsValid(SetManualPoints(SetAnchor(Merge(s, changed), toolStart, true), toolStart));
  }
}
