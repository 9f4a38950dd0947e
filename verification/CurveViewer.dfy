/** The objects behind a curve drag: the curve, its segment's buffers, the viewer's
    mouse handlers, and the undo commands, each proved against module CurveEditing. */
module CurveViewers {
  import opened Geometry
  import opened CurveEditing
  import opened Segmentation

  class CXCurve {
    var fPoints: Points
    var fLastState: Points

    constructor (c: Curve)
      ensures State() == c
    {
      fPoints, fLastState := c.points, c.lastState;
    }

    function State(): Curve
      reads this
    {
      Curve(fPoints, fLastState)
    }

    method SetLastState()
      modifies this
      ensures State() == Curve(old(fPoints), old(fPoints))
    {
      fLastState := fPoints;
    }

    method SetPoint(index: int, p: Vec2)
      requires 0 <= index < |fPoints|
      modifies this`fPoints
      ensures fPoints == old(fPoints)[index := p]
    {
      fPoints := fPoints[index := p];
    }

    /** Moves point index by diff from where it was at the last state, and its neighbours with it. */
    method SetPointByDifference(index: int, diff: Vec2, impact: Impact, range: int)
      requires range >= 1 && 0 <= index < |fPoints| == |fLastState|
      modifies this`fPoints
      ensures fPoints == Dragged(old(State()), index, diff, range, impact)
      ensures Followed(old(State()), fPoints, index, diff, range, impact)
    {
      hide Shift, Weight, Followed;
      if range > 1 {
        SetPointByDifferenceMt(index, diff, impact, range);
        return;
      }
      ghost var was := State();
      for i := 0 to range + 1
        invariant |fPoints| == |was.points| && fLastState == was.lastState
        invariant forall j | 0 <= j < |fPoints| :: fPoints[j] ==
                    if Distance(j, index) < i then Shift(was.lastState[j], diff, Weight(impact, Distance(j, index), range))
                    else was.points[j]
      {
        if index - i >= 0 {
          SetPoint(index - i, Shift(fLastState[index - i], diff, Weight(impact, i, range)));
        }
        if i != 0 && index + i < |fPoints| {
          SetPoint(index + i, Shift(fLastState[index + i], diff, Weight(impact, i, range)));
        }
      }
      AllFollow(was, index, diff, range, impact);
    }

    method SetPointByDifferenceMt(index: int, diff: Vec2, impact: Impact, range: int)
      requires range >= 1 && 0 <= index < |fPoints| == |fLastState|
      modifies this`fPoints
      ensures fPoints == Dragged(old(State()), index, diff, range, impact)
      ensures Followed(old(State()), fPoints, index, diff, range, impact)
    {
      hide Shift, Weight, Followed;
      ghost var was := State();
      for i := -range to range + 1
        invariant |fPoints| == |was.points| && fLastState == was.lastState
        invariant forall j | 0 <= j < |fPoints| :: fPoints[j] ==
                    if -range <= j - index < i then Shift(was.lastState[j], diff, Weight(impact, Distance(j, index), range))
                    else was.points[j]
      {
        var current := index + i;
        if 0 <= current < |fPoints| {
          SetPoint(current, Shift(fLastState[current], diff, Weight(impact, if i < 0 then -i else i, range)));
        }
      }
      AllFollow(was, index, diff, range, impact);
    }
  }

  /** The points p of a curve of which point index was moved by diff: the others follow by the impact of their share
      of the range, from where they were at the last state; behind the range they stay. */
  ghost predicate Followed(c: Curve, p: Points, index: int, diff: Vec2, range: int, impact: Impact) {
    && |p| == |c.points| == |c.lastState|
    && (forall j | 0 <= j < |p| && Distance(j, index) > range :: p[j] == c.points[j])
    && forall j, q: real | 0 <= j < |p| && Distance(j, index) <= range && q * range as real == Distance(j, index) as real ::
         p[j] == Vec2(c.lastState[j].x + diff.x * impact(q), c.lastState[j].y + diff.y * impact(q))
  }

  lemma AllFollow(c: Curve, index: int, diff: Vec2, range: int, impact: Impact)
    requires range >= 1 && |c.lastState| == |c.points|
    ensures Followed(c, Dragged(c, index, diff, range, impact), index, diff, range, impact)
  {
    hide Dragged;
    var p := Dragged(c, index, diff, range, impact);
    forall j, q: real | 0 <= j < |p|
      ensures Distance(j, index) > range ==> p[j] == c.points[j]
      ensures Distance(j, index) <= range && q * range as real == Distance(j, index) as real
              ==> p[j] == Vec2(c.lastState[j].x + diff.x * impact(q), c.lastState[j].y + diff.y * impact(q))
    {
      DraggedFollows(c, index, diff, range, impact, j, q);
    }
  }

  /** The curves of a segment: one per slice, the changed ones, and the one shown and edited. */
  class SegmentCurves {
    const fIntersectionCurve: CXCurve
    var fIntersections: seq<Curve>
    var fIntersectionsChanged: map<int, Curve>
    var fStartingPath: Row
    var fBufferedChangedPoints: set<int>
    var fMinSegIndex: int
    var fPathOnSliceIndex: int

    constructor (curves: seq<Curve>, minSegIndex: int)
      ensures fIntersections == curves && fIntersectionsChanged == map[] && fBufferedChangedPoints == {}
      ensures fMinSegIndex == minSegIndex && fStartingPath == [] && fresh(fIntersectionCurve)
    {
      fIntersectionCurve := new CXCurve(Curve([], []));
      fIntersections, fIntersectionsChanged, fBufferedChangedPoints := curves, map[], {};
      fMinSegIndex, fPathOnSliceIndex, fStartingPath := minSegIndex, minSegIndex, [];
    }

    /** What an edit of the shown slice changes. */
    function Document(): Doc
      reads this, fIntersectionCurve
    {
      Doc(fIntersectionCurve.fPoints, fBufferedChangedPoints)
    }

    predicate HasSlice(slice: int)
      reads this
    {
      0 <= slice - fMinSegIndex < |fIntersections|
    }

    /** The curve a slice shows: its changed curve if there is one. */
    function Shown(slice: int): Curve
      reads this
    {
      if !HasSlice(slice) then Curve([], [])
      else if slice in fIntersectionsChanged then fIntersectionsChanged[slice]
      else fIntersections[slice - fMinSegIndex]
    }

    /** The shown curve is buffered as a change of its slice. */
    predicate Buffered()
      reads this, fIntersectionCurve
    {
      && HasSlice(fPathOnSliceIndex) && fPathOnSliceIndex in fIntersectionsChanged
      && fIntersectionsChanged[fPathOnSliceIndex].points == fIntersectionCurve.fPoints
    }

    method SetCurrentCurve(slice: int)
      modifies this`fPathOnSliceIndex, fIntersectionCurve
      ensures fPathOnSliceIndex == slice && fIntersectionCurve.State() == Shown(slice)
    {
      fPathOnSliceIndex := slice;
      var curveIndex := slice - fMinSegIndex;
      var c := Curve([], []);
      if curveIndex >= 0 && curveIndex < |fIntersections| && |fIntersections| != 0 {
        c := if slice in fIntersectionsChanged then fIntersectionsChanged[slice] else fIntersections[curveIndex];
      }
      fIntersectionCurve.fPoints, fIntersectionCurve.fLastState := c.points, c.lastState;
    }

    method UpdateChangedCurvePoints(slice: int, changes: seq<PathChangePoint>)
      requires slice in fIntersectionsChanged
               ==> forall i | 0 <= i < |changes| :: 0 <= changes[i].pointIndex < |fIntersectionsChanged[slice].points|
      modifies this`fIntersectionsChanged
      ensures fIntersectionsChanged ==
                if slice !in old(fIntersectionsChanged) then old(fIntersectionsChanged)
                else var c := old(fIntersectionsChanged)[slice];
                     old(fIntersectionsChanged)[slice := c.(points := Update(c.points, changes))]
    {
      if slice in fIntersectionsChanged {
        ghost var was := fIntersectionsChanged;
        assert was[slice := was[slice].(points := was[slice].points)] == was;
        for i := 0 to |changes|
          invariant fIntersectionsChanged == was[slice := was[slice].(points := Update(was[slice].points, changes[..i]))]
        {
          var c, change := fIntersectionsChanged[slice], changes[i];
          assert changes[..i + 1][..i] == changes[..i];
          fIntersectionsChanged := fIntersectionsChanged[slice := c.(points := c.points[change.pointIndex := change.position])];
        }
        assert changes[..|changes|] == changes;
      }
    }

    method AddPointsToManualBuffer(pointIndexes: set<int>)
      modifies this`fBufferedChangedPoints
      ensures fBufferedChangedPoints == old(fBufferedChangedPoints) + pointIndexes
    {
      fBufferedChangedPoints := fBufferedChangedPoints + pointIndexes;
    }

    method RemovePointsFromManualBuffer(pointIndexes: set<int>)
      modifies this`fBufferedChangedPoints
      ensures fBufferedChangedPoints == old(fBufferedChangedPoints) - pointIndexes
    {
      fBufferedChangedPoints := fBufferedChangedPoints - pointIndexes;
    }

    /** The shown curve becomes the starting path and is buffered as the changed curve of its slice. */
    method OnPathChanged()
      modifies this`fStartingPath, this`fIntersectionsChanged
      ensures fStartingPath == OnSlice(fIntersectionCurve.fPoints, fPathOnSliceIndex)
      ensures fIntersectionsChanged == old(fIntersectionsChanged)[fPathOnSliceIndex := fIntersectionCurve.State()]
      ensures HasSlice(fPathOnSliceIndex) ==> Buffered()
    {
      fStartingPath := [];
      for i := 0 to |fIntersectionCurve.fPoints|
        invariant fStartingPath == OnSlice(fIntersectionCurve.fPoints[..i], fPathOnSliceIndex)
        modifies this`fStartingPath
      {
        var p := fIntersectionCurve.fPoints[i];
        fStartingPath := fStartingPath + [Point(p.x, p.y, fPathOnSliceIndex)];
      }
      assert fIntersectionCurve.fPoints[..|fIntersectionCurve.fPoints|] == fIntersectionCurve.fPoints;
      fIntersectionsChanged := fIntersectionsChanged[fPathOnSliceIndex := fIntersectionCurve.State()];
    }
  }

  /** A curve as points of a slice. */
  function OnSlice(points: Points, slice: int): (row: Row)
    ensures SliceRow(row, |points|, slice)
  {
    seq(|points|, i requires 0 <= i < |points| => Point(points[i].x, points[i].y, slice))
  }

  /** Points of a slice as a curve. */
  function Flat(row: Row): Points {
    seq(|row|, i requires 0 <= i < |row| => Vec2(row[i].x, row[i].y))
  }

  lemma FlatOnSlice(points: Points, slice: int)
    ensures Flat(OnSlice(points, slice)) == points
  {}

  predicate InRange(changes: seq<PathChangePoint>, n: nat) {
    forall i | 0 <= i < |changes| :: 0 <= changes[i].pointIndex < n
  }

  class PathChangeCommand {
    const before: seq<PathChangePoint>
    const after: seq<PathChangePoint>

    constructor (before: seq<PathChangePoint>, after: seq<PathChangePoint>)
      ensures this.before == before && this.after == after
    {
      this.before, this.after := before, after;
    }

    function Value(): Command {
      Command(before, after)
    }

    method Undo(seg: SegmentCurves)
      requires |after| <= |before|
      requires seg.fPathOnSliceIndex in seg.fIntersectionsChanged
               ==> InRange(before, |seg.fIntersectionsChanged[seg.fPathOnSliceIndex].points|)
      modifies seg, seg.fIntersectionCurve
      ensures var slice := seg.fPathOnSliceIndex;
              && seg.fIntersectionsChanged == (if slice !in old(seg.fIntersectionsChanged) then old(seg.fIntersectionsChanged)
                 else var c := old(seg.fIntersectionsChanged)[slice];
                      old(seg.fIntersectionsChanged)[slice := c.(points := Update(c.points, before))])
              && seg.fIntersectionCurve.State() == seg.Shown(slice)
      ensures seg.fBufferedChangedPoints == old(seg.fBufferedChangedPoints) - NewlyManual(Value())
      ensures old(seg.Buffered()) ==> seg.Document() == Undone(old(seg.Document()), Value()) && seg.Buffered()
      ensures seg.fPathOnSliceIndex == old(seg.fPathOnSliceIndex) && seg.fMinSegIndex == old(seg.fMinSegIndex)
      ensures seg.fIntersections == old(seg.fIntersections) && seg.fStartingPath == old(seg.fStartingPath)
    {
      hide Update;
      seg.UpdateChangedCurvePoints(seg.fPathOnSliceIndex, before);
      var noLongerManual := ManualChanges();
      seg.RemovePointsFromManualBuffer(noLongerManual);
      seg.SetCurrentCurve(seg.fPathOnSliceIndex);
    }

    method Redo(seg: SegmentCurves)
      requires |after| <= |before|
      requires seg.fPathOnSliceIndex in seg.fIntersectionsChanged
               ==> InRange(after, |seg.fIntersectionsChanged[seg.fPathOnSliceIndex].points|)
      modifies seg, seg.fIntersectionCurve
      ensures var slice := seg.fPathOnSliceIndex;
              && seg.fIntersectionsChanged == (if slice !in old(seg.fIntersectionsChanged) then old(seg.fIntersectionsChanged)
                 else var c := old(seg.fIntersectionsChanged)[slice];
                      old(seg.fIntersectionsChanged)[slice := c.(points := Update(c.points, after))])
              && seg.fIntersectionCurve.State() == seg.Shown(slice)
      ensures seg.fBufferedChangedPoints == old(seg.fBufferedChangedPoints) + NewlyManual(Value())
      ensures old(seg.Buffered()) ==> seg.Document() == Redone(old(seg.Document()), Value()) && seg.Buffered()
      ensures seg.fPathOnSliceIndex == old(seg.fPathOnSliceIndex) && seg.fMinSegIndex == old(seg.fMinSegIndex)
      ensures seg.fIntersections == old(seg.fIntersections) && seg.fStartingPath == old(seg.fStartingPath)
    {
      hide Update;
      seg.UpdateChangedCurvePoints(seg.fPathOnSliceIndex, after);
      var nowManual := ManualChanges();
      seg.AddPointsToManualBuffer(nowManual);
      seg.SetCurrentCurve(seg.fPathOnSliceIndex);
    }

    /** The loop of both commands: the points whose entries differ in their manual mark. */
    method ManualChanges() returns (points: set<int>)
      requires |after| <= |before|
      ensures points == NewlyManual(Value())
    {
      points := {};
      for i := 0 to |after|
        invariant points == set k | 0 <= k < i && after[k].manuallyChanged && !before[k].manuallyChanged :: after[k].pointIndex
      {
        if after[i].manuallyChanged && !before[i].manuallyChanged {
          points := points + {after[i].pointIndex};
        }
      }
    }
  }

  /** The undo stack of the toolkit: a push drops what was undone and redoes the new command. */
  class UndoStack {
    var commands: seq<PathChangeCommand>
    var index: nat

    constructor ()
      ensures commands == [] && index == 0
    {
      commands, index := [], 0;
    }

    function Values(): seq<Command>
      reads this
    {
      seq(|commands|, i requires 0 <= i < |commands| reads this => commands[i].Value())
    }

    /** The segment with this stack, as an editor of the tool slice. */
    function Editor(seg: SegmentCurves, tool: int): Editor
      reads this, seg, seg.fIntersectionCurve
    {
      CurveEditing.Editor.Editor(Doc(seg.Shown(tool).points, seg.fBufferedChangedPoints), Values(), index,
                                 Flat(seg.fStartingPath), seg.fPathOnSliceIndex != tool)
    }

    /** Every command compares lists of equal length and concerns points the curve has. */
    ghost predicate Fits(n: nat)
      reads this
    {
      && index <= |commands|
      && forall i | 0 <= i < |commands| ::
           |commands[i].after| <= |commands[i].before| && InRange(commands[i].before, n) && InRange(commands[i].after, n)
    }

    /** The tool slice alone can have a changed curve, and has one once there are commands; the shown curve is that of
        the shown slice. */
    ghost predicate Usable(seg: SegmentCurves, tool: int)
      reads this, seg, seg.fIntersectionCurve
    {
      && seg.HasSlice(tool) && Fits(|seg.Shown(tool).points|)
      && (commands != [] ==> tool in seg.fIntersectionsChanged)
      && (forall slice | slice in seg.fIntersectionsChanged :: slice == tool)
      && seg.fIntersectionCurve.fPoints == seg.Shown(seg.fPathOnSliceIndex).points
    }

    method Push(cmd: PathChangeCommand, seg: SegmentCurves, tool: int)
      requires Fits(|seg.fIntersectionCurve.fPoints|) && seg.Buffered() && |cmd.after| <= |cmd.before|
      requires seg.fPathOnSliceIndex == tool && forall slice | slice in seg.fIntersectionsChanged :: slice == tool
      requires InRange(cmd.before, |seg.fIntersectionCurve.fPoints|) && InRange(cmd.after, |seg.fIntersectionCurve.fPoints|)
      modifies this, seg, seg.fIntersectionCurve
      ensures Usable(seg, tool)
      ensures Editor(seg, tool) == CurveEditing.Editor.Editor(Redone(old(seg.Document()), cmd.Value()),
                                          old(Values())[..old(index)] + [cmd.Value()], old(index) + 1,
                                          old(Flat(seg.fStartingPath)), false)
    {
      hide Update, NewlyManual;
      ghost var was := Editor(seg, tool);
      commands := commands[..index] + [cmd];
      index := index + 1;
      assert Values() == was.commands[..was.done] + [cmd.Value()];
      assert forall i | 0 <= i < |commands| - 1 :: Values()[i] == was.commands[i];
      cmd.Redo(seg);
    }

    method Undo(seg: SegmentCurves, tool: int, impact: Impact)
      requires Usable(seg, tool)
      modifies this, seg, seg.fIntersectionCurve
      ensures Usable(seg, tool)
      ensures Sane(old(Editor(seg, tool))) && Editor(seg, tool) == Act(old(Editor(seg, tool)), Op.Undo, impact)
    {
      hide Update, NewlyManual;
      if index > 0 {
        index := index - 1;
        assert Values()[index] == commands[index].Value();
        commands[index].Undo(seg);
      }
    }

    method Redo(seg: SegmentCurves, tool: int, impact: Impact)
      requires Usable(seg, tool)
      modifies this, seg, seg.fIntersectionCurve
      ensures Usable(seg, tool)
      ensures Sane(old(Editor(seg, tool))) && Editor(seg, tool) == Act(old(Editor(seg, tool)), Op.Redo, impact)
    {
      hide Update, NewlyManual;
      if index < |commands| {
        assert Values()[index] == commands[index].Value();
        commands[index].Redo(seg);
        index := index + 1;
      }
    }

    /** Another slice is shown, or the tool slice again. */
    method ShowSlice(seg: SegmentCurves, tool: int, slice: int, impact: Impact)
      requires Usable(seg, tool)
      modifies seg`fPathOnSliceIndex, seg.fIntersectionCurve
      ensures Usable(seg, tool)
      ensures Sane(old(Editor(seg, tool))) && Editor(seg, tool) == Act(old(Editor(seg, tool)), Op.Show(slice != tool), impact)
    {
      seg.SetCurrentCurve(slice);
    }
  }

  /** The viewer's part of a drag: its record of the drag in progress, and the mouse handlers. */
  class CVolumeViewerWithCurve {
    var fImpactRange: int
    var fSelectedPointIndex: int
    var curveGrabbed: bool
    var fVertexIsChanged: bool
    var fLastPos: Vec2
    var pathChangeBefore: seq<PathChangePoint>
    var movedPointIndexSet: set<int>

    constructor (impactRange: int)
      ensures fImpactRange == impactRange && !curveGrabbed && fSelectedPointIndex == -1
    {
      fImpactRange, fSelectedPointIndex, curveGrabbed, fVertexIsChanged := impactRange, -1, false, false;
      fLastPos, pathChangeBefore, movedPointIndexSet := Vec2(0.0, 0.0), [], {};
    }

    function Record(): Drag
      reads this
    {
      Drag(fSelectedPointIndex, fLastPos, pathChangeBefore, movedPointIndexSet)
    }

    function State(seg: SegmentCurves): Dragging
      reads this, seg, seg.fIntersectionCurve
    {
      Dragging(seg.fIntersectionCurve.State(), Record())
    }

    method SetImpactRange(impactRange: int)
      modifies this`fImpactRange
      ensures fImpactRange == impactRange
    {
      fImpactRange := impactRange;
    }

    /** A press on a point of the curve grabs it; the press is also the first move. */
    method MousePress(seg: SegmentCurves, selected: int, pos: Vec2, impact: Impact)
      requires 0 <= selected < |seg.fIntersectionCurve.fPoints| && fImpactRange >= 1
      modifies this, seg.fIntersectionCurve
      ensures fImpactRange == old(fImpactRange) && curveGrabbed && fVertexIsChanged
      ensures State(seg) == Moved(Pressed(old(seg.fIntersectionCurve.fPoints), selected), seg.fBufferedChangedPoints,
                                  Move(pos, fImpactRange), impact)
    {
      fSelectedPointIndex := selected;
      seg.fIntersectionCurve.SetLastState();
      curveGrabbed := true;
      pathChangeBefore, movedPointIndexSet := [], {};
      fLastPos := seg.fIntersectionCurve.fPoints[fSelectedPointIndex];
      MouseMove(seg, pos, impact);
    }

    /** Records the points about to move for the first time, then moves the curve. */
    method MouseMove(seg: SegmentCurves, pos: Vec2, impact: Impact)
      requires fImpactRange >= 1 && |seg.fIntersectionCurve.fPoints| == |seg.fIntersectionCurve.fLastState|
      requires curveGrabbed ==> fSelectedPointIndex == -1 || 0 <= fSelectedPointIndex < |seg.fIntersectionCurve.fPoints|
      modifies this`movedPointIndexSet, this`pathChangeBefore, this`fVertexIsChanged, seg.fIntersectionCurve`fPoints
      ensures var grabbed := curveGrabbed && fSelectedPointIndex != -1;
              && State(seg) == (if grabbed then Moved(old(State(seg)), seg.fBufferedChangedPoints, Move(pos, fImpactRange), impact)
                                else old(State(seg)))
              && fVertexIsChanged == (grabbed || old(fVertexIsChanged))
    {
      hide Dragged;
      if fSelectedPointIndex != -1 && curveGrabbed {
        ghost var was, manual, points := Record(), seg.fBufferedChangedPoints, seg.fIntersectionCurve.fPoints;
        ghost var lo := fSelectedPointIndex - fImpactRange + 1;
        for i := -fImpactRange + 1 to fImpactRange
          invariant Record() == CaptureAll(points, manual, was, lo, fSelectedPointIndex + i)
          modifies this`movedPointIndexSet, this`pathChangeBefore
        {
          var j := fSelectedPointIndex + i;
          if j >= 0 && j < |seg.fIntersectionCurve.fPoints| {
            if j !in movedPointIndexSet {
              movedPointIndexSet := movedPointIndexSet + {j};
              var marked := j in seg.fBufferedChangedPoints;
              pathChangeBefore := pathChangeBefore + [PathChangePoint(j, seg.fIntersectionCurve.fPoints[j], marked)];
            }
          }
        }
        seg.fIntersectionCurve.SetPointByDifference(fSelectedPointIndex, Minus(pos, fLastPos), impact, fImpactRange);
        fVertexIsChanged := true;
      }
    }

    /** The release marks the moved points and hands over what changed. */
    method MouseRelease(seg: SegmentCurves) returns (changed: bool, before: seq<PathChangePoint>, after: seq<PathChangePoint>)
      requires curveGrabbed ==> forall j | j in movedPointIndexSet :: 0 <= j < |seg.fIntersectionCurve.fPoints|
      modifies this, seg`fBufferedChangedPoints
      ensures changed == old(fVertexIsChanged && curveGrabbed)
      ensures changed ==>
                && before == Retain(old(pathChangeBefore), old(movedPointIndexSet), old(|pathChangeBefore|))
                && after == Collect(seg.fIntersectionCurve.fPoints, old(movedPointIndexSet), |seg.fIntersectionCurve.fPoints|)
                && fSelectedPointIndex == -1 && !fVertexIsChanged
      ensures seg.fBufferedChangedPoints == old(seg.fBufferedChangedPoints) + if changed then old(movedPointIndexSet) else {}
      ensures !curveGrabbed
    {
      changed, before, after := fVertexIsChanged && curveGrabbed, [], [];
      if changed {
        for index := 0 to |seg.fIntersectionCurve.fPoints|
          invariant after == Collect(seg.fIntersectionCurve.fPoints, movedPointIndexSet, index)
          modifies {}
        {
          if index in movedPointIndexSet {
            after := after + [PathChangePoint(index, seg.fIntersectionCurve.fPoints[index], true)];
          }
        }
        seg.AddPointsToManualBuffer(movedPointIndexSet);
        for i := 0 to |pathChangeBefore|
          invariant before == Retain(pathChangeBefore, movedPointIndexSet, i)
          modifies {}
        {
          if pathChangeBefore[i].pointIndex in movedPointIndexSet {
            before := before + [pathChangeBefore[i]];
          }
        }
        pathChangeBefore := before;
        fVertexIsChanged := false;
        fSelectedPointIndex := -1;
      }
      curveGrabbed := false;
    }
  }

  /** What the handler for a changed curve leaves in a segment: the curve it shows is its starting path and is
      buffered. */
  twostate predicate Took(seg: SegmentCurves)
    reads seg
  {
    && seg.fStartingPath == OnSlice(old(seg.fIntersectionCurve.fPoints), old(seg.fPathOnSliceIndex))
    && seg.fIntersectionsChanged == old(seg.fIntersectionsChanged[seg.fPathOnSliceIndex := seg.fIntersectionCurve.State()])
  }

  /** Every segment takes the curve it shows. */
  method TakeShownCurves(segs: set<SegmentCurves>)
    modifies segs`fStartingPath, segs`fIntersectionsChanged
    ensures forall seg | seg in segs :: Took(seg)
  {
    hide OnSlice;
    var todo := segs;
    while todo != {}
      invariant todo <= segs
      invariant forall seg | seg in segs - todo :: Took(seg)
      invariant forall seg | seg in todo :: seg.fIntersectionsChanged == old(seg.fIntersectionsChanged)
      decreases todo
    {
      var seg :| seg in todo;
      seg.OnPathChanged();
      todo := todo - {seg};
    }
  }

  /** The window's handler for a changed curve: with the segmentation tool on, every segment takes the curve it shows;
      then the command is pushed. */
  method OnPathChanged(segs: map<string, SegmentCurves>, segID: string, stack: UndoStack, tool: int, segmenting: bool,
                       before: seq<PathChangePoint>, after: seq<PathChangePoint>)
    requires segID in segs && stack.Fits(|segs[segID].fIntersectionCurve.fPoints|) && |after| <= |before|
    requires segs[segID].fPathOnSliceIndex == tool && forall slice | slice in segs[segID].fIntersectionsChanged :: slice == tool
    requires segs[segID].HasSlice(tool) && (segmenting || segs[segID].Buffered())
    requires InRange(before, |segs[segID].fIntersectionCurve.fPoints|) && InRange(after, |segs[segID].fIntersectionCurve.fPoints|)
    modifies stack, segs.Values, segs[segID].fIntersectionCurve
    ensures stack.Usable(segs[segID], tool)
    ensures var seg := segs[segID];
            stack.Editor(seg, tool)
              == Editor.Editor(Redone(old(seg.Document()), Command(before, after)),
                               old(stack.Values())[..old(stack.index)] + [Command(before, after)], old(stack.index) + 1,
                               if segmenting then old(seg.fIntersectionCurve.fPoints) else old(Flat(seg.fStartingPath)), false)
    ensures forall seg | seg in segs.Values && seg != segs[segID] :: if segmenting then Took(seg) else unchanged(seg)
  {
    hide OnSlice, Flat, Update;
    var seg := segs[segID];
    if segmenting {
      assert seg in segs.Values;
      TakeShownCurves(segs.Values);
      assert Took(seg);
    }
    FlatOnSlice(seg.fIntersectionCurve.fPoints, seg.fPathOnSliceIndex);
    var cmd := new PathChangeCommand(before, after);
    stack.Push(cmd, seg, tool);
  }

  lemma AfterStep(doc: Doc, e: Edit, k: nat, impact: Impact)
    requires EditFits(|doc.points|, e) && k < |e.moves|
    ensures After(doc.points, doc.manual, e, 0, impact) == Pressed(doc.points, e.index)
    ensures After(doc.points, doc.manual, e, k + 1, impact)
         == Moved(After(doc.points, doc.manual, e, k, impact), doc.manual, e.moves[k], impact)
  {}

  /** The mouse part of a drag, from the press to the release, with the impact range set before each move. */
  method Gesture(viewer: CVolumeViewerWithCurve, seg: SegmentCurves, e: Edit, impact: Impact)
    returns (before: seq<PathChangePoint>, after: seq<PathChangePoint>)
    requires EditFits(|seg.fIntersectionCurve.fPoints|, e)
    modifies viewer, seg`fBufferedChangedPoints, seg.fIntersectionCurve
    ensures seg.Document() == Edited(old(seg.Document()), e, impact)
    ensures Command(before, after) == CommandOf(old(seg.Document()), e, impact)
  {
    hide After, Moved, Dragged, Retain, Collect;
    ghost var doc := seg.Document();
    AfterStep(doc, e, 0, impact);
    viewer.SetImpactRange(e.moves[0].range);
    viewer.MousePress(seg, e.index, e.moves[0].pos, impact);
    for k := 1 to |e.moves|
      invariant viewer.State(seg) == After(doc.points, doc.manual, e, k, impact)
      invariant viewer.curveGrabbed && viewer.fVertexIsChanged
      modifies viewer, seg.fIntersectionCurve
    {
      AfterStep(doc, e, k, impact);
      viewer.SetImpactRange(e.moves[k].range);
      viewer.MouseMove(seg, e.moves[k].pos, impact);
    }
    MovedInRange(doc, e, impact);
    var _, b, a := viewer.MouseRelease(seg);
    before, after := b, a;
  }

  lemma MovedInRange(doc: Doc, e: Edit, impact: Impact)
    requires EditFits(|doc.points|, e)
    ensures forall j | j in Released(doc, e, impact).drag.moved :: 0 <= j < |doc.points|
    ensures var cmd := CommandOf(doc, e, impact);
            |cmd.after| == |cmd.before| && InRange(cmd.before, |doc.points|) && InRange(cmd.after, |doc.points|)
  {
    hide Released, CommandOf, Recorded, WidestRange;
    CommandIs(doc, e, impact);
  }

  /** A whole drag, from the press to the command on the stack. On another slice than the tool slice nothing happens. */
  method DragCurve(viewer: CVolumeViewerWithCurve, segs: map<string, SegmentCurves>, segID: string, stack: UndoStack,
                   tool: int, e: Edit, impact: Impact)
    requires segID in segs && stack.Usable(segs[segID], tool)
    requires EditFits(|segs[segID].Shown(tool).points|, e)
    modifies viewer, stack, segs.Values, segs[segID].fIntersectionCurve
    ensures stack.Usable(segs[segID], tool) && Sane(old(stack.Editor(segs[segID], tool)))
    ensures stack.Editor(segs[segID], tool) == Act(old(stack.Editor(segs[segID], tool)), Op.DragCurve(e), impact)
  {
    hide Edited, CommandOf, Redone, OnSlice, Flat;
    var seg := segs[segID];
    if seg.fPathOnSliceIndex != tool {
      return;
    }
    ghost var doc := seg.Document();
    var before, after := Gesture(viewer, seg, e, impact);
    MovedInRange(doc, e, impact);
    PushChangesNothing(doc, e, impact);
    OnPathChanged(segs, segID, stack, tool, true, before, after);
  }
}
