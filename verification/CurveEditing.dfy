/** Dragging a curve by one of its points, with an impact range that may change
    during the drag, and what the undo command of the drag restores. */
module CurveEditing {
  import opened Geometry

  type Points = seq<Vec2>

  /** The weight of a neighbour by its relative distance: full at the grabbed point, none at the range. */
  type Impact = f: real -> real | f(0.0) == 1.0 && f(1.0) == 0.0 witness x => 1.0 - x

  /** The points and the state they had when the drag began. */
  datatype Curve = Curve(points: Points, lastState: Points)

  /** A point of a curve, where it was, and whether it was buffered as manually changed. */
  datatype PathChangePoint = PathChangePoint(pointIndex: int, position: Vec2, manuallyChanged: bool)

  /** One mouse position of a drag and the impact range at that time. */
  datatype Move = Move(pos: Vec2, range: int)

  datatype Edit = Edit(index: int, moves: seq<Move>)

  /** The viewer's record of a drag. */
  datatype Drag = Drag(index: int, grabbed: Vec2, before: seq<PathChangePoint>, moved: set<int>)

  datatype Dragging = Dragging(curve: Curve, drag: Drag)

  predicate EditFits(n: nat, e: Edit) {
    0 <= e.index < n && e.moves != [] && forall k | 0 <= k < |e.moves| :: e.moves[k].range >= 1
  }

  // ----- moving points -----

  function Shift(p: Vec2, d: Vec2, w: real): Vec2 {
    Vec2(p.x + d.x * w, p.y + d.y * w)
  }

  function Minus(p: Vec2, q: Vec2): Vec2 {
    Vec2(p.x - q.x, p.y - q.y)
  }

  function Weight(impact: Impact, distance: nat, range: int): real
    requires range >= 1
  {
    impact(distance as real / range as real)
  }

  lemma WeightEnds(impact: Impact, range: int)
    requires range >= 1
    ensures Weight(impact, 0, range) == 1.0 && Weight(impact, range, range) == 0.0
  {
    assert range as real / range as real == 1.0;
  }

  /** The points after moving point index by diff: its neighbours follow within the range. */
  function Dragged(c: Curve, index: int, diff: Vec2, range: int, impact: Impact): (r: Points)
    requires range >= 1 && |c.lastState| == |c.points|
    ensures |r| == |c.points|
  {
    seq(|c.points|, j requires 0 <= j < |c.points| =>
      if Distance(j, index) <= range then Shift(c.lastState[j], diff, Weight(impact, Distance(j, index), range))
      else c.points[j])
  }

  lemma QuotientIs(q: real, r: real, d: real)
    requires r != 0.0 && q * r == d
    ensures d / r == q
  {
    assert q * r / r == q;
  }

  /** By how much a point follows: at the share q of the range, by the impact of q; behind the range, not at all. */
  lemma DraggedFollows(c: Curve, index: int, diff: Vec2, range: int, impact: Impact, j: nat, q: real)
    requires range >= 1 && |c.lastState| == |c.points| && j < |c.points|
    ensures Distance(j, index) > range ==> Dragged(c, index, diff, range, impact)[j] == c.points[j]
    ensures Distance(j, index) <= range && q * range as real == Distance(j, index) as real
            ==> Dragged(c, index, diff, range, impact)[j]
                == Vec2(c.lastState[j].x + diff.x * impact(q), c.lastState[j].y + diff.y * impact(q))
  {
    hide Weight, Shift;
    if Distance(j, index) <= range && q * range as real == Distance(j, index) as real {
      ShiftAt(c.lastState[j], diff, impact, Distance(j, index), range, q);
    }
  }

  lemma ShiftAt(p: Vec2, d: Vec2, impact: Impact, distance: nat, range: int, q: real)
    requires range >= 1 && q * range as real == distance as real
    ensures Shift(p, d, Weight(impact, distance, range)) == Vec2(p.x + d.x * impact(q), p.y + d.y * impact(q))
  {
    QuotientIs(q, range as real, distance as real);
    assert Weight(impact, distance, range) == impact(q);
    assert Shift(p, d, impact(q)) == Vec2(p.x + d.x * impact(q), p.y + d.y * impact(q));
  }

  // ----- the drag -----

  function Capture(points: Points, manual: set<int>, d: Drag, j: int): Drag {
    if 0 <= j < |points| && j !in d.moved
    then d.(moved := d.moved + {j}, before := d.before + [PathChangePoint(j, points[j], j in manual)])
    else d
  }

  /** Records the points from lo up to hi that were not recorded yet. */
  function CaptureAll(points: Points, manual: set<int>, d: Drag, lo: int, hi: int): (r: Drag)
    ensures r.index == d.index && r.grabbed == d.grabbed
    decreases hi - lo
  {
    if hi <= lo then d else Capture(points, manual, CaptureAll(points, manual, d, lo, hi - 1), hi - 1)
  }

  function Pressed(points: Points, index: int): Dragging
    requires 0 <= index < |points|
  {
    Dragging(Curve(points, points), Drag(index, points[index], [], {}))
  }

  function Moved(g: Dragging, manual: set<int>, m: Move, impact: Impact): Dragging
    requires m.range >= 1 && |g.curve.lastState| == |g.curve.points|
  {
    var i := g.drag.index;
    Dragging(g.curve.(points := Dragged(g.curve, i, Minus(m.pos, g.drag.grabbed), m.range, impact)),
             CaptureAll(g.curve.points, manual, g.drag, i - m.range + 1, i + m.range))
  }

  /** The drag after the first n moves of an edit. */
  function After(points: Points, manual: set<int>, e: Edit, n: nat, impact: Impact): (g: Dragging)
    requires EditFits(|points|, e) && n <= |e.moves|
    ensures |g.curve.points| == |g.curve.lastState| == |points| && g.drag.index == e.index
  {
    if n == 0 then Pressed(points, e.index) else Moved(After(points, manual, e, n - 1, impact), manual, e.moves[n - 1], impact)
  }

  // ----- which points are recorded, and in which order -----

  function IndexSet(ix: seq<int>): set<int> {
    set i | i in ix
  }

  /** ix with the numbers from lo up to hi below n that it does not hold yet. */
  function Extend(ix: seq<int>, n: nat, lo: int, hi: int): seq<int>
    decreases hi - lo
  {
    if hi <= lo then ix
    else
      var shorter := Extend(ix, n, lo, hi - 1);
      if 0 <= hi - 1 < n && hi - 1 !in shorter then shorter + [hi - 1] else shorter
  }

  /** The recorded indices after k moves, in the order of their recording. */
  function Recorded(n: nat, e: Edit, k: nat): seq<int>
    requires k <= |e.moves|
  {
    if k == 0 then []
    else Extend(Recorded(n, e, k - 1), n, e.index - e.moves[k - 1].range + 1, e.index + e.moves[k - 1].range)
  }

  predicate NoDuplicates(ix: seq<int>) {
    forall i, j | 0 <= i < j < |ix| :: ix[i] != ix[j]
  }

  predicate IndicesOf(ix: seq<int>, n: nat) {
    NoDuplicates(ix) && forall i | 0 <= i < |ix| :: 0 <= ix[i] < n
  }

  function WidestRange(e: Edit, k: nat): int
    requires k <= |e.moves|
  {
    if k == 0 then 0 else Max(WidestRange(e, k - 1), e.moves[k - 1].range)
  }

  lemma {:induction false} ExtendHolds(ix: seq<int>, n: nat, lo: int, hi: int)
    requires IndicesOf(ix, n)
    ensures var r := Extend(ix, n, lo, hi);
            IndicesOf(r, n) && ix <= r && forall j :: j in r <==> j in ix || (lo <= j < hi && 0 <= j < n)
    decreases hi - lo
  {
    if lo < hi {
      ExtendHolds(ix, n, lo, hi - 1);
    }
  }

  /** The recorded points are those closer to the grabbed one than the widest range so far. */
  lemma {:induction false} RecordedIs(n: nat, e: Edit, k: nat)
    requires EditFits(n, e) && k <= |e.moves|
    ensures IndicesOf(Recorded(n, e, k), n)
    ensures forall j :: j in Recorded(n, e, k) <==> 0 <= j < n && Distance(e.index, j) < WidestRange(e, k)
  {
    if k > 0 {
      RecordedIs(n, e, k - 1);
      var r := e.moves[k - 1].range;
      ExtendHolds(Recorded(n, e, k - 1), n, e.index - r + 1, e.index + r);
    }
  }

  // ----- the snapshot -----

  /** Index, position and manual mark of the given points. */
  function Snapshot(points: Points, manual: set<int>, ix: seq<int>): seq<PathChangePoint>
    requires forall i | 0 <= i < |ix| :: 0 <= ix[i] < |points|
  {
    seq(|ix|, i requires 0 <= i < |ix| => PathChangePoint(ix[i], points[ix[i]], ix[i] in manual))
  }

  /** The points not recorded are where they were at the press, the recorded ones have their snapshot. */
  ghost predicate Faithful(g: Dragging, points: Points, manual: set<int>, ix: seq<int>) {
    && IndicesOf(ix, |points|) && |g.curve.points| == |points| && g.curve.lastState == points
    && g.drag.moved == IndexSet(ix) && g.drag.before == Snapshot(points, manual, ix)
    && forall j | 0 <= j < |points| && j !in ix :: g.curve.points[j] == points[j]
  }

  lemma {:induction false} CaptureFaithful(g: Dragging, points: Points, manual: set<int>, ix: seq<int>, lo: int, hi: int)
    requires Faithful(g, points, manual, ix)
    ensures Faithful(g.(drag := CaptureAll(g.curve.points, manual, g.drag, lo, hi)), points, manual,
                     Extend(ix, |points|, lo, hi))
    decreases hi - lo
  {
    if lo < hi {
      CaptureFaithful(g, points, manual, ix, lo, hi - 1);
      CaptureOne(g.(drag := CaptureAll(g.curve.points, manual, g.drag, lo, hi - 1)), points, manual,
                 Extend(ix, |points|, lo, hi - 1), hi - 1);
    }
  }

  lemma CaptureOne(g: Dragging, points: Points, manual: set<int>, ix: seq<int>, j: int)
    requires Faithful(g, points, manual, ix)
    ensures Faithful(g.(drag := Capture(g.curve.points, manual, g.drag, j)), points, manual,
                     if 0 <= j < |points| && j !in ix then ix + [j] else ix)
  {
    if 0 <= j < |points| && j !in ix {
      assert Snapshot(points, manual, ix + [j]) == Snapshot(points, manual, ix) + [PathChangePoint(j, points[j], j in manual)];
      assert IndexSet(ix + [j]) == IndexSet(ix) + {j};
    }
  }

  /** Moving disturbs no point outside the open range: at the range itself the weight is zero. */
  lemma DragFaithful(g: Dragging, points: Points, manual: set<int>, ix: seq<int>, m: Move, impact: Impact)
    requires Faithful(g, points, manual, ix) && m.range >= 1
    requires forall j | 0 <= j < |points| && Distance(g.drag.index, j) < m.range :: j in ix
    ensures var p := Dragged(g.curve, g.drag.index, Minus(m.pos, g.drag.grabbed), m.range, impact);
            Faithful(g.(curve := g.curve.(points := p)), points, manual, ix)
  {
    var d := Minus(m.pos, g.drag.grabbed);
    var p := Dragged(g.curve, g.drag.index, d, m.range, impact);
    WeightEnds(impact, m.range);
    forall j | 0 <= j < |points| && j !in ix ensures p[j] == points[j] {
      if Distance(j, g.drag.index) == m.range {
        assert Shift(points[j], d, 0.0) == points[j];
      }
    }
  }

  /** At any time of a drag, with any impact ranges, every point that is not recorded is where it was
      at the press, and the snapshot holds exactly the press-time state of the recorded points. */
  lemma {:induction false} DragSnapshot(points: Points, manual: set<int>, e: Edit, k: nat, impact: Impact)
    requires EditFits(|points|, e) && k <= |e.moves|
    ensures Faithful(After(points, manual, e, k, impact), points, manual, Recorded(|points|, e, k))
  {
    hide Faithful, Dragged, CaptureAll;
    if k == 0 {
      PressFaithful(points, manual, e.index);
    } else {
      DragSnapshot(points, manual, e, k - 1, impact);
      var g, m, ix := After(points, manual, e, k - 1, impact), e.moves[k - 1], Recorded(|points|, e, k - 1);
      var lo, hi := e.index - m.range + 1, e.index + m.range;
      CaptureFaithful(g, points, manual, ix, lo, hi);
      RecordedIs(|points|, e, k);
      DragFaithful(g.(drag := CaptureAll(g.curve.points, manual, g.drag, lo, hi)), points, manual,
                   Recorded(|points|, e, k), m, impact);
    }
  }

  lemma PressFaithful(points: Points, manual: set<int>, index: int)
    requires 0 <= index < |points|
    ensures Faithful(Pressed(points, index), points, manual, [])
  {
    assert IndexSet([]) == {};
  }

  /** The grabbed point is under the mouse after every move. */
  lemma {:induction false} GrabbedPointFollows(points: Points, manual: set<int>, e: Edit, k: nat, impact: Impact)
    requires EditFits(|points|, e) && 0 < k <= |e.moves|
    ensures After(points, manual, e, k, impact).curve.points[e.index] == e.moves[k - 1].pos
  {
    hide CaptureAll;
    DragSnapshot(points, manual, e, k - 1, impact);
    GrabbedKept(points, manual, e, k - 1, impact);
    WeightEnds(impact, e.moves[k - 1].range);
    var pos, p := e.moves[k - 1].pos, points[e.index];
    assert Shift(p, Minus(pos, p), 1.0) == pos;
  }

  lemma {:induction false} GrabbedKept(points: Points, manual: set<int>, e: Edit, k: nat, impact: Impact)
    requires EditFits(|points|, e) && k <= |e.moves|
    ensures After(points, manual, e, k, impact).drag.grabbed == points[e.index]
  {
    hide CaptureAll, Dragged;
    if k > 0 {
      GrabbedKept(points, manual, e, k - 1, impact);
    }
  }

  // ----- the undo command of a drag -----

  /** What the edited slice holds: the curve and the points buffered as manually changed. */
  datatype Doc = Doc(points: Points, manual: set<int>)

  datatype Command = Command(before: seq<PathChangePoint>, after: seq<PathChangePoint>)

  function Update(points: Points, changes: seq<PathChangePoint>): (r: Points)
    ensures |r| == |points|
  {
    if changes == [] then points
    else
      var r, c := Update(points, changes[..|changes| - 1]), changes[|changes| - 1];
      if 0 <= c.pointIndex < |r| then r[c.pointIndex := c.position] else r
  }

  /** The moved points below n in ascending order, all marked as manually changed. */
  function Collect(points: Points, moved: set<int>, n: nat): seq<PathChangePoint>
    requires n <= |points|
  {
    if n == 0 then []
    else Collect(points, moved, n - 1) + if n - 1 in moved then [PathChangePoint(n - 1, points[n - 1], true)] else []
  }

  /** The entries of the first n whose point was moved. */
  function Retain(before: seq<PathChangePoint>, moved: set<int>, n: nat): seq<PathChangePoint>
    requires n <= |before|
  {
    if n == 0 then []
    else Retain(before, moved, n - 1) + if before[n - 1].pointIndex in moved then [before[n - 1]] else []
  }

  function Released(doc: Doc, e: Edit, impact: Impact): Dragging
    requires EditFits(|doc.points|, e)
  {
    After(doc.points, doc.manual, e, |e.moves|, impact)
  }

  function Edited(doc: Doc, e: Edit, impact: Impact): (r: Doc)
    requires EditFits(|doc.points|, e)
    ensures |r.points| == |doc.points|
  {
    var g := Released(doc, e, impact);
    Doc(g.curve.points, doc.manual + g.drag.moved)
  }

  function CommandOf(doc: Doc, e: Edit, impact: Impact): Command
    requires EditFits(|doc.points|, e)
  {
    var g := Released(doc, e, impact);
    Command(Retain(g.drag.before, g.drag.moved, |g.drag.before|), Collect(g.curve.points, g.drag.moved, |doc.points|))
  }

  /** The points that became manually changed, comparing the two lists entry by entry. */
  function NewlyManual(cmd: Command): set<int>
    requires |cmd.after| <= |cmd.before|
  {
    set i | 0 <= i < |cmd.after| && cmd.after[i].manuallyChanged && !cmd.before[i].manuallyChanged :: cmd.after[i].pointIndex
  }

  function Undone(doc: Doc, cmd: Command): Doc
    requires |cmd.after| <= |cmd.before|
  {
    Doc(Update(doc.points, cmd.before), doc.manual - NewlyManual(cmd))
  }

  function Redone(doc: Doc, cmd: Command): Doc
    requires |cmd.after| <= |cmd.before|
  {
    Doc(Update(doc.points, cmd.after), doc.manual + NewlyManual(cmd))
  }

  /** The numbers from a up to b. */
  function Numbers(a: int, b: int): (r: seq<int>)
    ensures |r| == Max(0, b - a) && forall i | 0 <= i < |r| :: r[i] == a + i
  {
    seq(Max(0, b - a), i => a + i)
  }

  function Low(n: nat, e: Edit): int {
    Max(0, e.index - WidestRange(e, |e.moves|) + 1)
  }

  function High(n: nat, e: Edit): int {
    Min(n, e.index + WidestRange(e, |e.moves|))
  }

  lemma {:induction false} WidestIsPositive(n: nat, e: Edit, k: nat)
    requires EditFits(n, e) && 0 < k <= |e.moves|
    ensures WidestRange(e, k) >= e.moves[0].range >= 1
  {
    if k > 1 {
      WidestIsPositive(n, e, k - 1);
    }
  }

  lemma {:induction false} SizeOfIndexSet(ix: seq<int>)
    requires NoDuplicates(ix)
    ensures |IndexSet(ix)| == |ix|
  {
    if ix == [] {
      assert IndexSet(ix) == {};
    } else {
      var rest, last := ix[..|ix| - 1], ix[|ix| - 1];
      SizeOfIndexSet(rest);
      assert IndexSet(ix) == IndexSet(rest) + {last};
    }
  }

  lemma {:induction false} CollectIs(points: Points, moved: set<int>, a: int, b: int, n: nat)
    requires 0 <= a <= b <= |points| && n <= |points| && forall j :: j in moved <==> a <= j < b
    ensures Collect(points, moved, n) == seq(Max(0, Min(n, b) - a), i requires 0 <= i < Max(0, Min(n, b) - a) =>
              PathChangePoint(a + i, points[a + i], true))
  {
    if n > 0 {
      CollectIs(points, moved, a, b, n - 1);
    }
  }

  lemma {:induction false} RetainAll(before: seq<PathChangePoint>, moved: set<int>, n: nat)
    requires n <= |before| && forall i | 0 <= i < |before| :: before[i].pointIndex in moved
    ensures Retain(before, moved, n) == before[..n]
  {
    if n > 0 {
      RetainAll(before, moved, n - 1);
    }
  }

  /** The command of a drag: the snapshot as it was recorded, and the moved points in ascending order. */
  lemma CommandIs(doc: Doc, e: Edit, impact: Impact)
    requires EditFits(|doc.points|, e)
    ensures var n, g, cmd := |doc.points|, Released(doc, e, impact), CommandOf(doc, e, impact);
            var ix, a, b := Recorded(n, e, |e.moves|), Low(n, e), High(n, e);
            && IndicesOf(ix, n) && |ix| == b - a && 0 <= a <= e.index < b <= n
            && (forall j :: j in ix <==> a <= j < b) && g.drag.moved == IndexSet(ix)
            && cmd.before == Snapshot(doc.points, doc.manual, ix)
            && |cmd.after| == b - a
            && (forall i | 0 <= i < b - a :: cmd.after[i] == PathChangePoint(a + i, g.curve.points[a + i], true))
            && (forall j | 0 <= j < n && j !in ix :: g.curve.points[j] == doc.points[j])
  {
    hide After, Retain, Collect, WidestRange, Recorded;
    var n, g := |doc.points|, Released(doc, e, impact);
    var ix, a, b := Recorded(n, e, |e.moves|), Low(n, e), High(n, e);
    DragSnapshot(doc.points, doc.manual, e, |e.moves|, impact);
    RecordedIs(n, e, |e.moves|);
    WidestIsPositive(n, e, |e.moves|);
    SizeOfIndexSet(ix);
    SizeOfIndexSet(Numbers(a, b));
    assert forall j :: j in Numbers(a, b) <==> a <= j < b by {
      forall j | a <= j < b ensures j in Numbers(a, b) {
        assert Numbers(a, b)[j - a] == j;
      }
    }
    assert IndexSet(ix) == IndexSet(Numbers(a, b));
    RetainAll(g.drag.before, g.drag.moved, |g.drag.before|);
    CollectIs(g.curve.points, g.drag.moved, a, b, n);
  }

  /** Updating with positions taken from src makes the listed points those of src. */
  lemma {:induction false} UpdateFrom(points: Points, src: Points, changes: seq<PathChangePoint>, ix: seq<int>)
    requires |src| == |points| && |ix| == |changes|
    requires forall i | 0 <= i < |ix| :: ix[i] == changes[i].pointIndex && 0 <= ix[i] < |src| && changes[i].position == src[ix[i]]
    ensures forall j | 0 <= j < |points| :: Update(points, changes)[j] == if j in ix then src[j] else points[j]
  {
    if changes != [] {
      var m := |changes| - 1;
      UpdateFrom(points, src, changes[..m], ix[..m]);
      assert ix == ix[..m] + [ix[m]];
    }
  }

  /** Undoing a drag restores the curve, whatever impact ranges the drag used. */
  lemma UndoRestoresCurve(doc: Doc, e: Edit, impact: Impact)
    requires EditFits(|doc.points|, e)
    ensures |CommandOf(doc, e, impact).after| == |CommandOf(doc, e, impact).before|
    ensures Update(Edited(doc, e, impact).points, CommandOf(doc, e, impact).before) == doc.points
  {
    hide Released, CommandOf, Update, Recorded, Low, High;
    CommandIs(doc, e, impact);
    UpdateFrom(Edited(doc, e, impact).points, doc.points, CommandOf(doc, e, impact).before, Recorded(|doc.points|, e, |e.moves|));
  }

  /** Redoing it on the curve from before, or on the curve from after, gives the dragged curve. */
  lemma RedoRepeatsCurve(doc: Doc, e: Edit, impact: Impact)
    requires EditFits(|doc.points|, e)
    ensures Update(doc.points, CommandOf(doc, e, impact).after) == Edited(doc, e, impact).points
    ensures Update(Edited(doc, e, impact).points, CommandOf(doc, e, impact).after) == Edited(doc, e, impact).points
  {
    hide Released, CommandOf, Update, Recorded, Low, High;
    CommandIs(doc, e, impact);
    var p, after, n := Edited(doc, e, impact).points, CommandOf(doc, e, impact).after, |doc.points|;
    var nx := Numbers(Low(n, e), High(n, e));
    forall j | Low(n, e) <= j < High(n, e) ensures j in nx {
      assert nx[j - Low(n, e)] == j;
    }
    UpdateFrom(doc.points, p, after, nx);
    UpdateFrom(p, p, after, nx);
  }

  // ----- the manual marks -----

  lemma NewlyManualIs(doc: Doc, e: Edit, impact: Impact)
    requires EditFits(|doc.points|, e)
    ensures var n, cmd := |doc.points|, CommandOf(doc, e, impact);
            var ix, a := Recorded(n, e, |e.moves|), Low(n, e);
            && |cmd.after| == |cmd.before| == |ix| == High(n, e) - a
            && forall j :: j in NewlyManual(cmd) <==> a <= j < High(n, e) && ix[j - a] !in doc.manual
  {
    hide Released, CommandOf, Recorded, Low, High;
    CommandIs(doc, e, impact);
    var n, cmd := |doc.points|, CommandOf(doc, e, impact);
    var ix, a := Recorded(n, e, |e.moves|), Low(n, e);
    forall j | a <= j < High(n, e) && ix[j - a] !in doc.manual ensures j in NewlyManual(cmd) {
      assert cmd.after[j - a].pointIndex == j && !cmd.before[j - a].manuallyChanged;
    }
  }

  /** The redo that happens when a command is pushed changes nothing. */
  lemma PushChangesNothing(doc: Doc, e: Edit, impact: Impact)
    requires EditFits(|doc.points|, e)
    ensures |CommandOf(doc, e, impact).after| == |CommandOf(doc, e, impact).before|
    ensures Redone(Edited(doc, e, impact), CommandOf(doc, e, impact)) == Edited(doc, e, impact)
  {
    hide Released, CommandOf, Update, Recorded, Low, High, NewlyManual;
    RedoRepeatsCurve(doc, e, impact);
    CommandIs(doc, e, impact);
    NewlyManualIs(doc, e, impact);
    var moved := Released(doc, e, impact).drag.moved;
    forall j | j in NewlyManual(CommandOf(doc, e, impact)) ensures j in moved {
      assert j in Recorded(|doc.points|, e, |e.moves|);
    }
    assert Edited(doc, e, impact).manual + NewlyManual(CommandOf(doc, e, impact)) == doc.manual + moved;
  }

  /** The recorded order is ascending: the first range reaches the start of the curve or is the widest. */
  predicate OrderKept(e: Edit)
    requires e.moves != []
  {
    e.index < e.moves[0].range || forall k | 0 <= k < |e.moves| :: e.moves[k].range <= e.moves[0].range
  }

  lemma {:induction false} ExtendNumbers(a: int, b: int, n: nat, lo: int, hi: int)
    requires 0 <= a <= b <= n && a <= Max(0, lo) && lo <= b
    ensures Extend(Numbers(a, b), n, lo, hi) == Numbers(a, Max(b, Min(n, hi)))
    decreases hi - lo
  {
    if lo < hi {
      ExtendNumbers(a, b, n, lo, hi - 1);
      var m := Max(b, Min(n, hi - 1));
      if 0 <= hi - 1 < n && a <= hi - 1 < m {
        assert Numbers(a, m)[hi - 1 - a] == hi - 1;
      }
    }
  }

  lemma {:induction false} RecordedInOrder(n: nat, e: Edit, k: nat)
    requires EditFits(n, e) && OrderKept(e) && 0 < k <= |e.moves|
    ensures Recorded(n, e, k) == Numbers(Max(0, e.index - e.moves[0].range + 1), Min(n, e.index + WidestRange(e, k)))
  {
    hide Extend, Numbers;
    var a, r := Max(0, e.index - e.moves[0].range + 1), e.moves[k - 1].range;
    if k == 1 {
      assert Numbers(a, a) == [];
      ExtendNumbers(a, a, n, e.index - r + 1, e.index + r);
    } else {
      RecordedInOrder(n, e, k - 1);
      WidestIsPositive(n, e, k - 1);
      ExtendNumbers(a, Min(n, e.index + WidestRange(e, k - 1)), n, e.index - r + 1, e.index + r);
    }
  }

  lemma {:induction false} FirstRecorded(n: nat, e: Edit, k: nat)
    requires EditFits(n, e) && 0 < k <= |e.moves|
    ensures Recorded(n, e, k) != [] && Recorded(n, e, k)[0] == Max(0, e.index - e.moves[0].range + 1)
  {
    var r := e.moves[k - 1].range;
    if k == 1 {
      var a := Max(0, e.index - r + 1);
      assert Numbers(a, a) == [];
      ExtendNumbers(a, a, n, e.index - r + 1, e.index + r);
    } else {
      FirstRecorded(n, e, k - 1);
      RecordedIs(n, e, k - 1);
      ExtendHolds(Recorded(n, e, k - 1), n, e.index - r + 1, e.index + r);
    }
  }

  lemma {:induction false} WidestWhenKept(e: Edit, k: nat)
    requires 0 < k <= |e.moves| && forall i | 0 <= i < |e.moves| :: e.moves[i].range <= e.moves[0].range
    requires e.moves[0].range >= 1
    ensures WidestRange(e, k) == e.moves[0].range
  {
    if k > 1 {
      WidestWhenKept(e, k - 1);
    }
  }

  lemma {:induction false} WidestAtLeast(e: Edit, i: nat, k: nat)
    requires i < k <= |e.moves|
    ensures WidestRange(e, k) >= e.moves[i].range
  {
    if i < k - 1 {
      WidestAtLeast(e, i, k - 1);
    }
  }

  /** With the order kept, undoing and redoing a drag also restore the manual marks. */
  lemma UndoRestoresManual(doc: Doc, e: Edit, impact: Impact)
    requires EditFits(|doc.points|, e) && OrderKept(e)
    ensures |CommandOf(doc, e, impact).after| == |CommandOf(doc, e, impact).before|
    ensures Undone(Edited(doc, e, impact), CommandOf(doc, e, impact)) == doc
    ensures Redone(doc, CommandOf(doc, e, impact)) == Edited(doc, e, impact)
  {
    hide Released, CommandOf, Update, Recorded, NewlyManual, WidestRange;
    var n, g := |doc.points|, Released(doc, e, impact);
    UndoRestoresCurve(doc, e, impact);
    RedoRepeatsCurve(doc, e, impact);
    CommandIs(doc, e, impact);
    NewlyManualIs(doc, e, impact);
    RecordedInOrder(n, e, |e.moves|);
    if e.index < e.moves[0].range {
      WidestIsPositive(n, e, |e.moves|);
    } else {
      WidestWhenKept(e, |e.moves|);
    }
    var ix, a := Recorded(n, e, |e.moves|), Low(n, e);
    assert ix == Numbers(a, High(n, e));
    assert forall j :: j in NewlyManual(CommandOf(doc, e, impact)) <==> j in g.drag.moved && j !in doc.manual;
  }

  /** Undo restores the manual marks, whatever they were, exactly when the order was kept: an impact range
      that grows to the left during the drag lets undo compare the wrong entries. */
  lemma ManualUndoIff(points: Points, e: Edit, impact: Impact)
    requires EditFits(|points|, e)
    ensures forall m :: |CommandOf(Doc(points, m), e, impact).after| == |CommandOf(Doc(points, m), e, impact).before|
    ensures (forall m :: Undone(Edited(Doc(points, m), e, impact), CommandOf(Doc(points, m), e, impact)).manual == m)
            <==> OrderKept(e)
  {
    hide CommandOf, Edited, Update, Undone, OrderKept;
    forall m ensures |CommandOf(Doc(points, m), e, impact).after| == |CommandOf(Doc(points, m), e, impact).before| {
      UndoRestoresCurve(Doc(points, m), e, impact);
    }
    if OrderKept(e) {
      forall m ensures Undone(Edited(Doc(points, m), e, impact), CommandOf(Doc(points, m), e, impact)).manual == m {
        UndoRestoresManual(Doc(points, m), e, impact);
      }
    } else {
      var m := {e.index - e.moves[0].range + 1};
      UndoLosesManual(Doc(points, m), e, impact);
    }
  }

  /** A drag whose range grows to the left, with one point marked before: undo leaves another mark behind. */
  lemma UndoLosesManual(doc: Doc, e: Edit, impact: Impact)
    requires EditFits(|doc.points|, e) && !OrderKept(e)
    requires doc.manual == {e.index - e.moves[0].range + 1}
    ensures |CommandOf(doc, e, impact).after| == |CommandOf(doc, e, impact).before|
    ensures Undone(Edited(doc, e, impact), CommandOf(doc, e, impact)).manual != doc.manual
  {
    hide Released, CommandOf, Update, Recorded, NewlyManual, WidestRange;
    var n := |doc.points|;
    var k :| 0 <= k < |e.moves| && e.moves[k].range > e.moves[0].range;
    WidestAtLeast(e, k, |e.moves|);
    CommandIs(doc, e, impact);
    NewlyManualIs(doc, e, impact);
    FirstRecorded(n, e, |e.moves|);
    var a := Low(n, e);
    assert Recorded(n, e, |e.moves|)[a - a] in doc.manual && a !in doc.manual;
    assert a in Edited(doc, e, impact).manual && a !in NewlyManual(CommandOf(doc, e, impact));
  }

  // ----- the undo stack -----

  /** Show changes the slice that is shown: to another one than the tool slice, or back. */
  datatype Op = DragCurve(edit: Edit) | Undo | Redo | Show(away: bool)

  /** The document of the tool slice with its command stack, of which the first done commands are applied, the points
      the next run starts from, and whether another slice is shown. */
  datatype Editor = Editor(doc: Doc, commands: seq<Command>, done: nat, start: Points, away: bool)

  predicate Sane(ed: Editor) {
    ed.done <= |ed.commands| && forall k | 0 <= k < |ed.commands| :: |ed.commands[k].after| <= |ed.commands[k].before|
  }

  /** On another slice, which has no changed curve, undo and redo only change the marks. */
  function UndoneAway(doc: Doc, cmd: Command): Doc
    requires |cmd.after| <= |cmd.before|
  {
    doc.(manual := doc.manual - NewlyManual(cmd))
  }

  function RedoneAway(doc: Doc, cmd: Command): Doc
    requires |cmd.after| <= |cmd.before|
  {
    doc.(manual := doc.manual + NewlyManual(cmd))
  }

  /** A drag makes its curve the starting path, then the push drops the undone commands and redoes the new one; undo
      and redo move along the stack and leave the starting path alone. Other slices cannot be dragged. */
  function Act(ed: Editor, op: Op, impact: Impact): (r: Editor)
    requires Sane(ed) && (op.DragCurve? ==> EditFits(|ed.doc.points|, op.edit))
    ensures Sane(r) && |r.doc.points| == |ed.doc.points|
  {
    match op
    case DragCurve(e) =>
      if ed.away then ed
      else
        PushChangesNothing(ed.doc, e, impact);
        var cmd, edited := CommandOf(ed.doc, e, impact), Edited(ed.doc, e, impact);
        Editor(Redone(edited, cmd), ed.commands[..ed.done] + [cmd], ed.done + 1, edited.points, false)
    case Undo =>
      if ed.done == 0 then ed
      else
        var cmd := ed.commands[ed.done - 1];
        ed.(doc := if ed.away then UndoneAway(ed.doc, cmd) else Undone(ed.doc, cmd), done := ed.done - 1)
    case Redo =>
      if ed.done == |ed.commands| then ed
      else
        var cmd := ed.commands[ed.done];
        ed.(doc := if ed.away then RedoneAway(ed.doc, cmd) else Redone(ed.doc, cmd), done := ed.done + 1)
    case Show(away) => ed.(away := away)
  }

  predicate OpsFit(n: nat, ops: seq<Op>) {
    forall k | 0 <= k < |ops| :: ops[k].DragCurve? ==> EditFits(n, ops[k].edit)
  }

  function Run(doc: Doc, ops: seq<Op>, n: nat, impact: Impact): (r: Editor)
    requires OpsFit(|doc.points|, ops) && n <= |ops|
    ensures Sane(r) && |r.doc.points| == |doc.points|
  {
    if n == 0 then Editor(doc, [], 0, doc.points, false) else Act(Run(doc, ops, n - 1, impact), ops[n - 1], impact)
  }

  // ----- the history of the operations -----

  /** The edits on the stack, how many of them are applied, after how many of them each point is shown, and whether
      another slice is shown: by the operations alone. */
  datatype History = History(edits: seq<Edit>, done: nat, shown: seq<nat>, away: bool)

  predicate Tidy(h: History, n: nat) {
    && AllFit(n, h.edits) && h.done <= |h.edits| && |h.shown| == n
    && forall j | 0 <= j < n :: h.shown[j] <= |h.edits|
  }

  predicate AllFit(n: nat, edits: seq<Edit>) {
    forall k | 0 <= k < |edits| :: EditFits(n, edits[k])
  }

  /** Does a drag touch point j? It does when j is nearer to the grabbed point than its widest range. */
  predicate Touches(e: Edit, j: int) {
    Distance(e.index, j) < WidestRange(e, |e.moves|)
  }

  /** The points the edit touches are shown after k edits now. */
  function Passed(shown: seq<nat>, e: Edit, k: nat): seq<nat> {
    seq(|shown|, j requires 0 <= j < |shown| => if Touches(e, j) then k else shown[j])
  }

  function HistoryOf(n: nat, ops: seq<Op>, k: nat): (h: History)
    requires OpsFit(n, ops) && k <= |ops|
    ensures Tidy(h, n)
  {
    if k == 0 then History([], 0, seq(n, j => 0), false) else NextHistory(n, HistoryOf(n, ops, k - 1), ops[k - 1])
  }

  function NextHistory(n: nat, h: History, op: Op): (h': History)
    requires Tidy(h, n) && (op.DragCurve? ==> EditFits(n, op.edit))
    ensures Tidy(h', n)
  {
    match op
    case DragCurve(e) => if h.away then h else History(h.edits[..h.done] + [e], h.done + 1, seq(n, j => h.done + 1), false)
    case Undo =>
      if h.done == 0 then h
      else h.(done := h.done - 1, shown := if h.away then h.shown else Passed(h.shown, h.edits[h.done - 1], h.done - 1))
    case Redo =>
      if h.done == |h.edits| then h
      else h.(done := h.done + 1, shown := if h.away then h.shown else Passed(h.shown, h.edits[h.done], h.done + 1))
    case Show(away) => h.(away := away)
  }

  /** The document after the first k edits, and nothing else. */
  function Replay(doc: Doc, edits: seq<Edit>, k: nat, impact: Impact): (r: Doc)
    requires AllFit(|doc.points|, edits) && k <= |edits|
    ensures |r.points| == |doc.points|
  {
    if k == 0 then doc else Edited(Replay(doc, edits, k - 1, impact), edits[k - 1], impact)
  }

  /** Every point is shown where the applied edits put it. */
  predicate Replayed(doc: Doc, h: History, impact: Impact)
    requires Tidy(h, |doc.points|)
  {
    forall j | 0 <= j < |doc.points| ::
      Replay(doc, h.edits, h.shown[j], impact).points[j] == Replay(doc, h.edits, h.done, impact).points[j]
  }

  /** Among the first n operations, curves are dragged only while they are the replay of the applied edits. */
  predicate Steady(doc: Doc, ops: seq<Op>, n: nat, impact: Impact)
    requires OpsFit(|doc.points|, ops) && n <= |ops|
  {
    forall k | 0 <= k < n && ops[k].DragCurve? ::
      HistoryOf(|doc.points|, ops, k).away || Replayed(doc, HistoryOf(|doc.points|, ops, k), impact)
  }

  predicate OrdersKept(ops: seq<Op>, n: nat)
    requires n <= |ops|
  {
    forall k | 0 <= k < n && ops[k].DragCurve? :: ops[k].edit.moves != [] && OrderKept(ops[k].edit)
  }

  lemma {:induction false} ReplayOfPrefix(doc: Doc, edits: seq<Edit>, edits': seq<Edit>, k: nat, impact: Impact)
    requires AllFit(|doc.points|, edits) && AllFit(|doc.points|, edits')
    requires k <= |edits| && k <= |edits'| && edits[..k] == edits'[..k]
    ensures Replay(doc, edits, k, impact) == Replay(doc, edits', k, impact)
  {
    if k > 0 {
      assert edits[..k - 1] == edits[..k][..k - 1] && edits'[..k - 1] == edits'[..k][..k - 1];
      assert edits[k - 1] == edits[..k][k - 1] && edits'[k - 1] == edits'[..k][k - 1];
      ReplayOfPrefix(doc, edits, edits', k - 1, impact);
    }
  }

  /** A drag moves the points the same way whatever is marked as manually changed. */
  lemma {:induction false} PointsIgnoreManual(points: Points, manual: set<int>, manual': set<int>, e: Edit, k: nat, impact: Impact)
    requires EditFits(|points|, e) && k <= |e.moves|
    ensures After(points, manual, e, k, impact).curve == After(points, manual', e, k, impact).curve
    ensures After(points, manual, e, k, impact).drag.grabbed == After(points, manual', e, k, impact).drag.grabbed
  {
    hide Dragged, CaptureAll;
    if k > 0 {
      PointsIgnoreManual(points, manual, manual', e, k - 1, impact);
    }
  }

  lemma EditIgnoresManual(doc: Doc, doc': Doc, e: Edit, impact: Impact)
    requires EditFits(|doc.points|, e) && doc.points == doc'.points
    ensures Edited(doc, e, impact).points == Edited(doc', e, impact).points
  {
    PointsIgnoreManual(doc.points, doc.manual, doc'.manual, e, |e.moves|, impact);
  }

  // ----- what a command does to any curve -----

  /** Updating a curve with the changes puts the points the edit touches where src has them and leaves the others. */
  ghost predicate Overlays(changes: seq<PathChangePoint>, e: Edit, src: Points) {
    forall p: Points, j | |p| == |src| && 0 <= j < |p| :: Update(p, changes)[j] == if Touches(e, j) then src[j] else p[j]
  }

  /** The command of a drag puts the touched points of any curve back, or where the drag has moved them; a point the
      drag does not touch stays. */
  lemma CommandOverlays(doc: Doc, e: Edit, impact: Impact)
    requires EditFits(|doc.points|, e)
    ensures |CommandOf(doc, e, impact).after| == |CommandOf(doc, e, impact).before|
    ensures Overlays(CommandOf(doc, e, impact).before, e, doc.points)
    ensures Overlays(CommandOf(doc, e, impact).after, e, Edited(doc, e, impact).points)
    ensures forall j | 0 <= j < |doc.points| && !Touches(e, j) :: Edited(doc, e, impact).points[j] == doc.points[j]
  {
    hide Released, CommandOf, Update, Recorded, Low, High, WidestRange;
    var n, cmd, q := |doc.points|, CommandOf(doc, e, impact), Edited(doc, e, impact).points;
    CommandIs(doc, e, impact);
    RecordedIs(n, e, |e.moves|);
    var ix, nx := Recorded(n, e, |e.moves|), Numbers(Low(n, e), High(n, e));
    forall j | Low(n, e) <= j < High(n, e) ensures j in nx {
      assert nx[j - Low(n, e)] == j;
    }
    forall p: Points, j | |p| == n && 0 <= j < n
      ensures Update(p, cmd.before)[j] == if Touches(e, j) then doc.points[j] else p[j]
      ensures Update(p, cmd.after)[j] == if Touches(e, j) then q[j] else p[j]
    {
      UpdateFrom(p, doc.points, cmd.before, ix);
      UpdateFrom(p, q, cmd.after, nx);
    }
  }

  /** A command leads between the documents before and after its edit: on any curve it moves the touched points, and
      if the order was kept, it changes the marks. */
  ghost predicate Links(cmd: Command, e: Edit, doc: Doc, doc': Doc, kept: bool) {
    && |cmd.after| <= |cmd.before|
    && Overlays(cmd.before, e, doc.points) && Overlays(cmd.after, e, doc'.points)
    && (kept ==> doc'.manual - NewlyManual(cmd) == doc.manual && doc.manual + NewlyManual(cmd) == doc'.manual)
  }

  /** Pushing the command of a drag on a document with the replayed curve. */
  lemma PushLinks(doc: Doc, replayed: Doc, e: Edit, kept: bool, impact: Impact)
    requires EditFits(|replayed.points|, e) && doc.points == replayed.points
    requires kept ==> doc == replayed && OrderKept(e)
    ensures Links(CommandOf(doc, e, impact), e, replayed, Edited(replayed, e, impact), kept)
    ensures Redone(Edited(doc, e, impact), CommandOf(doc, e, impact)).points == Edited(replayed, e, impact).points
    ensures kept ==> Redone(Edited(doc, e, impact), CommandOf(doc, e, impact)) == Edited(replayed, e, impact)
  {
    hide CommandOf, Update, NewlyManual, OrderKept, After, Overlays;
    CommandOverlays(doc, e, impact);
    PushChangesNothing(doc, e, impact);
    EditIgnoresManual(doc, replayed, e, impact);
    if kept {
      UndoRestoresManual(doc, e, impact);
    }
  }

  // ----- histories -----

  /** The points of the curve, each shown after its number of edits. */
  predicate ShownAs(points: Points, doc: Doc, h: History, impact: Impact)
    requires Tidy(h, |doc.points|)
  {
    && |points| == |doc.points|
    && forall j | 0 <= j < |points| :: points[j] == Replay(doc, h.edits, h.shown[j], impact).points[j]
  }

  /** The stack holds the commands of the edits, each leading from one replayed document to the next; the marks follow
      the applied edits, and every point is where the edits it is shown after put it. */
  ghost predicate Tracks(ed: Editor, doc: Doc, h: History, kept: bool, impact: Impact) {
    && Sane(ed) && Tidy(h, |doc.points|)
    && |ed.commands| == |h.edits| && ed.done == h.done && ed.away == h.away
    && ShownAs(ed.doc.points, doc, h, impact)
    && (kept ==> ed.doc.manual == Replay(doc, h.edits, h.done, impact).manual)
    && ed.start == Replay(doc, h.edits, |h.edits|, impact).points
    && forall k | 0 <= k < |h.edits| ::
         Links(ed.commands[k], h.edits[k], Replay(doc, h.edits, k, impact), Replay(doc, h.edits, k + 1, impact), kept)
  }

  lemma ActTracks(ed: Editor, doc: Doc, h: History, op: Op, kept: bool, impact: Impact)
    requires Tracks(ed, doc, h, kept, impact) && |ed.doc.points| == |doc.points|
    requires op.DragCurve? ==> EditFits(|doc.points|, op.edit) && (kept ==> OrderKept(op.edit))
    requires op.DragCurve? && !h.away ==> Replayed(doc, h, impact)
    ensures Tracks(Act(ed, op, impact), doc, NextHistory(|doc.points|, h, op), kept, impact)
  {
    match op
    case DragCurve(e) =>
      hide CommandOf, NewlyManual, OrderKept, Edited, EditFits, Replay, Links, ShownAs;
      if !h.away {
        PushTracks(ed, doc, h, e, kept, impact);
      }
    case Undo =>
      hide *;
      UndoTracks(ed, doc, h, kept, impact);
    case Redo =>
      hide *;
      RedoTracks(ed, doc, h, kept, impact);
    case Show(away) =>
      hide Replay, Links, EditFits;
  }

  lemma UndoTracks(ed: Editor, doc: Doc, h: History, kept: bool, impact: Impact)
    requires Tracks(ed, doc, h, kept, impact) && |ed.doc.points| == |doc.points|
    ensures Tracks(Act(ed, Undo, impact), doc, NextHistory(|doc.points|, h, Undo), kept, impact)
  {
    hide Update, NewlyManual, EditFits, Replay, Overlays, Touches;
    if ed.done > 0 {
      assert Links(ed.commands[h.done - 1], h.edits[h.done - 1], Replay(doc, h.edits, h.done - 1, impact),
                   Replay(doc, h.edits, h.done - 1 + 1, impact), kept);
      OverlayShown(ed.doc.points, doc, h, ed.commands[h.done - 1].before, h.edits[h.done - 1], h.done - 1, impact);
    }
  }

  lemma RedoTracks(ed: Editor, doc: Doc, h: History, kept: bool, impact: Impact)
    requires Tracks(ed, doc, h, kept, impact) && |ed.doc.points| == |doc.points|
    ensures Tracks(Act(ed, Redo, impact), doc, NextHistory(|doc.points|, h, Redo), kept, impact)
  {
    hide Update, NewlyManual, EditFits, Replay, Overlays, Touches;
    if ed.done < |ed.commands| {
      assert Links(ed.commands[h.done], h.edits[h.done], Replay(doc, h.edits, h.done, impact),
                   Replay(doc, h.edits, h.done + 1, impact), kept);
      OverlayShown(ed.doc.points, doc, h, ed.commands[h.done].after, h.edits[h.done], h.done + 1, impact);
    }
  }

  lemma OverlayShown(points: Points, doc: Doc, h: History, changes: seq<PathChangePoint>, e: Edit, k: nat, impact: Impact)
    requires Tidy(h, |doc.points|) && ShownAs(points, doc, h, impact) && k <= |h.edits|
    requires Overlays(changes, e, Replay(doc, h.edits, k, impact).points)
    ensures ShownAs(Update(points, changes), doc, h.(shown := Passed(h.shown, e, k)), impact)
  {
    hide Update, Replay, Touches, Overlays, EditFits;
    var q, shown := Update(points, changes), Passed(h.shown, e, k);
    forall j | 0 <= j < |points| ensures q[j] == Replay(doc, h.edits, shown[j], impact).points[j] {
      OverlayAt(changes, e, Replay(doc, h.edits, k, impact).points, points, j);
    }
  }

  lemma OverlayAt(changes: seq<PathChangePoint>, e: Edit, src: Points, p: Points, j: nat)
    requires Overlays(changes, e, src) && |p| == |src| && j < |p|
    ensures Update(p, changes)[j] == if Touches(e, j) then src[j] else p[j]
  {
    hide Update, Touches;
    assert Update(p, changes)[j] == Update(p, changes)[j];
  }

  lemma PushTracks(ed: Editor, doc: Doc, h: History, e: Edit, kept: bool, impact: Impact)
    requires Tracks(ed, doc, h, kept, impact) && !h.away && Replayed(doc, h, impact)
    requires EditFits(|doc.points|, e) && (kept ==> OrderKept(e))
    ensures Tracks(Act(ed, DragCurve(e), impact), doc, NextHistory(|doc.points|, h, DragCurve(e)), kept, impact)
  {
    hide CommandOf, Links, OrderKept, Edited, EditFits, Redone;
    var h' := NextHistory(|doc.points|, h, DragCurve(e));
    assert ed.doc.points == Replay(doc, h.edits, h.done, impact).points;
    PushLinks(ed.doc, Replay(doc, h.edits, h.done, impact), e, kept, impact);
    EditIgnoresManual(ed.doc, Replay(doc, h.edits, h.done, impact), e, impact);
    forall k | 0 <= k <= h.done ensures Replay(doc, h'.edits, k, impact) == Replay(doc, h.edits, k, impact) {
      assert h'.edits[..k] == h.edits[..k];
      ReplayOfPrefix(doc, h'.edits, h.edits, k, impact);
    }
  }

  lemma {:induction false} RunTracks(doc: Doc, ops: seq<Op>, n: nat, kept: bool, impact: Impact)
    requires OpsFit(|doc.points|, ops) && n <= |ops| && Steady(doc, ops, n, impact)
    requires kept ==> OrdersKept(ops, n)
    ensures Tracks(Run(doc, ops, n, impact), doc, HistoryOf(|doc.points|, ops, n), kept, impact)
  {
    hide Act, OrderKept, EditFits, Replayed, NextHistory;
    if n > 0 {
      hide Tracks, Tidy;
      RunTracks(doc, ops, n - 1, kept, impact);
      ActTracks(Run(doc, ops, n - 1, impact), doc, HistoryOf(|doc.points|, ops, n - 1), ops[n - 1], kept, impact);
    }
  }

  /** After any drags, undos and redos, on the tool slice or with another slice shown, as long as curves are dragged
      only while they are the replay: every point is where replaying the edits it is shown after puts it; the curve is
      the replay of the applied edits exactly if that is where these put it; and the marks are the replayed ones, if
      every drag kept its recording order. */
  lemma UndoRedoIsReplay(doc: Doc, ops: seq<Op>, n: nat, impact: Impact)
    requires OpsFit(|doc.points|, ops) && n <= |ops| && Steady(doc, ops, n, impact)
    ensures var h, ed := HistoryOf(|doc.points|, ops, n), Run(doc, ops, n, impact);
            && ShownAs(ed.doc.points, doc, h, impact)
            && (ed.doc.points == Replay(doc, h.edits, h.done, impact).points <==> Replayed(doc, h, impact))
            && (OrdersKept(ops, n) ==> ed.doc.manual == Replay(doc, h.edits, h.done, impact).manual)
  {
    hide Run, HistoryOf, OrdersKept, Links, Replay, Steady;
    RunTracks(doc, ops, n, false, impact);
    if OrdersKept(ops, n) {
      RunTracks(doc, ops, n, true, impact);
    }
  }

  /** No edit between those point j is shown after and the applied ones touches it. */
  predicate InStep(h: History, n: nat)
    requires Tidy(h, n)
  {
    forall j, k | 0 <= j < n && Min(h.shown[j], h.done) <= k < Max(h.shown[j], h.done) :: !Touches(h.edits[k], j)
  }

  lemma StaysInStep(n: nat, h: History, op: Op)
    requires Tidy(h, n) && InStep(h, n) && (op.DragCurve? ==> EditFits(n, op.edit))
    requires h.away ==> !op.Undo? && !op.Redo?
    ensures InStep(NextHistory(n, h, op), n)
  {
    hide EditFits, Touches;
  }

  lemma {:induction false} UntouchedSame(doc: Doc, edits: seq<Edit>, a: nat, b: nat, j: nat, impact: Impact)
    requires AllFit(|doc.points|, edits) && a <= b <= |edits| && j < |doc.points|
    requires forall k | a <= k < b :: !Touches(edits[k], j)
    ensures Replay(doc, edits, a, impact).points[j] == Replay(doc, edits, b, impact).points[j]
  {
    hide Edited, Touches, Overlays;
    if a < b {
      UntouchedSame(doc, edits, a, b - 1, j, impact);
      CommandOverlays(Replay(doc, edits, b - 1, impact), edits[b - 1], impact);
    }
  }

  lemma InStepIsReplayed(doc: Doc, h: History, impact: Impact)
    requires Tidy(h, |doc.points|) && InStep(h, |doc.points|)
    ensures Replayed(doc, h, impact)
  {
    hide Replay, Touches, EditFits;
    forall j | 0 <= j < |doc.points|
      ensures Replay(doc, h.edits, h.shown[j], impact).points[j] == Replay(doc, h.edits, h.done, impact).points[j]
    {
      UntouchedSame(doc, h.edits, Min(h.shown[j], h.done), Max(h.shown[j], h.done), j, impact);
    }
  }

  /** Nothing is undone or redone while another slice is shown. */
  predicate AtTool(n: nat, ops: seq<Op>, m: nat)
    requires OpsFit(n, ops) && m <= |ops|
  {
    forall k | 0 <= k < m && HistoryOf(n, ops, k).away :: !ops[k].Undo? && !ops[k].Redo?
  }

  lemma {:induction false} AtToolInStep(doc: Doc, ops: seq<Op>, m: nat, impact: Impact)
    requires OpsFit(|doc.points|, ops) && m <= |ops| && AtTool(|doc.points|, ops, m)
    ensures InStep(HistoryOf(|doc.points|, ops, m), |doc.points|)
    ensures Steady(doc, ops, m, impact)
  {
    hide InStep, Replayed, NextHistory, Tidy, EditFits;
    if m == 0 {
      StartsInStep(|doc.points|, ops);
    } else {
      AtToolInStep(doc, ops, m - 1, impact);
      StaysInStep(|doc.points|, HistoryOf(|doc.points|, ops, m - 1), ops[m - 1]);
      InStepIsReplayed(doc, HistoryOf(|doc.points|, ops, m - 1), impact);
    }
  }

  lemma StartsInStep(n: nat, ops: seq<Op>)
    requires OpsFit(n, ops)
    ensures InStep(HistoryOf(n, ops, 0), n)
  {}

  /** If nothing is undone or redone while another slice is shown, the curve is always what replaying the applied edits
      gives; and so are the marks if every drag kept its recording order. */
  lemma AtToolIsReplay(doc: Doc, ops: seq<Op>, n: nat, impact: Impact)
    requires OpsFit(|doc.points|, ops) && n <= |ops| && AtTool(|doc.points|, ops, n)
    ensures var h, ed := HistoryOf(|doc.points|, ops, n), Run(doc, ops, n, impact);
            && Steady(doc, ops, n, impact)
            && ed.doc.points == Replay(doc, h.edits, h.done, impact).points
            && (OrdersKept(ops, n) ==> ed.doc == Replay(doc, h.edits, h.done, impact))
  {
    hide Run, HistoryOf, OrdersKept, Replay, Steady, AtTool, InStep, Replayed, ShownAs;
    AtToolInStep(doc, ops, n, impact);
    InStepIsReplayed(doc, HistoryOf(|doc.points|, ops, n), impact);
    UndoRedoIsReplay(doc, ops, n, impact);
  }

  /** A drag that ends off the place it grabbed, undone while another slice is shown: its curve stays although no edit
      is applied, and the next undo has nothing to undo. */
  lemma UndoAwayKeepsCurve(doc: Doc, e: Edit, impact: Impact)
    requires EditFits(|doc.points|, e) && e.moves[|e.moves| - 1].pos != doc.points[e.index]
    ensures var ed := Run(doc, [DragCurve(e), Show(true), Undo], 3, impact);
            ed.done == 0 && ed.doc.points == Edited(doc, e, impact).points != doc.points
  {
    var ops := [DragCurve(e), Show(true), Undo];
    hide Edited, EditFits, CommandOf, NewlyManual, Update;
    PushChangesNothing(doc, e, impact);
    GrabbedPointMoves(doc, e, impact);
    var ed0 := Run(doc, ops, 0, impact);
    var ed1 := Run(doc, ops, 1, impact);
    assert ed1 == Act(ed0, ops[0], impact);
    var ed2 := Run(doc, ops, 2, impact);
    assert ed2 == Act(ed1, ops[1], impact);
    assert Run(doc, ops, 3, impact) == Act(ed2, ops[2], impact);
  }

  lemma GrabbedPointMoves(doc: Doc, e: Edit, impact: Impact)
    requires EditFits(|doc.points|, e) && e.moves[|e.moves| - 1].pos != doc.points[e.index]
    ensures Edited(doc, e, impact).points != doc.points
  {
    GrabbedPointFollows(doc.points, doc.manual, e, |e.moves|, impact);
  }

  // ----- the starting path -----

  /** The last of the first k moves of an edit whose range reaches point j, or -1. */
  function LastReach(e: Edit, j: int, k: nat): (m: int)
    requires k <= |e.moves|
    ensures -1 <= m < k && (m != -1 ==> Distance(j, e.index) <= e.moves[m].range)
  {
    if k == 0 then -1 else if Distance(j, e.index) <= e.moves[k - 1].range then k - 1 else LastReach(e, j, k - 1)
  }

  /** Where a drag has moved point j: as far as the last move that reached it says. */
  function Placed(points: Points, e: Edit, j: nat, k: nat, impact: Impact): Vec2
    requires EditFits(|points|, e) && j < |points| && k <= |e.moves|
  {
    var m := LastReach(e, j, k);
    if m == -1 then points[j]
    else Shift(points[j], Minus(e.moves[m].pos, points[e.index]), Weight(impact, Distance(j, e.index), e.moves[m].range))
  }

  /** Every point is where the last move that reached it has put it, relative to the press. */
  lemma {:induction false} PlacedByLastReach(points: Points, manual: set<int>, e: Edit, k: nat, impact: Impact)
    requires EditFits(|points|, e) && k <= |e.moves|
    ensures forall j | 0 <= j < |points| :: After(points, manual, e, k, impact).curve.points[j] == Placed(points, e, j, k, impact)
  {
    hide CaptureAll, Weight, Shift;
    if k > 0 {
      PlacedByLastReach(points, manual, e, k - 1, impact);
      DragSnapshot(points, manual, e, k - 1, impact);
      GrabbedKept(points, manual, e, k - 1, impact);
    }
  }

  /** A point that no move of a drag reaches stays. */
  lemma UnreachedStays(points: Points, manual: set<int>, e: Edit, k: nat, impact: Impact, j: nat)
    requires EditFits(|points|, e) && k <= |e.moves| && j < |points|
    requires forall i | 0 <= i < k :: e.moves[i].range < Distance(j, e.index)
    ensures After(points, manual, e, k, impact).curve.points[j] == points[j]
  {
    hide After, Weight, Shift, LastReach;
    PlacedByLastReach(points, manual, e, k, impact);
    LastReachIs(e, j, k, -1);
  }

  /** Where a drag puts a point: if move m, on which the mouse is d away from the grabbed point, is the last one whose
      range reaches it, then at the share q of that range it has followed by the impact of q. */
  lemma DragFollows(points: Points, manual: set<int>, e: Edit, k: nat, impact: Impact, j: nat, m: nat, d: Vec2, q: real)
    requires EditFits(|points|, e) && m < k <= |e.moves| && j < |points|
    requires d == Vec2(e.moves[m].pos.x - points[e.index].x, e.moves[m].pos.y - points[e.index].y)
    requires Distance(j, e.index) <= e.moves[m].range && q * e.moves[m].range as real == Distance(j, e.index) as real
    requires forall i | m < i < k :: e.moves[i].range < Distance(j, e.index)
    ensures After(points, manual, e, k, impact).curve.points[j]
         == Vec2(points[j].x + d.x * impact(q), points[j].y + d.y * impact(q))
  {
    hide After, Weight, Shift, LastReach;
    PlacedByLastReach(points, manual, e, k, impact);
    LastReachIs(e, j, k, m);
    assert Placed(points, e, j, k, impact) == Shift(points[j], d, Weight(impact, Distance(j, e.index), e.moves[m].range));
    ShiftAt(points[j], d, impact, Distance(j, e.index), e.moves[m].range, q);
  }

  lemma {:induction false} LastReachIs(e: Edit, j: int, k: nat, m: int)
    requires -1 <= m < k <= |e.moves| || (k == 0 && m == -1)
    requires m != -1 ==> Distance(j, e.index) <= e.moves[m].range
    requires forall i | m < i < k :: e.moves[i].range < Distance(j, e.index)
    ensures LastReach(e, j, k) == m
  {
    if k > 0 && m != k - 1 {
      LastReachIs(e, j, k - 1, m);
    }
  }

  /** Point j ends where it began: no move reached it, or the last one that did gave it no weight or came back. */
  predicate EndsWhereItBegan(points: Points, e: Edit, j: nat, impact: Impact)
    requires EditFits(|points|, e) && j < |points|
  {
    var m := LastReach(e, j, |e.moves|);
    m != -1 ==> e.moves[m].pos == points[e.index] || Weight(impact, Distance(j, e.index), e.moves[m].range) == 0.0
  }

  lemma ShiftFixesIff(p: Vec2, pos: Vec2, from: Vec2, w: real)
    ensures Shift(p, Minus(pos, from), w) == p <==> pos == from || w == 0.0
  {
    var d := Minus(pos, from);
    ProductIsZero(d.x, w);
    ProductIsZero(d.y, w);
  }

  lemma ProductIsZero(a: real, b: real)
    ensures a * b == 0.0 <==> a == 0.0 || b == 0.0
  {
    if a * b == 0.0 && b != 0.0 {
      assert a * b / b == a;
    }
  }

  /** A drag leaves the curve as it was exactly when every point ends where it began. */
  lemma EditMovesNothingIff(doc: Doc, e: Edit, impact: Impact)
    requires EditFits(|doc.points|, e)
    ensures Edited(doc, e, impact).points == doc.points
            <==> forall j | 0 <= j < |doc.points| :: EndsWhereItBegan(doc.points, e, j, impact)
  {
    hide After, Weight, Shift, Minus;
    PlacedByLastReach(doc.points, doc.manual, e, |e.moves|, impact);
    var p := Edited(doc, e, impact).points;
    forall j | 0 <= j < |doc.points| ensures p[j] == doc.points[j] <==> EndsWhereItBegan(doc.points, e, j, impact) {
      var m := LastReach(e, j, |e.moves|);
      if m != -1 {
        ShiftFixesIff(doc.points[j], e.moves[m].pos, doc.points[e.index], Weight(impact, Distance(j, e.index), e.moves[m].range));
      }
    }
  }

  /** The starting path is the curve after all edits on the stack, undone ones included. While the curve shown is the
      replay of the applied edits, it is the starting path exactly when replaying the undone edits ends on the same
      curve: always if none is undone; and if one is, exactly when that drag moved nothing. */
  lemma StartIsLastDrag(doc: Doc, ops: seq<Op>, n: nat, impact: Impact)
    requires OpsFit(|doc.points|, ops) && n <= |ops| && Steady(doc, ops, n, impact)
    ensures var h, ed := HistoryOf(|doc.points|, ops, n), Run(doc, ops, n, impact);
            && ed.start == Replay(doc, h.edits, |h.edits|, impact).points
            && (Replayed(doc, h, impact) ==>
                  && (ed.start == ed.doc.points
                      <==> Replay(doc, h.edits, |h.edits|, impact).points == Replay(doc, h.edits, h.done, impact).points)
                  && (h.done == |h.edits| ==> ed.start == ed.doc.points)
                  && (h.done + 1 == |h.edits| ==>
                        var e := h.edits[h.done];
                        EditFits(|ed.doc.points|, e)
                        && (ed.start == ed.doc.points
                            <==> forall j | 0 <= j < |ed.doc.points| :: EndsWhereItBegan(ed.doc.points, e, j, impact))))
  {
    hide EndsWhereItBegan, Run, HistoryOf, Replay, Steady, Replayed, ShownAs, OrdersKept, EditFits;
    StartIsReplay(doc, ops, n, impact);
    UndoRedoIsReplay(doc, ops, n, impact);
    var h, ed := HistoryOf(|doc.points|, ops, n), Run(doc, ops, n, impact);
    if Replayed(doc, h, impact) && h.done + 1 == |h.edits| {
      LastUndone(ed.doc, doc, h.edits, h.done, impact);
    }
  }

  lemma StartIsReplay(doc: Doc, ops: seq<Op>, n: nat, impact: Impact)
    requires OpsFit(|doc.points|, ops) && n <= |ops| && Steady(doc, ops, n, impact)
    ensures var h := HistoryOf(|doc.points|, ops, n);
            Run(doc, ops, n, impact).start == Replay(doc, h.edits, |h.edits|, impact).points
  {
    hide Run, HistoryOf, Replay, Steady, Replayed, ShownAs, OrdersKept, EditFits, Links;
    RunTracks(doc, ops, n, false, impact);
  }

  lemma LastUndone(now: Doc, doc: Doc, edits: seq<Edit>, k: nat, impact: Impact)
    requires AllFit(|doc.points|, edits) && k + 1 == |edits| && now.points == Replay(doc, edits, k, impact).points
    ensures EditFits(|now.points|, edits[k])
    ensures now.points == Replay(doc, edits, k + 1, impact).points
            <==> forall j | 0 <= j < |now.points| :: EndsWhereItBegan(now.points, edits[k], j, impact)
  {
    hide EndsWhereItBegan, Edited, EditFits;
    assert EditFits(|doc.points|, edits[k]);
    EditIgnoresManual(now, Replay(doc, edits, k, impact), edits[k], impact);
    EditMovesNothingIff(now, edits[k], impact);
  }

  /** A drag that ends off the place it grabbed, undone: the next run starts from the undone curve. */
  lemma UndoKeepsStart(doc: Doc, e: Edit, impact: Impact)
    requires EditFits(|doc.points|, e) && e.moves[|e.moves| - 1].pos != doc.points[e.index]
    ensures var ed := Run(doc, [DragCurve(e), Undo], 2, impact);
            ed.doc.points == doc.points && ed.start == Edited(doc, e, impact).points != ed.doc.points
  {
    var ops := [DragCurve(e), Undo];
    hide Edited, EditFits, CommandOf, NewlyManual, Update;
    PushChangesNothing(doc, e, impact);
    RedoRepeatsCurve(doc, e, impact);
    UndoRestoresCurve(doc, e, impact);
    GrabbedPointMoves(doc, e, impact);
    var ed0 := Run(doc, ops, 0, impact);
    var ed1 := Run(doc, ops, 1, impact);
    assert ed1 == Act(ed0, ops[0], impact);
    assert Run(doc, ops, 2, impact) == Act(ed1, ops[1], impact);
  }
}
