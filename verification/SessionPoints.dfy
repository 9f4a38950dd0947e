/** What a session with the segmentation tool does to anchors and to the points of their
    slices: the bits stay, and when the points stay is stated exactly. */
module SessionPoints {
  import opened Geometry
  import opened Segmentation
  import opened AnchorCache
  import opened SegmentationRuns
  import opened SegmentationSession

  // ----- what happens to the points of a slice -----

  /** The changed curve a segment starts with. */
  function ChangedFor(actives: seq<Active>, id: string): PointSet {
    if actives == [] then OrderedPointSet(0, [])
    else if actives[0].segId == id then actives[0].changed
    else ChangedFor(actives[1..], id)
  }

  /** The points of slice t once a changed curve on the tool slice is merged. */
  function ChangedRow(s: Seg, toolStart: int, changed: PointSet, t: int): Row
    requires InCloud(s, t)
  {
    if t == toolStart && changed.rows != [] then changed.rows[0] else MasterRow(s, t)
  }

  /** The points of slice t after an event: those of a changed curve, of a result, or its own. */
  ghost function RowAfter(w: Win, e: Event, id: string, t: int): Row
    requires CanHappen(w, e) && id in w.segs && InCloud(w.segs[id], t)
  {
    var s := w.segs[id];
    match e
    case Start(c, actives) => ChangedRow(s, c.toolStart, ChangedFor(actives, id), t)
    case Keep(toolStart, kept, _) => if id in kept then ChangedRow(s, toolStart, kept[id], t) else MasterRow(s, t)
    case Finished(ps) => if w.queue[0].segId == id then DeliveredRow(s, FirstSlice(ps), ps, t) else MasterRow(s, t)
    case _ => MasterRow(s, t)
  }

  /** Slice t is still in the cloud, with these points. */
  predicate HasRow(s: Seg, t: int, row: Row) {
    InCloud(s, t) && MasterRow(s, t) == row
  }

  lemma SameMasterSameRow(s: Seg, s': Seg, t: int)
    requires InCloud(s, t) && s'.master == s.master
    ensures HasRow(s', t, MasterRow(s, t))
  {}

  lemma StartedRow(s: Seg, a: Active, c: Choice, t: int)
    requires Sound(s) && InCloud(s, c.toolStart) && ChangedFits(s, c.toolStart, a.changed) && InCloud(s, t)
    ensures HasRow(Started(s, a, c).0, t, ChangedRow(s, c.toolStart, a.changed, t))
  {
    hide Good, Prepare, LookUpHigher, LookUpLower, ChangedFits;
    PrepareMeaning(s, c.toolStart, a.changed);
    var s0 := Prepare(s, c.toolStart, a.changed);
    LookUpFrame(s0, c.toolStart, c.numSlices);
    var s1 := AfterPlanning(s0, false, BackwardMode(c), c.toolStart, c.numSlices);
    LookUpFrame(s1, c.toolStart, c.numSlices);
    SameMasterSameRow(s0, Started(s, a, c).0, t);
  }

  lemma LookUpFrame(s: Seg, t: int, n: int)
    ensures LookUpLower(s, t).master == s.master && LookUpHigher(s, t, n).master == s.master
  {}

  lemma ActiveIsSound(w: Win, a: Active, c: Choice)
    requires Starting(w) && ActiveFits(w, a, c)
    ensures Sound(w.segs[a.segId])
  {
    StartingIsSound(w, a.segId, c.toolStart);
  }

  lemma {:induction false} StartAllRow(w: Win, c: Choice, actives: seq<Active>, id: string, t: int)
    requires Starting(w) && w.toolStart == c.toolStart && 0 <= c.toolStart
    requires forall a | a in actives :: a.segId in w.segs && ActiveFits(w, a, c)
    requires Distinct(actives) && NotQueued(w, actives)
    requires ModeFits(c.backward, false, c) && ModeFits(c.forward, true, c)
    requires id in w.segs && InCloud(w.segs[id], t)
    ensures id in StartAll(w, c, actives).segs
    ensures HasRow(StartAll(w, c, actives).segs[id], t, ChangedRow(w.segs[id], c.toolStart, ChangedFor(actives, id), t))
    decreases |actives|
  {
    hide Safe, Started, NotQueued, Sound, ChangedFits, HasRow, InCloud, ModeFits, Starting;
    if actives == [] {
      RowSelf(w.segs[id], t);
    } else {
      var a := actives[0];
      assert ActiveFits(w, a, c);
      StartOne(w, c, actives);
      ActiveIsSound(w, a, c);
      var (s, requests) := Started(w.segs[a.segId], a, c);
      var w1 := w.(segs := w.segs[a.segId := s], queue := w.queue + requests);
      if id == a.segId {
        StartedRow(w.segs[id], a, c, t);
        RowIsInCloud(s, t, ChangedRow(w.segs[id], c.toolStart, a.changed, t));
        NotAgain(actives, c);
      }
      StartAllRow(w1, c, actives[1..], id, t);
    }
  }

  lemma RowSelf(s: Seg, t: int)
    requires InCloud(s, t)
    ensures HasRow(s, t, MasterRow(s, t))
  {}

  lemma RowIsInCloud(s: Seg, t: int, row: Row)
    requires HasRow(s, t, row)
    ensures InCloud(s, t) && MasterRow(s, t) == row
  {}

  lemma StartingIsSound(w: Win, id: string, t: int)
    requires Starting(w) && id in w.segs && InCloud(w.segs[id], t)
    ensures Sound(w.segs[id])
  {
    FineWithSlice(w.segs[id], t);
  }

  /** A segment that has started takes part no second time. */
  lemma NotAgain(actives: seq<Active>, c: Choice)
    requires actives != [] && Distinct(actives)
    ensures ChangedFor(actives[1..], actives[0].segId).rows == []
  {
    ChangedForNone(actives[1..], actives[0].segId);
  }

  lemma {:induction false} ChangedForNone(actives: seq<Active>, id: string)
    requires forall i | 0 <= i < |actives| :: actives[i].segId != id
    ensures ChangedFor(actives, id).rows == []
  {
    if actives != [] {
      assert actives[0].segId != id;
      ChangedForNone(actives[1..], id);
    }
  }

  lemma CleanUpFrame(s: Seg)
    ensures CleanUp(s).master == s.master
  {}

  /** Cleaning up, or not, leaves the points where they are. */
  lemma SettledRow(w: Win, id: string, t: int, row: Row)
    requires id in w.segs && HasRow(w.segs[id], t, row)
    ensures id in Settled(w).segs && HasRow(Settled(w).segs[id], t, row)
  {
    hide CleanUp;
    CleanUpFrame(w.segs[id]);
  }

  lemma KeepChangesRow(s: Seg, toolStart: int, changed: PointSet, t: int)
    requires Sound(s) && InCloud(s, toolStart) && ChangedFits(s, toolStart, changed) && InCloud(s, t)
    ensures HasRow(KeepChanges(s, toolStart, changed), t, ChangedRow(s, toolStart, changed, t))
  {
    hide Good, IsAnchor, Merge, SetAnchor, SetManualPoints, SetUsedInRun, ChangedFits;
    var s1 := SetAnchor(s, toolStart, true);
    SetAnchorGood(s, toolStart, true);
    SetAnchorFrame(s, toolStart, true);
    var s2 := SetManualPoints(s1, toolStart);
    SetManualPointsGood(s1, toolStart);
    SetManualPointsFrame(s1, toolStart);
    var s3 := SetUsedInRun(s2, toolStart, false);
    SetUsedInRunGood(s2, toolStart, false);
    SetUsedInRunFrame(s2, toolStart, false);
    ChangedElsewhere(s, s3, toolStart, changed);
    ChangedPoints(s3, toolStart, changed);
  }

  lemma FinishRow(s: Seg, r: Request, toolStart: int, ps: PointSet, t: int)
    requires Good(s) && Safe(s, r, toolStart) && Delivers(s, r, toolStart, ps) && InCloud(s, t)
    ensures HasRow(Finish(s, r, toolStart, ps), t, DeliveredRow(s, FirstSlice(ps), ps, t))
  {
    hide Good, Safe, Delivers, Finish, FinishedPoints, DeliveredRow;
    FinishMeaning(s, r, toolStart, ps);
    FinishKeepsAnchors(s, r, toolStart, ps);
  }

  /** What an event makes of the points of any slice of the cloud. */
  lemma NextRow(w: Win, e: Event, id: string, t: int)
    requires Inv(w) && CanHappen(w, e) && id in w.segs && InCloud(w.segs[id], t)
    ensures id in Next(w, e).segs && HasRow(Next(w, e).segs[id], t, RowAfter(w, e, id, t))
  {
    hide Sound, Safe, Delivers, Finish, DeliveredRow, FirstSlice, SetAnchor, CleanUp, InCloud, KeepChanges, HasRow, Settled,
         ChangedFits;
    FineWithSlice(w.segs[id], t);
    RowSelf(w.segs[id], t);
    match e
    case Toggle(segId, u, on) =>
      SetAnchorFrame(LookedUp(w.segs[segId], u), u, on);
      SameMasterSameRow(w.segs[id], Next(w, e).segs[id], t);
    case Buffer(segId, points) =>
      SameMasterSameRow(w.segs[id], Next(w, e).segs[id], t);
    case Unbuffer(segId, points) =>
      SameMasterSameRow(w.segs[id], Next(w, e).segs[id], t);
    case Start(c, actives) =>
      StartRow(w, c, actives, id, t);
    case Keep(toolStart, kept, leave) =>
      var w' := KeepAll(w, toolStart, kept);
      if id in kept {
        assert KeepFits(w, id, toolStart, kept[id]);
        KeepChangesRow(w.segs[id], toolStart, kept[id], t);
      }
      if leave {
        SettledRow(w', id, t, RowAfter(w, e, id, t));
      }
    case Finished(ps) =>
      var r := w.queue[0];
      var w' := w.(segs := w.segs[r.segId := Finish(w.segs[r.segId], r, w.toolStart, ps)]);
      if id == r.segId {
        assert Safe(w.segs[id], r, w.toolStart);
        SoundIsGood(w.segs[id]);
        FinishRow(w.segs[id], r, w.toolStart, ps, t);
      }
      SettledRow(w'.(queue := w'.queue[1..]), id, t, RowAfter(w, e, id, t));
    case Failed =>
      SettledRow(w.(queue := w.queue[1..]), id, t, RowAfter(w, e, id, t));
  }

  lemma SoundIsGood(s: Seg)
    requires Sound(s)
    ensures Good(s)
  {}

  lemma StartRow(w: Win, c: Choice, actives: seq<Active>, id: string, t: int)
    requires Inv(w) && CanHappen(w, Start(c, actives)) && id in w.segs && InCloud(w.segs[id], t)
    ensures id in StartedWin(w, c, actives).segs
    ensures HasRow(StartedWin(w, c, actives).segs[id], t, ChangedRow(w.segs[id], c.toolStart, ChangedFor(actives, id), t))
  {
    hide Sound, Safe, ActiveFits, ModeFits, InCloud, HasRow, Settled, StartAll;
    var w0 := w.(toolStart := c.toolStart);
    forall a | a in actives ensures a.segId in w0.segs && ActiveFits(w0, a, c) {
      ActiveElsewhere(w, w0, a, c);
    }
    StartAllRow(w0, c, actives, id, t);
    SettledRow(StartAll(w0, c, actives), id, t, ChangedRow(w.segs[id], c.toolStart, ChangedFor(actives, id), t));
  }

  /** The event leaves the points of anchor t as they are: if t is the tool slice, a changed curve that is merged
      is the row of the cloud, and so is the chain a result brings back. */
  ghost predicate SparesPoints(w: Win, e: Event, id: string, t: int)
    requires CanHappen(w, e) && id in w.segs && InCloud(w.segs[id], t)
  {
    var s := w.segs[id];
    match e
    case Start(c, actives) => ChangedRow(s, c.toolStart, ChangedFor(actives, id), t) == MasterRow(s, t)
    case Keep(toolStart, kept, _) => id in kept ==> ChangedRow(s, toolStart, kept[id], t) == MasterRow(s, t)
    case Finished(ps) =>
      w.queue[0].segId == id && t == w.toolStart && Covers(ps, t) ==> w.queue[0].chain == MasterRow(s, t)
    case _ => true
  }

  /** An event leaves the points of an anchor as they are exactly if it spares them: only a changed curve on the
      tool slice, or a chain handed back that differs from the cloud, takes them away. */
  lemma PointsKeptIff(w: Win, e: Event, id: string, t: int)
    requires Inv(w) && CanHappen(w, e) && id in w.segs && IsAnchor(w.segs[id], t)
    ensures id in Next(w, e).segs
    ensures var s, s' := w.segs[id], Next(w, e).segs[id];
            && InCloud(s, t) && InCloud(s', t)
            && (MasterRow(s', t) == MasterRow(s, t) <==> SparesPoints(w, e, id, t))
  {
    hide Sound, Safe, Finish, Next, IsAnchor, Delivers;
    AnchorInCloud(w.segs[id], t);
    NextRow(w, e, id, t);
    if e.Finished? && w.queue[0].segId == id {
      var r := w.queue[0];
      assert Safe(w.segs[id], r, w.toolStart);
      FineAnchored(w.segs[id], t);
      SoundIsGood(w.segs[id]);
      FinishKeepsIff(w.segs[id], r, w.toolStart, e.ps, t);
      FinishRow(w.segs[id], r, w.toolStart, e.ps, t);
    }
  }

  /** Every event of the session spares the points of slice t. */
  ghost predicate AllSpare(w: Win, events: seq<Event>, id: string, t: int)
    requires Session(w, events)
    decreases |events|
  {
    events != [] ==>
      && id in w.segs && InCloud(w.segs[id], t) && SparesPoints(w, events[0], id, t)
      && AllSpare(Next(w, events[0]), events[1..], id, t)
  }

  /** In every session, with either algorithm, a slice that is an anchor stays one with all of its bits unless it is
      toggled, and keeps its points as long as every event spares them; and the invariant holds throughout. */
  lemma {:induction false} AnchorsAreProtected(w: Win, events: seq<Event>, id: string, t: int)
    requires Inv(w) && Session(w, events)
    ensures Inv(Final(w, events)) && Final(w, events).segs.Keys == w.segs.Keys
    ensures id in w.segs && IsAnchor(w.segs[id], t) && (forall i | 0 <= i < |events| :: LeavesAlone(events[i], id, t))
            ==> && AnchorKept(w.segs[id], Final(w, events).segs[id], t)
                && (AllSpare(w, events, id, t) ==> HasRow(Final(w, events).segs[id], t, MasterRow(w.segs[id], t)))
    decreases |events|
  {
    hide Inv, IsAnchor, AnchorKept, CanHappen, Next, LeavesAlone, InCloud, HasRow, SparesPoints;
    if id in w.segs && IsAnchor(w.segs[id], t) {
      AnchorInCloud(w.segs[id], t);
    }
    if events == [] {
      if id in w.segs && IsAnchor(w.segs[id], t) {
        InvKept(w, id, t);
        RowSelf(w.segs[id], t);
      }
    } else {
      var w1 := Next(w, events[0]);
      NextKeeps(w, events[0], id, t);
      AnchorsAreProtected(w1, events[1..], id, t);
      if id in w.segs && IsAnchor(w.segs[id], t) && (forall i | 0 <= i < |events| :: LeavesAlone(events[i], id, t)) {
        assert LeavesAlone(events[0], id, t);
        AnchorKeptAnchors(w.segs[id], w1.segs[id], t);
        AnchorKeptTrans(w.segs[id], w1.segs[id], Final(w1, events[1..]).segs[id], t);
        PointsKeptIff(w, events[0], id, t);
      }
    }
  }

  // ----- chains that are the row of the cloud -----

  /** Every queued run starts from the row its segment has on the tool slice. */
  ghost predicate ChainsFaithful(w: Win) {
    forall i | 0 <= i < |w.queue| :: w.queue[i].segId in w.segs && HasRow(w.segs[w.queue[i].segId], w.toolStart, w.queue[i].chain)
  }

  /** The chain of a segment taking part is the row its changed curve, or else the cloud, gives the tool slice. */
  ghost predicate ChainFits(w: Win, a: Active, toolStart: int) {
    && a.segId in w.segs && InCloud(w.segs[a.segId], toolStart)
    && a.chain == ChangedRow(w.segs[a.segId], toolStart, a.changed, toolStart)
  }

  ghost predicate ChainsFit(w: Win, e: Event) {
    e.Start? ==> forall a | a in e.actives :: ChainFits(w, a, e.choice.toolStart)
  }

  lemma {:induction false} StartAllFaithful(w: Win, c: Choice, actives: seq<Active>)
    requires Starting(w) && w.toolStart == c.toolStart && 0 <= c.toolStart
    requires forall a | a in actives :: a.segId in w.segs && ActiveFits(w, a, c) && ChainFits(w, a, c.toolStart)
    requires Distinct(actives) && NotQueued(w, actives) && ChainsFaithful(w)
    requires ModeFits(c.backward, false, c) && ModeFits(c.forward, true, c)
    ensures ChainsFaithful(StartAll(w, c, actives))
    decreases |actives|
  {
    hide Safe, Started, NotQueued, Sound, HasRow, InCloud, ModeFits, Starting, ChainFits, ActiveFits;
    if actives != [] {
      var a := actives[0];
      assert ActiveFits(w, a, c) && ChainFits(w, a, c.toolStart);
      StartOne(w, c, actives);
      var (s, requests) := Started(w.segs[a.segId], a, c);
      var w1 := w.(segs := w.segs[a.segId := s], queue := w.queue + requests);
      StartOneFaithful(w, c, actives);
      forall b | b in actives[1..] ensures b.segId in w1.segs && ChainFits(w1, b, c.toolStart) {
        var j :| 0 <= j < |actives[1..]| && actives[1..][j] == b;
        assert actives[j + 1] == b;
        ChainElsewhere(w, w1, b, c.toolStart);
      }
      StartAllFaithful(w1, c, actives[1..]);
    }
  }

  lemma ChainElsewhere(w: Win, w': Win, a: Active, toolStart: int)
    requires ChainFits(w, a, toolStart) && a.segId in w'.segs && w'.segs[a.segId] == w.segs[a.segId]
    ensures ChainFits(w', a, toolStart)
  {}

  lemma StartOneFaithful(w: Win, c: Choice, actives: seq<Active>)
    requires actives != [] && Starting(w) && w.toolStart == c.toolStart && 0 <= c.toolStart
    requires ActiveFits(w, actives[0], c) && ChainFits(w, actives[0], c.toolStart)
    requires NotQueued(w, actives) && ChainsFaithful(w)
    requires ModeFits(c.backward, false, c) && ModeFits(c.forward, true, c)
    ensures var a := actives[0];
            var (s, requests) := Started(w.segs[a.segId], a, c);
            ChainsFaithful(w.(segs := w.segs[a.segId := s], queue := w.queue + requests))
  {
    hide Safe, Started, Sound, HasRow, InCloud, ModeFits, Starting, ChangedFits, ChangedRow;
    var a := actives[0];
    var (s, requests) := Started(w.segs[a.segId], a, c);
    ActiveIsSound(w, a, c);
    StartedRow(w.segs[a.segId], a, c, c.toolStart);
    StartingReady(w, a, c);
    var w1 := w.(segs := w.segs[a.segId := s], queue := w.queue + requests);
    forall i | 0 <= i < |w1.queue|
      ensures w1.queue[i].segId in w1.segs && HasRow(w1.segs[w1.queue[i].segId], w1.toolStart, w1.queue[i].chain)
    {
      if i >= |w.queue| {
        assert w1.queue[i] == requests[i - |w.queue|];
      }
    }
  }

  lemma StartingReady(w: Win, a: Active, c: Choice)
    requires Starting(w) && ActiveFits(w, a, c) && 0 <= c.toolStart
    requires ModeFits(c.backward, false, c) && ModeFits(c.forward, true, c)
    ensures forall r | r in Started(w.segs[a.segId], a, c).1 :: r.segId == a.segId && r.chain == a.chain
  {
    hide Sound, Safe, Started;
    StartedKeeps(w.segs[a.segId], a, c);
  }

  /** When all starts have fitting chains, the queued chains stay the rows of the cloud. */
  lemma NextFaithful(w: Win, e: Event)
    requires Inv(w) && CanHappen(w, e) && ChainsFaithful(w) && ChainsFit(w, e)
    ensures ChainsFaithful(Next(w, e))
  {
    match e
    case Start(c, actives) =>
      StartFaithful(w, c, actives);
    case Finished(ps) =>
      FinishedFaithful(w, ps);
    case Failed =>
      hide Safe, Sound, HasRow, CleanUp;
    case _ =>
      hide Safe, Sound, HasRow, CleanUp, KeepChanges, SetAnchor;
  }

  lemma StartFaithful(w: Win, c: Choice, actives: seq<Active>)
    requires Inv(w) && CanHappen(w, Start(c, actives)) && ChainsFit(w, Start(c, actives))
    ensures ChainsFaithful(StartedWin(w, c, actives))
  {
    hide Sound, Safe, ActiveFits, ModeFits, InCloud, HasRow, StartAll, ChangedRow, CleanUp;
    var w0 := w.(toolStart := c.toolStart);
    forall a | a in actives ensures a.segId in w0.segs && ActiveFits(w0, a, c) && ChainFits(w0, a, c.toolStart) {
      ActiveElsewhere(w, w0, a, c);
      assert ChainFits(w, a, c.toolStart);
      ChainElsewhere(w, w0, a, c.toolStart);
    }
    StartAllFaithful(w0, c, actives);
  }

  lemma FinishedFaithful(w: Win, ps: PointSet)
    requires Inv(w) && CanHappen(w, Finished(ps)) && ChainsFaithful(w)
    ensures ChainsFaithful(Next(w, Finished(ps)))
  {
    hide Sound, Safe, Delivers, Finish, CleanUp, HasRow;
    var r := w.queue[0];
    var s, s' := w.segs[r.segId], Finish(w.segs[r.segId], r, w.toolStart, ps);
    assert Safe(s, r, w.toolStart) && HasRow(s, w.toolStart, r.chain);
    FineWithRun(s, r, w.toolStart);
    FinishSameRow(s, r, w.toolStart, ps);
    var w1 := w.(segs := w.segs[r.segId := s']);
    forall i | 0 <= i < |w1.queue|
      ensures w1.queue[i].segId in w1.segs && HasRow(w1.segs[w1.queue[i].segId], w1.toolStart, w1.queue[i].chain)
    {
      assert HasRow(w.segs[w.queue[i].segId], w.toolStart, w.queue[i].chain);
      if w.queue[i].segId == r.segId {
        OneRow(s, w.toolStart, r.chain, w.queue[i].chain);
      }
    }
  }

  lemma OneRow(s: Seg, t: int, row: Row, row': Row)
    requires HasRow(s, t, row) && HasRow(s, t, row')
    ensures row == row'
  {}

  lemma FinishSameRow(s: Seg, r: Request, toolStart: int, ps: PointSet)
    requires Sound(s) && Safe(s, r, toolStart) && Delivers(s, r, toolStart, ps) && HasRow(s, toolStart, r.chain)
    ensures HasRow(Finish(s, r, toolStart, ps), toolStart, r.chain)
  {
    hide Safe, Delivers, Finish, FirstSlice, Good;
    FinishRow(s, r, toolStart, ps, toolStart);
    if Covers(ps, toolStart) {
      DeliveredChain(s, r, toolStart, ps);
    }
  }

  /** The user's part of sparing the points of slice t: no other curve is merged there. */
  ghost predicate UserSpares(w: Win, e: Event, id: string, t: int)
    requires CanHappen(w, e) && id in w.segs && InCloud(w.segs[id], t)
  {
    !e.Finished? ==> SparesPoints(w, e, id, t)
  }

  /** The session starts every run from the row of the cloud, and the user spares slice t. */
  ghost predicate Careful(w: Win, events: seq<Event>, id: string, t: int)
    requires Session(w, events)
    decreases |events|
  {
    events != [] ==>
      && id in w.segs && InCloud(w.segs[id], t) && UserSpares(w, events[0], id, t) && ChainsFit(w, events[0])
      && Careful(Next(w, events[0]), events[1..], id, t)
  }

  /** In a session whose runs all start from the row of the cloud, an anchor keeps its points and its bits through
      all results, unless the user toggles it or merges another curve on it. */
  lemma {:induction false} FaithfulChainsProtect(w: Win, events: seq<Event>, id: string, t: int)
    requires Inv(w) && ChainsFaithful(w) && Session(w, events) && Careful(w, events, id, t)
    requires id in w.segs && IsAnchor(w.segs[id], t) && forall i | 0 <= i < |events| :: LeavesAlone(events[i], id, t)
    ensures id in Final(w, events).segs && AnchorKept(w.segs[id], Final(w, events).segs[id], t)
    ensures HasRow(Final(w, events).segs[id], t, MasterRow(w.segs[id], t))
  {
    CarefulSpares(w, events, id, t);
    hide *;
    AnchorsAreProtected(w, events, id, t);
  }

  lemma {:induction false} CarefulSpares(w: Win, events: seq<Event>, id: string, t: int)
    requires Inv(w) && ChainsFaithful(w) && Session(w, events) && Careful(w, events, id, t)
    requires id in w.segs
    ensures AllSpare(w, events, id, t)
    decreases |events|
  {
    hide Inv, Next, HasRow, ChainsFit, ChangedRow, CanHappen;
    if events != [] {
      NextFaithful(w, events[0]);
      NextKeeps(w, events[0], id, t);
      if events[0].Finished? {
        FinishedIsQueued(w, events[0].ps);
        assert HasRow(w.segs[w.queue[0].segId], w.toolStart, w.queue[0].chain);
        if id == w.queue[0].segId {
          RowIsInCloud(w.segs[id], w.toolStart, w.queue[0].chain);
        }
      }
      CarefulSpares(Next(w, events[0]), events[1..], id, t);
    }
  }

  lemma FinishedIsQueued(w: Win, ps: PointSet)
    requires CanHappen(w, Finished(ps))
    ensures w.queue != [] && w.queue[0].segId in w.segs
  {}

  // ----- sessions without dragged curves -----

  /** No curve was dragged: there is no changed curve to start from or to keep, and the starting chains are what the
      tool read from the clouds when it was entered. */
  ghost predicate Undragged(w: Win, e: Event)
    requires CanHappen(w, e)
  {
    match e
    case Start(c, actives) =>
      forall a | a in actives ::
        && a.segId in w.segs && InCloud(w.segs[a.segId], c.toolStart)
        && a.changed.rows == [] && a.chain == WithoutDummies(MasterRow(w.segs[a.segId], c.toolStart))
    case Keep(_, kept, _) => forall id | id in kept :: kept[id].rows == []
    case _ => true
  }

  ghost predicate AllUndragged(w: Win, events: seq<Event>)
    requires Session(w, events)
    decreases |events|
  {
    events != [] ==> Undragged(w, events[0]) && AllUndragged(Next(w, events[0]), events[1..])
  }

  lemma {:induction false} NothingChanged(actives: seq<Active>, id: string)
    requires forall i | 0 <= i < |actives| :: actives[i].changed.rows == []
    ensures ChangedFor(actives, id).rows == []
  {
    if actives != [] {
      NothingChanged(actives[1..], id);
    }
  }

  lemma UndraggedFits(w: Win, e: Event)
    requires Inv(w) && CanHappen(w, e) && Undragged(w, e)
    ensures ChainsFit(w, e)
  {
    hide Aligned, Coherent, Safe, WithoutDummies;
    if e.Start? {
      forall a | a in e.actives ensures ChainFits(w, a, e.choice.toolStart) {
        FineWithSlice(w.segs[a.segId], e.choice.toolStart);
        ChainIsRow(w.segs[a.segId], e.choice.toolStart);
      }
    }
  }

  lemma UndraggedSpares(w: Win, e: Event, id: string, t: int)
    requires CanHappen(w, e) && Undragged(w, e) && id in w.segs && InCloud(w.segs[id], t)
    ensures UserSpares(w, e, id, t)
  {
    if e.Start? {
      hide InCloud, ModeFits, ActiveFits;
      forall i | 0 <= i < |e.actives| ensures e.actives[i].changed.rows == [] {
        assert e.actives[i] in e.actives;
      }
      NothingChanged(e.actives, id);
    }
  }

  lemma {:induction false} UndraggedIsCareful(w: Win, events: seq<Event>, id: string, t: int)
    requires Inv(w) && Session(w, events) && AllUndragged(w, events) && id in w.segs && InCloud(w.segs[id], t)
    ensures Careful(w, events, id, t)
    decreases |events|
  {
    hide Inv, InCloud, CanHappen, Undragged, UserSpares, ChainsFit, Next, RowAfter;
    if events != [] {
      UndraggedFits(w, events[0]);
      UndraggedSpares(w, events[0], id, t);
      NextKeeps(w, events[0], id, t);
      NextRow(w, events[0], id, t);
      RowIsInCloud(Next(w, events[0]).segs[id], t, RowAfter(w, events[0], id, t));
      UndraggedIsCareful(Next(w, events[0]), events[1..], id, t);
    }
  }

  /** In a session in which no curve is dragged, no run of either algorithm, completed or not, takes a bit or a point
      from an anchor that is not toggled. */
  lemma UndraggedSessionsProtect(w: Win, events: seq<Event>, id: string, t: int)
    requires Inv(w) && w.queue == [] && Session(w, events) && AllUndragged(w, events)
    requires id in w.segs && IsAnchor(w.segs[id], t) && forall i | 0 <= i < |events| :: LeavesAlone(events[i], id, t)
    ensures id in Final(w, events).segs && AnchorKept(w.segs[id], Final(w, events).segs[id], t)
    ensures HasRow(Final(w, events).segs[id], t, MasterRow(w.segs[id], t))
  {
    hide Inv, Session, AllUndragged, Careful, IsAnchor, Final, AnchorKept, LeavesAlone;
    AnchorInCloud(w.segs[id], t);
    UndraggedIsCareful(w, events, id, t);
    FaithfulChainsProtect(w, events, id, t);
  }

  // ----- sessions that fail -----

  /** The slice the run starts from is an anchor, and the chain is not its row in the cloud: the result of local
      reslice leaves the anchor with the points of the chain. */
  lemma LocalResliceTakesPoints(w: Win, ps: PointSet)
    requires Inv(w) && w.queue != [] && w.queue[0].segId in w.segs
    requires var r, s := w.queue[0], w.segs[w.queue[0].segId];
             && Upward(r, w.toolStart) && IsAnchor(s, w.toolStart) && Incoming(s, ps, w.toolStart)
             && ps.rows[0] == r.chain && w.toolStart + |ps.rows| - 1 <= r.targetIndex
             && r.chain != MasterRow(s, w.toolStart)
    ensures CanHappen(w, Finished(ps)) && w.queue[0].segId in Next(w, Finished(ps)).segs
    ensures var s' := Next(w, Finished(ps)).segs[w.queue[0].segId];
            IsAnchor(s', w.toolStart) && HasRow(s', w.toolStart, w.queue[0].chain)
  {
    hide Safe, Good, Next, Delivers, IsAnchor, Incoming, Inv, CanHappen, RowAfter, Finish, FirstSlice;
    var r := w.queue[0];
    QueueIsSafe(w);
    FineAnchored(w.segs[r.segId], w.toolStart);
    GoodIsAligned(w.segs[r.segId]);
    IncomingStarts(w.segs[r.segId], ps, w.toolStart);
    ChainOverwritesAnchor(w.segs[r.segId], r, w.toolStart, ps);
    DeliveryCanHappen(w, ps);
    NextRow(w, Finished(ps), r.segId, w.toolStart);
    NextKeeps(w, Finished(ps), r.segId, w.toolStart);
    AnchorKeptAnchors(w.segs[r.segId], Next(w, Finished(ps)).segs[r.segId], w.toolStart);
  }

  lemma QueueIsSafe(w: Win)
    requires Inv(w) && w.queue != []
    ensures w.queue[0].segId in w.segs && Safe(w.segs[w.queue[0].segId], w.queue[0], w.toolStart)
    ensures Fine(w.segs[w.queue[0].segId])
  {}

  lemma DeliveryCanHappen(w: Win, ps: PointSet)
    requires w.queue != [] && w.queue[0].segId in w.segs
    requires Delivers(w.segs[w.queue[0].segId], w.queue[0], w.toolStart, ps) && InCloud(w.segs[w.queue[0].segId], w.toolStart)
    ensures CanHappen(w, Finished(ps))
    ensures ps.rows != [] && FirstSlice(ps) == w.toolStart
            ==> RowAfter(w, Finished(ps), w.queue[0].segId, w.toolStart) == ps.rows[0]
  {
    hide Delivers, InCloud, FirstSlice;
  }

  const EXAMPLE := Choice(Lrps, 10, NoRun, ToSlice(12), 1, 20)

  /** The middle point of the curve was dragged; resampling puts it back between the end points. */
  function ExampleActive(): Active {
    Active("", OrderedPointSet(3, [EVEN]), DRAGGED)
  }

  function ExampleWin(): Win {
    Win(map["" := EvenSegment(0)], [], 0)
  }

  lemma EvenIncoming(s: Seg)
    requires s.master.width == 3
    ensures Incoming(s, OrderedPointSet(3, [EVEN]), 10)
  {
    assert SliceRow(EVEN, 3, 10 + 0);
  }

  lemma ExampleStarts()
    ensures Inv(ExampleWin()) && CanHappen(ExampleWin(), Start(EXAMPLE, [ExampleActive()]))
  {
    var w, a := ExampleWin(), ExampleActive();
    EvenSegmentIsGood(0);
    EvenIncoming(EvenSegment(0));
    hide EvenSegment, Good, Incoming, IsAnchor;
    assert ActiveFits(w, a, EXAMPLE);
  }

  /** Planning on a cloud of one slice: nothing lies ahead, so the run goes to the end slice. */
  lemma OneRunIsPlanned(s: Seg, chain: Row)
    requires Good(s) && Base(s) == Top(s) == 10
    ensures Requests(s, "", chain, true, ToSlice(12), 10, 20, 1) == [Request("", 11, 12, chain)]
  {
    hide Aligned, Coherent, NearestHigher;
    NearestHigherIs(s, 10, 20);
    var r := NearestHigher(s.cache, 10, 20);
    if r != -1 {
      AnchorInCloud(s, r);
    }
  }

  lemma ExampleStarted()
    ensures var s, a := EvenSegment(0), ExampleActive();
            var (s', requests) := Started(s, a, EXAMPLE);
            && requests == [Request("", 11, 12, DRAGGED)] && Sound(s') && IsAnchor(s', 10)
            && HasRow(s', 10, EVEN) && s'.master.width == 3
  {
    var s, a := EvenSegment(0), ExampleActive();
    EvenSegmentIsGood(0);
    EvenIncoming(s);
    hide Good, EvenSegment, Prepare, LookUpHigher, LookUpLower, IsAnchor, PlanRun, HasRow, Safe, AnchorKept, Incoming;
    PrepareKeeps(s, 10, a.changed);
    var s0 := Prepare(s, 10, a.changed);
    OneRunIsPlanned(s0, a.chain);
    StartedKeeps(s, a, EXAMPLE);
    StartedRow(s, a, EXAMPLE, 10);
    LookUpFrame(s0, 10, 20);
    PrepareWidth(s, 10, a.changed);
  }

  lemma ExampleQueue()
    requires CanHappen(ExampleWin(), Start(EXAMPLE, [ExampleActive()]))
    ensures var w1 := Next(ExampleWin(), Start(EXAMPLE, [ExampleActive()]));
            && w1.queue == [Request("", 11, 12, DRAGGED)] && w1.toolStart == 10
            && "" in w1.segs && IsAnchor(w1.segs[""], 10) && HasRow(w1.segs[""], 10, EVEN)
            && w1.segs[""].master.width == 3
  {
    hide Started, EvenSegment, HasRow, IsAnchor, StartAll, Sound, CanHappen;
    ExampleStarted();
    StartOnce(ExampleWin().(toolStart := 10), EXAMPLE, ExampleActive());
  }

  lemma StartOnce(w: Win, c: Choice, a: Active)
    requires a.segId in w.segs
    ensures StartAll(w, c, [a]) == w.(segs := w.segs[a.segId := Started(w.segs[a.segId], a, c).0],
                                      queue := w.queue + Started(w.segs[a.segId], a, c).1)
  {
    hide Started;
    var (s, requests) := Started(w.segs[a.segId], a, c);
    assert [a][1..] == [];
    assert StartAll(w.(segs := w.segs[a.segId := s], queue := w.queue + requests), c, [])
        == w.(segs := w.segs[a.segId := s], queue := w.queue + requests);
  }

  lemma PrepareWidth(s: Seg, toolStart: int, changed: PointSet)
    ensures Prepare(s, toolStart, changed).master.width == s.master.width
  {}

  /** A whole session: the middle point is dragged and a forward run started, which resamples the curve into the cloud
      and makes slice 10 an anchor. The result brings the curve back as it was dragged. */
  lemma DraggedSessionTakesPoints()
    ensures var w, start, ps := ExampleWin(), Start(EXAMPLE, [ExampleActive()]), Resliced(DRAGGED, 2);
            && Inv(w) && Session(w, [start, Finished(ps)])
            && var w1, w2 := Next(w, start), Final(w, [start, Finished(ps)]);
               && "" in w1.segs && "" in w2.segs && IsAnchor(w1.segs[""], 10) && IsAnchor(w2.segs[""], 10)
               && HasRow(w1.segs[""], 10, EVEN) && HasRow(w2.segs[""], 10, DRAGGED) && EVEN != DRAGGED
  {
    var w, start, ps := ExampleWin(), Start(EXAMPLE, [ExampleActive()]), Resliced(DRAGGED, 2);
    assert EVEN[1] != DRAGGED[1];
    hide Inv, Next, IsAnchor, ExampleWin, ExampleActive, CanHappen, HasRow, Session, Final, Resliced;
    ExampleStarts();
    ExampleQueue();
    NextKeeps(w, start, "", 10);
    var w1 := Next(w, start);
    ReslicedIs(DRAGGED, 2);
    ReslicedIsIncoming(w1.segs[""], DRAGGED, 2);
    RowIsInCloud(w1.segs[""], 10, EVEN);
    LocalResliceTakesPoints(w1, ps);
    TwoEvents(w, start, Finished(ps));
  }

  lemma ReslicedIsIncoming(s: Seg, chain: Row, n: nat)
    requires s.master.width == 3 && SliceRow(chain, 3, 10)
    ensures Incoming(s, Resliced(chain, n), 10)
  {
    ReslicedIs(chain, n);
  }

  lemma TwoEvents(w: Win, e: Event, f: Event)
    requires CanHappen(w, e) && CanHappen(Next(w, e), f)
    ensures Session(w, [e, f]) && Final(w, [e, f]) == Next(Next(w, e), f)
  {
    hide Next, CanHappen;
    assert [e, f][1..] == [f] && [f][1..] == [];
    assert Session(Next(w, e), [f]);
    assert Final(Next(w, e), [f]) == Next(Next(w, e), f);
  }
}
