/** What each event of a session does to the queue, the anchors, the annotations and the buffers, stated without the
    functions that plan, queue and mark. */
module SessionEvents {
  import opened Geometry
  import opened Segmentation
  import opened AnchorCache
  import opened SegmentationRuns
  import opened SegmentationSession
  import opened SessionPoints

  // ----- what a start queues -----

  /** Has the user chosen a run in this direction? Local reslice knows forward runs only. */
  predicate Chosen(c: Choice, forward: bool) {
    if forward then !c.forward.NoRun? else c.algorithm.Ofs? && !c.backward.NoRun?
  }

  function ModeOf(c: Choice, forward: bool): Mode {
    if forward then c.forward else c.backward
  }

  /** The slice n places from the tool slice. */
  function SliceAt(c: Choice, forward: bool, n: int): int {
    if forward then c.toolStart + n else c.toolStart - n
  }

  /** The slices of the volume on this side of the tool slice. */
  predicate Ahead(c: Choice, forward: bool, u: int) {
    if forward then c.toolStart < u < c.numSlices else 0 <= u < c.toolStart
  }

  ghost predicate AnchorAhead(s: Seg, c: Choice, forward: bool) {
    exists u :: Ahead(c, forward, u) && IsAnchor(s, u)
  }

  /** A run goes as far as n slices: none of them is an anchor, and behind them lies an anchor or the mode ends. Without
      an anchor to run to there is nothing to do. */
  ghost predicate Reaches(s: Seg, c: Choice, forward: bool, n: nat) {
    && (forall k | 1 <= k <= n :: !IsAnchor(s, SliceAt(c, forward, k)))
    && match ModeOf(c, forward)
       case NoRun => false
       case ToSlice(end) =>
         var room := if forward then end - c.toolStart else c.toolStart - end;
         n <= room && (n == room || IsAnchor(s, SliceAt(c, forward, n + 1)))
       case ToAnchor(_) =>
         if AnchorAhead(s, c, forward)
         then Ahead(c, forward, SliceAt(c, forward, n + 1)) && IsAnchor(s, SliceAt(c, forward, n + 1))
         else n == 0
  }

  /** Of n slices a run takes m: all of them, but for optical flow with a step size. There at least one whole step must
      fit, with a slice to spare if there is any anchor ahead; and a run to a slice is cut to whole steps. */
  ghost predicate Takes(s: Seg, c: Choice, forward: bool, n: nat, m: nat) {
    if c.algorithm.Lrps? || c.stepSize <= 1 then m == n
    else
      var room := if AnchorAhead(s, c, forward) then n - 1 else n;
      if room < c.stepSize then m == 0
      else if ModeOf(c, forward).ToAnchor? then m == n
      else m <= room < m + c.stepSize && m % c.stepSize == 0
  }

  /** The requests of one direction: one from beside the tool slice over the slices it takes, or none. */
  ghost predicate RunsAs(s: Seg, a: Active, c: Choice, forward: bool, requests: seq<Request>) {
    if !Chosen(c, forward) then requests == []
    else exists n: nat, m: nat ::
           && Reaches(s, c, forward, n) && Takes(s, c, forward, n, m)
           && requests == if m == 0 then [] else [Request(a.segId, SliceAt(c, forward, 1), SliceAt(c, forward, m), a.chain)]
  }

  /** The queue of the segments taking part, in their order, backward before forward. */
  ghost predicate QueuedAs(segs: map<string, Seg>, c: Choice, actives: seq<Active>, queue: seq<Request>) {
    if actives == [] then queue == []
    else exists b: seq<Request>, f: seq<Request>, rest: seq<Request> ::
           && queue == b + f + rest && actives[0].segId in segs
           && RunsAs(segs[actives[0].segId], actives[0], c, false, b)
           && RunsAs(segs[actives[0].segId], actives[0], c, true, f)
           && QueuedAs(segs, c, actives[1..], rest)
  }

  lemma NearestAhead(s: Seg, c: Choice, forward: bool)
    requires Sound(s) && s.minSlice == Base(s) && 0 <= c.toolStart
    ensures var r := TargetAnchor(s, forward, c.toolStart, c.numSlices);
            && (r != -1 ==> Ahead(c, forward, r) && IsAnchor(s, r))
            && (r != -1 <==> AnchorAhead(s, c, forward))
            && forall u | Ahead(c, forward, u) && (r == -1 || (if forward then u < r else r < u)) :: !IsAnchor(s, u)
  {
    forall t | !InCloud(s, t) ensures !IsAnchor(s, t) {}
    NearestLowerIs(s, c.toolStart);
    NearestHigherIs(s, c.toolStart, c.numSlices);
    hide Aligned, IsAnchor, NearestHigher, NearestLower, Coherent;
  }

  /** How far the planned range goes, before the step size is applied. */
  lemma PlanReaches(s: Seg, c: Choice, forward: bool)
    requires Sound(s) && s.minSlice == Base(s) && 0 <= c.toolStart && Chosen(c, forward)
    requires ModeFits(ModeOf(c, forward), forward, c)
    ensures var mode := ModeOf(c, forward);
            var end := if mode.ToSlice? then mode.endIndex else mode.unusedIndex;
            var plan := PlanBase(TargetAnchor(s, forward, c.toolStart, c.numSlices), forward, mode.ToAnchor?, c.toolStart, end);
            && (plan.params.targetAnchor != -1 <==> AnchorAhead(s, c, forward))
            && if plan.skip then Reaches(s, c, forward, 0)
               else && Directed(plan.params, forward, c.toolStart) && Reaches(s, c, forward, Length(plan.params))
                    && plan.params.startIndex == SliceAt(c, forward, 1)
                    && plan.params.targetIndex == SliceAt(c, forward, Length(plan.params))
  {
    NearestAhead(s, c, forward);
    hide Sound, IsAnchor, TargetAnchor, AnchorAhead;
    var r := TargetAnchor(s, forward, c.toolStart, c.numSlices);
    forall k | 1 <= k && (r == -1 || (if forward then SliceAt(c, forward, k) < r else r < SliceAt(c, forward, k)))
               && Ahead(c, forward, SliceAt(c, forward, k))
      ensures !IsAnchor(s, SliceAt(c, forward, k))
    {}
  }

  /** The requests that planning adds are what the mode, the step size and the anchors say. */
  lemma PlannedRunsAs(s: Seg, a: Active, c: Choice, forward: bool)
    requires Sound(s) && s.minSlice == Base(s) && 0 <= c.toolStart && Chosen(c, forward)
    requires ModeFits(ModeOf(c, forward), forward, c)
    ensures RunsAs(s, a, c, forward,
                   Requests(s, a.segId, a.chain, forward, ModeOf(c, forward), c.toolStart, c.numSlices, StepSize(c)))
  {
    PlanReaches(s, c, forward);
    var mode, step := ModeOf(c, forward), StepSize(c);
    var end := if mode.ToSlice? then mode.endIndex else mode.unusedIndex;
    var base := PlanBase(TargetAnchor(s, forward, c.toolStart, c.numSlices), forward, mode.ToAnchor?, c.toolStart, end);
    hide Sound, IsAnchor, TargetAnchor, AnchorAhead, Reaches, PlanBase, PlanSteps;
    if base.skip {
      assert Reaches(s, c, forward, 0) && Takes(s, c, forward, 0, 0);
    } else {
      var n := Length(base.params);
      StepsTake(s, c, forward, base.params);
      var p := PlanSteps(base.params, forward, mode.ToAnchor?, step);
      var m := if p.skip then 0 else Length(p.params);
      assert Reaches(s, c, forward, n) && Takes(s, c, forward, n, m);
    }
  }

  lemma StepsTake(s: Seg, c: Choice, forward: bool, p: Params)
    requires Directed(p, forward, c.toolStart) && (p.targetAnchor != -1 <==> AnchorAhead(s, c, forward)) && Chosen(c, forward)
    ensures var plan := PlanSteps(p, forward, ModeOf(c, forward).ToAnchor?, StepSize(c));
            && Takes(s, c, forward, Length(p), if plan.skip then 0 else Length(plan.params))
            && (!plan.skip ==> && plan.params.startIndex == SliceAt(c, forward, 1)
                               && plan.params.targetIndex == SliceAt(c, forward, Length(plan.params)))
  {
    hide AnchorAhead;
    if StepSize(c) > 1 {
      StepsFit(p, forward, ModeOf(c, forward).ToAnchor?, c.toolStart, StepSize(c));
      hide PlanSteps;
    }
  }

  /** Only anchors beside the tool slice count. */
  lemma RunsSame(s: Seg, s': Seg, a: Active, c: Choice, forward: bool, requests: seq<Request>)
    requires forall u | u != c.toolStart :: IsAnchor(s', u) == IsAnchor(s, u)
    requires RunsAs(s', a, c, forward, requests)
    ensures RunsAs(s, a, c, forward, requests)
  {
    hide IsAnchor;
    if Chosen(c, forward) {
      var n: nat, m: nat :|
        && Reaches(s', c, forward, n) && Takes(s', c, forward, n, m)
        && requests == if m == 0 then [] else [Request(a.segId, SliceAt(c, forward, 1), SliceAt(c, forward, m), a.chain)];
      assert AnchorAhead(s', c, forward) == AnchorAhead(s, c, forward);
      assert Reaches(s, c, forward, n) && Takes(s, c, forward, n, m);
    }
  }

  /** Preparing a run makes the tool slice an anchor and changes no other. */
  lemma PrepareAnchors(s: Seg, toolStart: int, changed: PointSet)
    requires Sound(s) && InCloud(s, toolStart) && ChangedFits(s, toolStart, changed)
    ensures forall u :: IsAnchor(Prepare(s, toolStart, changed), u) == (u == toolStart || IsAnchor(s, u))
  {
    hide Merge, IsAnchor, SetAnchor, SetManualPoints, AnchorKept, Aligned, Coherent, SameAnchors;
    var s1 := Merge(s, changed);
    ChangedMerges(s, toolStart, changed);
    var s2 := SetAnchor(s1, toolStart, true);
    SetAnchorGood(s1, toolStart, true);
    ToggleElsewhere(s1, toolStart, true);
    SetManualPointsGood(s2, toolStart);
    SameBitsSameAnchors(s2, SetManualPoints(s2, toolStart));
    Unbuffered(SetManualPoints(s2, toolStart));
  }

  lemma StartedRunsAs(s: Seg, a: Active, c: Choice)
    requires Ready(s) && InCloud(s, c.toolStart) && 0 <= c.toolStart && ChangedFits(s, c.toolStart, a.changed)
    requires ModeFits(c.backward, false, c) && ModeFits(c.forward, true, c)
    ensures exists b: seq<Request>, f: seq<Request> ::
              Started(s, a, c).1 == b + f && RunsAs(s, a, c, false, b) && RunsAs(s, a, c, true, f)
  {
    hide Good, IsAnchor, Prepare, AfterPlanning, Requests, AnchorKept, SameAnchors, RunsAs, ModeFits, ChangedFits;
    var s0 := Prepare(s, c.toolStart, a.changed);
    PrepareKeeps(s, c.toolStart, a.changed);
    PrepareAnchors(s, c.toolStart, a.changed);
    var s1 := AfterPlanning(s0, false, BackwardMode(c), c.toolStart, c.numSlices);
    PlanningKeeps(s0, false, BackwardMode(c), c.toolStart, c.numSlices);
    var b := Requests(s0, a.segId, a.chain, false, BackwardMode(c), c.toolStart, c.numSlices, StepSize(c));
    var f := Requests(s1, a.segId, a.chain, true, c.forward, c.toolStart, c.numSlices, StepSize(c));
    OneDirection(s0, a, c, false);
    OneDirection(s1, a, c, true);
    RunsSame(s, s0, a, c, false, b);
    RunsSame(s, s1, a, c, true, f);
    assert Started(s, a, c).1 == b + f;
  }

  lemma OneDirection(s: Seg, a: Active, c: Choice, forward: bool)
    requires Sound(s) && s.minSlice == Base(s) && 0 <= c.toolStart
    requires ModeFits(c.backward, false, c) && ModeFits(c.forward, true, c)
    ensures RunsAs(s, a, c, forward, Requests(s, a.segId, a.chain, forward, if forward then c.forward else BackwardMode(c),
                                              c.toolStart, c.numSlices, StepSize(c)))
  {
    hide Sound, PlanRun;
    if Chosen(c, forward) {
      PlannedRunsAs(s, a, c, forward);
    }
  }

  lemma {:induction false} QueuedElsewhere(segs: map<string, Seg>, segs': map<string, Seg>, c: Choice, actives: seq<Active>,
                                           queue: seq<Request>)
    requires forall a | a in actives :: a.segId in segs && a.segId in segs' && segs'[a.segId] == segs[a.segId]
    requires QueuedAs(segs', c, actives, queue)
    ensures QueuedAs(segs, c, actives, queue)
  {
    hide RunsAs;
    if actives != [] {
      var b: seq<Request>, f: seq<Request>, rest: seq<Request> :|
        && queue == b + f + rest && actives[0].segId in segs'
        && RunsAs(segs'[actives[0].segId], actives[0], c, false, b)
        && RunsAs(segs'[actives[0].segId], actives[0], c, true, f)
        && QueuedAs(segs', c, actives[1..], rest);
      assert actives[0] in actives;
      QueuedElsewhere(segs, segs', c, actives[1..], rest);
    }
  }

  lemma {:induction false} StartAllQueues(w: Win, c: Choice, actives: seq<Active>) returns (queue: seq<Request>)
    requires Starting(w) && w.toolStart == c.toolStart && 0 <= c.toolStart
    requires forall a | a in actives :: a.segId in w.segs && ActiveFits(w, a, c)
    requires Distinct(actives) && NotQueued(w, actives)
    requires ModeFits(c.backward, false, c) && ModeFits(c.forward, true, c)
    ensures StartAll(w, c, actives).queue == w.queue + queue && QueuedAs(w.segs, c, actives, queue)
    decreases |actives|
  {
    hide Safe, Started, NotQueued, Sound, InCloud, ModeFits, Starting, ActiveFits, RunsAs;
    if actives == [] {
      queue := [];
    } else {
      var a := actives[0];
      assert ActiveFits(w, a, c);
      StartOne(w, c, actives);
      var b, f := ActiveRunsAs(w, a, c);
      var (s, requests) := Started(w.segs[a.segId], a, c);
      var w1 := w.(segs := w.segs[a.segId := s], queue := w.queue + requests);
      var rest := StartAllQueues(w1, c, actives[1..]);
      OthersDiffer(actives);
      QueuedElsewhere(w.segs, w1.segs, c, actives[1..], rest);
      queue := b + f + rest;
      QueuedFirst(w.segs, c, actives, b, f, rest);
      assert w1.queue + rest == w.queue + queue;
    }
  }

  lemma QueuedFirst(segs: map<string, Seg>, c: Choice, actives: seq<Active>, b: seq<Request>, f: seq<Request>, rest: seq<Request>)
    requires actives != [] && actives[0].segId in segs && QueuedAs(segs, c, actives[1..], rest)
    requires RunsAs(segs[actives[0].segId], actives[0], c, false, b) && RunsAs(segs[actives[0].segId], actives[0], c, true, f)
    ensures QueuedAs(segs, c, actives, b + f + rest)
  {
    hide RunsAs;
  }

  lemma ActiveRunsAs(w: Win, a: Active, c: Choice) returns (b: seq<Request>, f: seq<Request>)
    requires Starting(w) && ActiveFits(w, a, c) && 0 <= c.toolStart
    requires ModeFits(c.backward, false, c) && ModeFits(c.forward, true, c)
    ensures Started(w.segs[a.segId], a, c).1 == b + f
    ensures RunsAs(w.segs[a.segId], a, c, false, b) && RunsAs(w.segs[a.segId], a, c, true, f)
  {
    hide Started, RunsAs, Ready, ModeFits;
    FineWithSlice(w.segs[a.segId], c.toolStart);
    StartedRunsAs(w.segs[a.segId], a, c);
    b, f :| Started(w.segs[a.segId], a, c).1 == b + f && RunsAs(w.segs[a.segId], a, c, false, b)
            && RunsAs(w.segs[a.segId], a, c, true, f);
  }

  lemma OthersDiffer(actives: seq<Active>)
    requires actives != [] && Distinct(actives)
    ensures forall b | b in actives[1..] :: b.segId != actives[0].segId
  {
    forall b | b in actives[1..] ensures b.segId != actives[0].segId {
      var j :| 0 <= j < |actives[1..]| && actives[1..][j] == b;
      assert actives[j + 1] == b;
    }
  }

  /** A start queues, for every segment taking part and in their order, a backward and a forward run wherever the user
      has chosen one and slices are left: from beside the tool slice as far as mode, anchors and whole steps allow, with
      the chain of the segment. */
  lemma StartQueues(w: Win, c: Choice, actives: seq<Active>)
    requires Inv(w) && CanHappen(w, Start(c, actives))
    ensures var w' := Next(w, Start(c, actives));
            w'.toolStart == c.toolStart && QueuedAs(w.segs, c, actives, w'.queue)
  {
    hide Sound, Safe, ActiveFits, ModeFits, InCloud, StartAll, CleanUp, QueuedAs;
    var w0 := w.(toolStart := c.toolStart);
    forall a | a in actives ensures a.segId in w0.segs && ActiveFits(w0, a, c) {
      ActiveElsewhere(w, w0, a, c);
    }
    var queue := StartAllQueues(w0, c, actives);
    assert w0.queue + queue == queue;
    StartAllKeeps(w0, c, actives, "", 0);
  }

  // ----- the queue is determined by this -----

  lemma ReachesOnce(s: Seg, c: Choice, forward: bool, n: nat, n': nat)
    requires Reaches(s, c, forward, n) && Reaches(s, c, forward, n')
    ensures n == n'
  {
    hide IsAnchor;
  }

  lemma TakesOnce(s: Seg, c: Choice, forward: bool, n: nat, m: nat, m': nat)
    requires Takes(s, c, forward, n, m) && Takes(s, c, forward, n, m')
    ensures m == m'
  {
    hide AnchorAhead;
    if !(c.algorithm.Lrps? || c.stepSize <= 1) {
      var room := if AnchorAhead(s, c, forward) then n - 1 else n;
      if room >= c.stepSize && !ModeOf(c, forward).ToAnchor? {
        WholeOnce(m, m', room, c.stepSize);
      }
    }
  }

  lemma WholeOnce(m: nat, m': nat, room: int, step: int)
    requires step > 0 && m <= room < m + step && m' <= room < m' + step && m % step == 0 == m' % step
    ensures m == m'
  {
    var q, q' := m / step, m' / step;
    assert m == q * step && m' == q' * step;
    assert (q' - q) * step == m' - m;
    if q < q' {
      TimesAtLeast(q' - q, step);
    } else if q' < q {
      TimesAtLeast(q - q', step);
    }
  }

  lemma RunsOnce(s: Seg, a: Active, c: Choice, forward: bool, r: seq<Request>, r': seq<Request>)
    requires RunsAs(s, a, c, forward, r) && RunsAs(s, a, c, forward, r')
    ensures r == r'
  {
    hide Reaches, Takes;
    if Chosen(c, forward) {
      var n: nat, m: nat :|
        && Reaches(s, c, forward, n) && Takes(s, c, forward, n, m)
        && r == if m == 0 then [] else [Request(a.segId, SliceAt(c, forward, 1), SliceAt(c, forward, m), a.chain)];
      var n': nat, m': nat :|
        && Reaches(s, c, forward, n') && Takes(s, c, forward, n', m')
        && r' == if m' == 0 then [] else [Request(a.segId, SliceAt(c, forward, 1), SliceAt(c, forward, m'), a.chain)];
      ReachesOnce(s, c, forward, n, n');
      TakesOnce(s, c, forward, n, m, m');
    }
  }

  /** There is only one queue of this kind. */
  lemma {:induction false} QueuedOnce(segs: map<string, Seg>, c: Choice, actives: seq<Active>,
                                      queue: seq<Request>, queue': seq<Request>)
    requires QueuedAs(segs, c, actives, queue) && QueuedAs(segs, c, actives, queue')
    ensures queue == queue'
  {
    hide RunsAs;
    if actives != [] {
      var a := actives[0];
      var b: seq<Request>, f: seq<Request>, rest: seq<Request> :|
        && queue == b + f + rest && RunsAs(segs[a.segId], a, c, false, b)
        && RunsAs(segs[a.segId], a, c, true, f) && QueuedAs(segs, c, actives[1..], rest);
      var b': seq<Request>, f': seq<Request>, rest': seq<Request> :|
        && queue' == b' + f' + rest' && RunsAs(segs[a.segId], a, c, false, b')
        && RunsAs(segs[a.segId], a, c, true, f') && QueuedAs(segs, c, actives[1..], rest');
      RunsOnce(segs[a.segId], a, c, false, b, b');
      RunsOnce(segs[a.segId], a, c, true, f, f');
      QueuedOnce(segs, c, actives[1..], rest, rest');
    }
  }

  // ----- the queue after other events -----

  /** A result or a failure takes the first run off the queue and leaves the others in their order; every other event but
      a start leaves the queue alone. */
  lemma QueueAfter(w: Win, e: Event)
    requires CanHappen(w, e)
    ensures e.Finished? || e.Failed? ==> w.queue != [] && Next(w, e).queue == w.queue[1..]
    ensures e.Toggle? || e.Buffer? || e.Unbuffer? || e.Keep? ==> Next(w, e).queue == w.queue
    ensures !e.Start? ==> Next(w, e).toolStart == w.toolStart
  {
    hide Finish, CleanUp, Toggled, KeepChanges, StartAll, Delivers, KeepFits;
  }

  // ----- which slices are anchors after an event -----

  predicate TakesPart(actives: seq<Active>, id: string) {
    exists i :: 0 <= i < |actives| && actives[i].segId == id
  }

  /** Is slice u an anchor of segment id after the event? */
  ghost predicate AnchorAfter(w: Win, e: Event, id: string, u: int)
    requires id in w.segs
  {
    match e
    case Toggle(segId, t, on) => if segId == id && u == t && InCloud(w.segs[id], t) then on else IsAnchor(w.segs[id], u)
    case Start(c, actives) => IsAnchor(w.segs[id], u) || (TakesPart(actives, id) && u == c.toolStart)
    case Keep(toolStart, kept, _) => IsAnchor(w.segs[id], u) || (id in kept && u == toolStart)
    case _ => IsAnchor(w.segs[id], u)
  }

  /** A started segment is what preparing and planning make of it, the others stay. */
  lemma {:induction false} StartAllSegments(w: Win, c: Choice, actives: seq<Active>, id: string)
    requires forall a | a in actives :: a.segId in w.segs
    requires Distinct(actives) && id in w.segs
    ensures id in StartAll(w, c, actives).segs
    ensures !TakesPart(actives, id) ==> StartAll(w, c, actives).segs[id] == w.segs[id]
    ensures forall i | 0 <= i < |actives| && actives[i].segId == id ::
              StartAll(w, c, actives).segs[id] == Started(w.segs[id], actives[i], c).0
    decreases |actives|
  {
    hide Started;
    if actives != [] {
      var a := actives[0];
      var (s, requests) := Started(w.segs[a.segId], a, c);
      var w1 := w.(segs := w.segs[a.segId := s], queue := w.queue + requests);
      StartAllSegments(w1, c, actives[1..], id);
      OthersDiffer(actives);
      if a.segId == id {
        forall i | 0 <= i < |actives[1..]| ensures actives[1..][i].segId != id {
          assert actives[1..][i] in actives[1..];
        }
        assert !TakesPart(actives[1..], id);
      }
      forall i | 0 <= i < |actives| && actives[i].segId == id
        ensures StartAll(w, c, actives).segs[id] == Started(w.segs[id], actives[i], c).0
      {
        if i > 0 {
          assert actives[1..][i - 1] == actives[i];
          assert actives[i] in actives[1..];
        }
      }
      if TakesPart(actives[1..], id) {
        var i :| 0 <= i < |actives[1..]| && actives[1..][i].segId == id;
        assert actives[i + 1].segId == id;
      }
    }
  }

  /** What a start makes of a segment, up to the caches and the slice number. */
  lemma StartMakes(w: Win, c: Choice, actives: seq<Active>, id: string)
    requires Inv(w) && CanHappen(w, Start(c, actives)) && id in w.segs
    ensures id in Next(w, Start(c, actives)).segs
    ensures var s, s' := w.segs[id], Next(w, Start(c, actives)).segs[id];
            && (!TakesPart(actives, id) ==> s'.master == s.master && s'.ann == s.ann)
            && (TakesPart(actives, id) ==>
                  exists changed :: Sound(s) && InCloud(s, c.toolStart) && ChangedFits(s, c.toolStart, changed)
                                    && SameClouds(Prepare(s, c.toolStart, changed), s') && s'.buffered == {})
  {
    hide Sound, Safe, ModeFits, InCloud, StartAll, Started, CleanUp, ChangedFits, Prepare, TakesPart;
    var w0 := w.(toolStart := c.toolStart);
    forall a | a in actives ensures a.segId in w0.segs {
      assert ActiveFits(w, a, c);
    }
    StartAllSegments(w0, c, actives, id);
    var w1 := StartAll(w0, c, actives);
    CleanUpClouds(w1.segs[id]);
    if TakesPart(actives, id) {
      var i := Part(actives, id);
      assert ActiveFits(w, actives[i], c);
      FineWithSlice(w.segs[id], c.toolStart);
      StartedClouds(w.segs[id], actives[i], c);
    }
  }

  lemma Part(actives: seq<Active>, id: string) returns (i: nat)
    requires TakesPart(actives, id)
    ensures i < |actives| && actives[i].segId == id && actives[i] in actives
  {
    i :| 0 <= i < |actives| && actives[i].segId == id;
  }

  predicate SameClouds(s: Seg, s': Seg) {
    s'.master == s.master && s'.ann == s.ann
  }

  lemma CleanUpClouds(s: Seg)
    ensures SameClouds(s, CleanUp(s)) && CleanUp(s).buffered == {}
  {}

  lemma StartedClouds(s: Seg, a: Active, c: Choice)
    ensures SameClouds(Prepare(s, c.toolStart, a.changed), Started(s, a, c).0) && Started(s, a, c).0.buffered == {}
  {
    hide Merge, SetAnchor, SetManualPoints, LowerStop, HigherStop, InsertDefaults;
  }

  lemma SameCloudsSameAnchors(s: Seg, s': Seg)
    requires SameClouds(s, s')
    ensures forall u :: IsAnchor(s', u) == IsAnchor(s, u)
  {}

  /** Only a toggle, a start and keeping a curve change which slices are anchors, and only on the toggled slice or the
      tool slice. */
  lemma NextAnchors(w: Win, e: Event, id: string, u: int)
    requires Inv(w) && CanHappen(w, e) && id in w.segs
    ensures id in Next(w, e).segs
    ensures IsAnchor(Next(w, e).segs[id], u) <==> AnchorAfter(w, e, id, u)
  {
    hide Fine, Safe, IsAnchor, InCloud, CleanUp, KeepChanges, Toggled, Finish, Delivers, ActiveFits, ChangedFits, StartAll, Started,
         ModeFits, TakesPart, Prepare;
    match e
    case Toggle(segId, t, on) =>
      if segId == id {
        ToggledAnchors(w.segs[id], t, on);
      }
    case Buffer(segId, points) =>
      SameCloudsSameAnchors(w.segs[id], Next(w, e).segs[id]);
    case Unbuffer(segId, points) =>
      SameCloudsSameAnchors(w.segs[id], Next(w, e).segs[id]);
    case Start(c, actives) =>
      StartMakes(w, c, actives, id);
      if TakesPart(actives, id) {
        PreparedAnchors(w.segs[id], c.toolStart, Next(w, e).segs[id]);
      } else {
        SameCloudsSameAnchors(w.segs[id], Next(w, e).segs[id]);
      }
    case Keep(toolStart, kept, leave) =>
      var s1 := KeepAll(w, toolStart, kept).segs[id];
      if id in kept {
        assert KeepFits(w, id, toolStart, kept[id]);
        FineWithSlice(w.segs[id], toolStart);
        KeptAnchors(w.segs[id], toolStart, kept[id]);
      }
      CleanUpClouds(s1);
      SameCloudsSameAnchors(s1, Next(w, e).segs[id]);
    case Finished(ps) =>
      var r := w.queue[0];
      var s1 := if id == r.segId then Finish(w.segs[id], r, w.toolStart, ps) else w.segs[id];
      if id == r.segId {
        FinishedAnchors(w.segs[id], r, w.toolStart, ps);
      }
      CleanUpClouds(s1);
      SameCloudsSameAnchors(s1, Next(w, e).segs[id]);
    case Failed =>
      CleanUpClouds(w.segs[id]);
      SameCloudsSameAnchors(w.segs[id], Next(w, e).segs[id]);
  }

  lemma ToggledAnchors(s: Seg, t: int, on: bool)
    requires Fine(s)
    ensures forall u :: IsAnchor(Toggled(s, t, on), u) == if u == t && InCloud(s, t) then on else IsAnchor(s, u)
  {
    if Empty(s) {
      return;
    }
    hide Good, IsAnchor, SetAnchor, InsertDefaults, SameAnchors;
    LookedUpKeeps(s, t);
    ToggleElsewhere(LookedUp(s, t), t, on);
  }

  lemma PreparedAnchors(s: Seg, toolStart: int, s': Seg)
    requires exists changed :: Sound(s) && InCloud(s, toolStart) && ChangedFits(s, toolStart, changed)
                               && SameClouds(Prepare(s, toolStart, changed), s') && s'.buffered == {}
    ensures forall u :: IsAnchor(s', u) == (u == toolStart || IsAnchor(s, u))
  {
    hide Sound, InCloud, ChangedFits, Prepare, IsAnchor;
    var changed :| Sound(s) && InCloud(s, toolStart) && ChangedFits(s, toolStart, changed)
                   && SameClouds(Prepare(s, toolStart, changed), s') && s'.buffered == {};
    PrepareAnchors(s, toolStart, changed);
    SameCloudsSameAnchors(Prepare(s, toolStart, changed), s');
  }

  lemma KeptAnchors(s: Seg, toolStart: int, changed: PointSet)
    requires Sound(s) && InCloud(s, toolStart) && ChangedFits(s, toolStart, changed)
    ensures forall u :: IsAnchor(KeepChanges(s, toolStart, changed), u) == (u == toolStart || IsAnchor(s, u))
  {
    hide Merge, IsAnchor, SetAnchor, SetManualPoints, SetUsedInRun, Aligned, Coherent, SameAnchors, ChangedFits, AnchorKept;
    var s1 := SetAnchor(s, toolStart, true);
    SetAnchorGood(s, toolStart, true);
    ToggleElsewhere(s, toolStart, true);
    SetAnchorFrame(s, toolStart, true);
    var s2 := SetManualPoints(s1, toolStart);
    SetManualPointsGood(s1, toolStart);
    SetManualPointsFrame(s1, toolStart);
    SameBitsSameAnchors(s1, s2);
    var s3 := SetUsedInRun(s2, toolStart, false);
    SetUsedInRunGood(s2, toolStart, false);
    SetUsedInRunFrame(s2, toolStart, false);
    SameBitsSameAnchors(s2, s3);
    ChangedElsewhere(s, s3, toolStart, changed);
    ChangedMerges(s3, toolStart, changed);
  }

  lemma FinishedAnchors(s: Seg, r: Request, toolStart: int, ps: PointSet)
    requires Fine(s) && Safe(s, r, toolStart) && Delivers(s, r, toolStart, ps)
    ensures forall u :: IsAnchor(Finish(s, r, toolStart, ps), u) == IsAnchor(s, u)
  {
    FineWithRun(s, r, toolStart);
    SoundIsGood(s);
    hide *;
    FinishKeepsAnchors(s, r, toolStart, ps);
  }

  // ----- annotations and buffers after an event -----

  /** What keeping a changed curve does to every point: the tool slice is an anchor, has the buffered points marked as
      manual, is not used in a run and has the curve; all else is as before, and the buffer is empty. */
  lemma KeepMeaning(s: Seg, toolStart: int, changed: PointSet)
    requires Good(s) && InCloud(s, toolStart) && ChangedFits(s, toolStart, changed)
    ensures var s' := KeepChanges(s, toolStart, changed);
            && Aligned(s) && Aligned(s') && Base(s') == Base(s) && Top(s') == Top(s) && s'.buffered == {}
            && (forall u | InCloud(s, u) ::
                  && |AnnRow(s, u)| == |AnnRow(s', u)| == s.ann.width
                  && MasterRow(s', u) == (if u == toolStart && changed.rows != [] then changed.rows[0] else MasterRow(s, u)))
            && forall u, j {:trigger AnnRow(s', u)[j]} | InCloud(s, u) && 0 <= j < s.ann.width ::
                 AnnRow(s', u)[j] == var a := AnnRow(s, u)[j];
                   if u == toolStart then a.(flags := Flags(true, a.flags.manual || j in s.buffered, false)) else a
  {
    hide Merge, SetAnchor, SetManualPoints, SetUsedInRun, Good, Aligned, ChangedFits, CacheEntry;
    GoodIsAligned(s);
    var s1 := SetAnchor(s, toolStart, true);
    AnchorMarks(s, toolStart, true);
    SetAnchorGood(s, toolStart, true);
    var s2 := SetManualPoints(s1, toolStart);
    ManualMarks(s1, toolStart);
    SetManualPointsGood(s1, toolStart);
    var s3 := SetUsedInRun(s2, toolStart, false);
    UsedInRunMarks(s2, toolStart, false);
    SetUsedInRunGood(s2, toolStart, false);
    UsedInRunBuffer(s2, toolStart, false);
    ChangedElsewhere(s, s3, toolStart, changed);
    ChangedPoints(s3, toolStart, changed);
    var s' := KeepChanges(s, toolStart, changed);
    AllRows(s);
    AllRows(s1);
    AllRows(s2);
    AllRows(s3);
    AllRows(s');
    forall u | InCloud(s, u)
      ensures MasterRow(s', u) == (if u == toolStart && changed.rows != [] then changed.rows[0] else MasterRow(s, u))
    {
      assert MasterRow(s3, u) == MasterRow(s, u);
    }
    forall u, j | InCloud(s, u) && 0 <= j < s.ann.width
      ensures AnnRow(s', u)[j] == var a := AnnRow(s, u)[j];
        if u == toolStart then a.(flags := Flags(true, a.flags.manual || j in s.buffered, false)) else a
    {
      var a, b, c, d := AnnRow(s, u)[j], AnnRow(s1, u)[j], AnnRow(s2, u)[j], AnnRow(s3, u)[j];
      assert b == if u == toolStart then a.(flags := a.flags.(anchor := true)) else a;
      assert c == if u == toolStart && j in s.buffered then b.(flags := b.flags.(manual := true)) else b;
      assert d == if u == toolStart then c.(flags := c.flags.(usedInRun := false)) else c;
    }
  }

  lemma UsedInRunBuffer(s: Seg, t: int, used: bool)
    ensures SetUsedInRun(s, t, used).buffered == s.buffered
  {}

  /** The annotation a' that point j of slice u of segment id has after the event. */
  ghost predicate MarkedAs(w: Win, e: Event, id: string, u: int, j: nat, a': Annotation)
    requires id in w.segs && Aligned(w.segs[id]) && InCloud(w.segs[id], u) && j < |AnnRow(w.segs[id], u)|
  {
    var s := w.segs[id];
    var a := AnnRow(s, u)[j];
    match e
    case Toggle(segId, t, on) => a' == if segId == id && u == t then a.(flags := a.flags.(anchor := on)) else a
    case Start(c, actives) =>
      a' == if TakesPart(actives, id) && u == c.toolStart
            then a.(flags := Flags(true, a.flags.manual || j in s.buffered, a.flags.usedInRun)) else a
    case Keep(toolStart, kept, _) =>
      a' == if id in kept && u == toolStart then a.(flags := Flags(true, a.flags.manual || j in s.buffered, false)) else a
    case Finished(ps) =>
      if w.queue != [] && w.queue[0].segId == id
      then && j < s.ann.width && (forall i | 0 <= i < |ps.rows| :: |ps.rows[i]| == s.ann.width)
           && a' == FinishedAnnotation(s, w.queue[0], w.toolStart, ps, u, j)
      else a' == a
    case _ => a' == a
  }

  lemma SameCloudsSameRow(s: Seg, s': Seg, u: int)
    requires SameClouds(s, s') && Aligned(s) && InCloud(s, u)
    ensures Aligned(s') && InCloud(s', u) && AnnRow(s', u) == AnnRow(s, u)
  {}

  lemma FineIsAligned(s: Seg, u: int)
    requires Fine(s) && InCloud(s, u)
    ensures Good(s) && Sound(s) && Aligned(s) && |AnnRow(s, u)| == s.ann.width
  {
    FineWithSlice(s, u);
    AllRows(s);
  }

  /** What an event makes of the annotation of any point of the cloud. */
  lemma NextMarks(w: Win, e: Event, id: string, u: int, j: nat)
    requires Inv(w) && CanHappen(w, e) && id in w.segs && InCloud(w.segs[id], u) && j < w.segs[id].ann.width
    ensures Aligned(w.segs[id]) && j < |AnnRow(w.segs[id], u)| && id in Next(w, e).segs
    ensures var s' := Next(w, e).segs[id];
            && Aligned(s') && InCloud(s', u) && |AnnRow(s', u)| == w.segs[id].ann.width
            && MarkedAs(w, e, id, u, j, AnnRow(s', u)[j])
  {
    hide Fine, Safe, IsAnchor, InCloud, CleanUp, KeepChanges, Toggled, Finish, Delivers, ActiveFits, ChangedFits, StartAll, Started,
         ModeFits, TakesPart, Prepare, Aligned, Good, FinishedAnnotation, AnnRow, Sound;
    var s := w.segs[id];
    FineIsAligned(s, u);
    match e
    case Toggle(segId, t, on) =>
      if segId == id {
        ToggledMark(s, t, on, u, j);
      }
    case Buffer(segId, points) =>
      SameCloudsSameRow(s, Next(w, e).segs[id], u);
    case Unbuffer(segId, points) =>
      SameCloudsSameRow(s, Next(w, e).segs[id], u);
    case Start(c, actives) =>
      StartMakes(w, c, actives, id);
      if TakesPart(actives, id) {
        PreparedMark(s, c.toolStart, Next(w, e).segs[id], u, j);
      } else {
        SameCloudsSameRow(s, Next(w, e).segs[id], u);
      }
    case Keep(toolStart, kept, leave) =>
      var s1 := KeepAll(w, toolStart, kept).segs[id];
      if id in kept {
        assert KeepFits(w, id, toolStart, kept[id]);
        KeptMark(s, toolStart, kept[id], u, j);
      }
      CleanUpClouds(s1);
      SameCloudsSameRow(s1, Next(w, e).segs[id], u);
    case Finished(ps) =>
      var r := w.queue[0];
      var s1 := if id == r.segId then Finish(s, r, w.toolStart, ps) else s;
      if id == r.segId {
        FinishedMark(s, r, w.toolStart, ps, u, j);
      }
      CleanUpClouds(s1);
      SameCloudsSameRow(s1, Next(w, e).segs[id], u);
    case Failed =>
      CleanUpClouds(s);
      SameCloudsSameRow(s, Next(w, e).segs[id], u);
  }

  lemma ToggledMark(s: Seg, t: int, on: bool, u: int, j: nat)
    requires Good(s) && InCloud(s, u) && j < s.ann.width && |AnnRow(s, u)| == s.ann.width
    ensures var s' := Toggled(s, t, on);
            && Aligned(s') && InCloud(s', u) && |AnnRow(s', u)| == s.ann.width
            && AnnRow(s', u)[j] == var a := AnnRow(s, u)[j]; if u == t then a.(flags := a.flags.(anchor := on)) else a
  {
    hide Toggled;
    ToggledRows(s, t, on);
  }

  lemma PreparedMark(s: Seg, toolStart: int, s': Seg, u: int, j: nat)
    requires Good(s) && InCloud(s, u) && j < s.ann.width && |AnnRow(s, u)| == s.ann.width
    requires exists changed :: Sound(s) && InCloud(s, toolStart) && ChangedFits(s, toolStart, changed)
                               && SameClouds(Prepare(s, toolStart, changed), s') && s'.buffered == {}
    ensures Aligned(s') && InCloud(s', u) && |AnnRow(s', u)| == s.ann.width
    ensures AnnRow(s', u)[j] == var a := AnnRow(s, u)[j];
              if u == toolStart then a.(flags := Flags(true, a.flags.manual || j in s.buffered, a.flags.usedInRun)) else a
  {
    hide Sound, ChangedFits, Prepare, Good, Aligned, AnnRow;
    var changed :| Sound(s) && InCloud(s, toolStart) && ChangedFits(s, toolStart, changed)
                   && SameClouds(Prepare(s, toolStart, changed), s') && s'.buffered == {};
    PrepareMeaning(s, toolStart, changed);
    SameCloudsSameRow(Prepare(s, toolStart, changed), s', u);
  }

  lemma KeptMark(s: Seg, toolStart: int, changed: PointSet, u: int, j: nat)
    requires Good(s) && InCloud(s, u) && j < s.ann.width && |AnnRow(s, u)| == s.ann.width
    requires InCloud(s, toolStart) && ChangedFits(s, toolStart, changed)
    ensures var s' := KeepChanges(s, toolStart, changed);
            && Aligned(s') && InCloud(s', u) && |AnnRow(s', u)| == s.ann.width
            && AnnRow(s', u)[j] == var a := AnnRow(s, u)[j];
                 if u == toolStart then a.(flags := Flags(true, a.flags.manual || j in s.buffered, false)) else a
  {
    hide ChangedFits, KeepChanges, Good, Aligned, AnnRow;
    KeepMeaning(s, toolStart, changed);
  }

  lemma FinishedMark(s: Seg, r: Request, toolStart: int, ps: PointSet, u: int, j: nat)
    requires Good(s) && Safe(s, r, toolStart) && Delivers(s, r, toolStart, ps) && InCloud(s, u) && j < s.ann.width
    ensures forall i | 0 <= i < |ps.rows| :: |ps.rows[i]| == s.ann.width
    ensures var s' := Finish(s, r, toolStart, ps);
            && Aligned(s) && Aligned(s') && InCloud(s', u) && |AnnRow(s', u)| == s.ann.width
            && AnnRow(s', u)[j] == FinishedAnnotation(s, r, toolStart, ps, u, j)
  {
    hide Good, Safe, Delivers, Finish, FinishedAnnotation, FirstSlice;
    FinishKeepsAnchors(s, r, toolStart, ps);
    FinishPoint(s, r, toolStart, ps, u, j);
  }

  /** The points buffered as manually changed after the event. */
  ghost function BufferedAfter(w: Win, e: Event, id: string): set<int>
    requires CanHappen(w, e) && id in w.segs
  {
    var points := w.segs[id].buffered;
    match e
    case Toggle(_, _, _) => points
    case Buffer(segId, more) => if segId == id then points + more else points
    case Unbuffer(segId, fewer) => if segId == id then points - fewer else points
    case Start(c, actives) => if TakesPart(actives, id) || Next(w, e).queue == [] then {} else points
    case Keep(_, kept, leave) => if id in kept || leave then {} else points
    case _ => if |w.queue| == 1 then {} else points
  }

  /** What an event leaves in the buffer: a start or keeping a curve uses it up, and so does leaving the tool. */
  lemma NextBuffered(w: Win, e: Event, id: string)
    requires Inv(w) && CanHappen(w, e) && id in w.segs
    ensures id in Next(w, e).segs && Next(w, e).segs[id].buffered == BufferedAfter(w, e, id)
  {
    hide Fine, Safe, IsAnchor, InCloud, CleanUp, KeepChanges, Finish, Delivers, ActiveFits, ChangedFits, StartAll, Started,
         ModeFits, TakesPart, Prepare, SetAnchor;
    match e
    case Toggle(segId, t, on) =>
      AnchorBuffer(LookedUp(w.segs[segId], t), t, on);
    case Buffer(segId, points) =>
    case Unbuffer(segId, points) =>
    case Start(c, actives) =>
      StartBuffered(w, c, actives, id);
    case Keep(toolStart, kept, leave) =>
      var s1 := KeepAll(w, toolStart, kept).segs[id];
      if id in kept {
        assert KeepFits(w, id, toolStart, kept[id]);
        FineIsAligned(w.segs[id], toolStart);
        KeepMeaning(w.segs[id], toolStart, kept[id]);
      }
      CleanUpClouds(s1);
    case Finished(ps) =>
      var r := w.queue[0];
      FinishBuffer(w.segs[r.segId], r, w.toolStart, ps);
      CleanUpClouds(Finish(w.segs[r.segId], r, w.toolStart, ps));
      CleanUpClouds(w.segs[id]);
    case Failed =>
      CleanUpClouds(w.segs[id]);
  }

  lemma AnchorBuffer(s: Seg, t: int, on: bool)
    ensures SetAnchor(s, t, on).buffered == s.buffered
  {}

  lemma StartBuffered(w: Win, c: Choice, actives: seq<Active>, id: string)
    requires Inv(w) && CanHappen(w, Start(c, actives)) && id in w.segs
    ensures id in Next(w, Start(c, actives)).segs
    ensures Next(w, Start(c, actives)).segs[id].buffered
         == if TakesPart(actives, id) || Next(w, Start(c, actives)).queue == [] then {} else w.segs[id].buffered
  {
    hide Fine, Safe, InCloud, CleanUp, ActiveFits, StartAll, Started, ModeFits, TakesPart;
    StartMakes(w, c, actives, id);
    var w0 := w.(toolStart := c.toolStart);
    forall a | a in actives ensures a.segId in w0.segs {
      ActiveElsewhere(w, w0, a, c);
    }
    StartAllSegments(w0, c, actives, id);
    CleanUpClouds(StartAll(w0, c, actives).segs[id]);
  }

  lemma {:induction false} StoreBuffer(s: Seg, ps: PointSet, i: nat)
    ensures SetOriginalPos(s, ps, i).buffered == s.buffered
    decreases |ps.rows| - i
  {
    hide CanStore, RowIndex;
    if i < |ps.rows| && CanStore(s, ps, i) {
      StoreHere(s, ps, i);
      var r := RowIndex(s, ps.rows[i][0].z);
      StoreBuffer(ReplaceRow(s, r, WithPositions(s.ann.rows[r], ps.rows[i])), ps, i + 1);
    }
  }

  lemma StoreHere(s: Seg, ps: PointSet, i: nat)
    requires i < |ps.rows| && CanStore(s, ps, i)
    ensures ps.rows[i] != []
    ensures 0 <= RowIndex(s, ps.rows[i][0].z) < |s.ann.rows|
    ensures |ps.rows[i]| == |s.ann.rows[RowIndex(s, ps.rows[i][0].z)]|
  {}

  lemma FinishBuffer(s: Seg, r: Request, toolStart: int, ps: PointSet)
    ensures Finish(s, r, toolStart, ps).buffered == s.buffered
  {
    hide Merge, SetUsedInRun, SetOriginalPos;
    var s1 := Merge(s, ps);
    MergeFrame(s, ps);
    UsedInRunBuffer(s1, StartSlice(r, toolStart), true);
    StoreBuffer(SetUsedInRun(s1, StartSlice(r, toolStart), true), ps, 0);
  }

  // ----- toggling -----

  /** Toggling sets the anchor bit of every point of the slice as the user wants it, if the slice is in the cloud, and
      leaves everything else as it was: other bits, positions, slices, points, segments and the queue. */
  lemma ToggleMeaning(w: Win, segId: string, t: int, on: bool)
    requires Inv(w) && CanHappen(w, Toggle(segId, t, on))
    ensures var w' := Next(w, Toggle(segId, t, on));
            && segId in w.segs && segId in w'.segs && w' == w.(segs := w.segs[segId := w'.segs[segId]])
            && var s, s' := w.segs[segId], w'.segs[segId];
               && s'.master == s.master && s'.buffered == s.buffered && s'.minSlice == s.minSlice
               && (forall u :: IsAnchor(s', u) == if u == t && InCloud(s, t) then on else IsAnchor(s, u))
               && (Aligned(s) ==>
                     && Aligned(s') && Base(s') == Base(s) && Top(s') == Top(s)
                     && (forall u | InCloud(s, u) :: |AnnRow(s, u)| == |AnnRow(s', u)| == s.ann.width)
                     && forall u, j {:trigger AnnRow(s', u)[j]} | InCloud(s, u) && 0 <= j < s.ann.width ::
                          AnnRow(s', u)[j] == var a := AnnRow(s, u)[j]; if u == t then a.(flags := a.flags.(anchor := on)) else a)
  {
    hide Fine, IsAnchor, Aligned, Toggled, InCloud, AnnRow;
    var s := w.segs[segId];
    ToggledAnchors(s, t, on);
    ToggledFrame(s, t, on);
    if Aligned(s) {
      ToggledRows(s, t, on);
    }
  }

  lemma ToggledRows(s: Seg, t: int, on: bool)
    requires Aligned(s)
    ensures var s' := Toggled(s, t, on);
            && Aligned(s') && Base(s') == Base(s) && Top(s') == Top(s)
            && (forall u | InCloud(s, u) :: |AnnRow(s, u)| == |AnnRow(s', u)| == s.ann.width)
            && forall u, j {:trigger AnnRow(s', u)[j]} | InCloud(s, u) && 0 <= j < s.ann.width ::
                 AnnRow(s', u)[j] == var a := AnnRow(s, u)[j]; if u == t then a.(flags := a.flags.(anchor := on)) else a
  {
    hide SetAnchor, InsertDefaults;
    AnchorMarks(LookedUp(s, t), t, on);
    AllRows(s);
    AllRows(Toggled(s, t, on));
  }

  lemma ToggledFrame(s: Seg, t: int, on: bool)
    ensures var s' := Toggled(s, t, on); s'.master == s.master && s'.buffered == s.buffered && s'.minSlice == s.minSlice
  {}
}
