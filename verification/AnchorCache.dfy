/** The decoded anchor flag of every slice agrees with the anchor bits of its
    annotation row, through any sequence of operations, so the searches for the
    nearest anchor find the anchors of the cloud. */
module AnchorCache {
  import opened Geometry
  import opened Segmentation

  predicate HasAnchorBit(row: AnnotationRow) {
    exists j :: 0 <= j < |row| && row[j].flags.anchor
  }

  /** Does slice t carry an anchor bit in the annotation cloud? */
  predicate IsAnchor(s: Seg, t: int) {
    InCloud(s, t) && t - Base(s) < |s.ann.rows| && HasAnchorBit(s.ann.rows[t - Base(s)])
  }

  /** A slice without a cache entry counts as having default annotations. */
  ghost predicate Coherent(s: Seg) {
    forall t :: CacheEntry(s.cache, t).anchor == IsAnchor(s, t)
  }

  predicate BufferFits(s: Seg) {
    forall j | j in s.buffered :: 0 <= j < s.ann.width
  }

  ghost predicate Good(s: Seg) {
    Aligned(s) && Coherent(s) && BufferFits(s)
  }

  // ----- single operations -----

  /** Replacing row r by one with the same slices keeps the clouds aligned. */
  lemma ReplaceKeepsAligned(s: Seg, r: nat, row: AnnotationRow)
    requires Aligned(s) && r < |s.ann.rows|
    requires |row| == |s.ann.rows[r]| && forall j | 0 <= j < |row| :: row[j].slice == s.ann.rows[r][j].slice
    ensures var s' := ReplaceRow(s, r, row);
            Aligned(s') && Base(s') == Base(s) && Top(s') == Top(s)
  {
    var s' := ReplaceRow(s, r, row);
    forall i | 0 <= i < |s'.ann.rows| ensures AnnotatesSlice(s'.ann.rows[i], s'.ann.width, Base(s) + i) {
      assert AnnotatesSlice(s.ann.rows[i], s.ann.width, Base(s) + i);
    }
  }

  // ----- what the marking operations do to every point -----

  /** Marking slice t as used (or not) changes that bit on all of its points and nothing else. */
  lemma UsedInRunMarks(s: Seg, t: int, used: bool)
    requires Aligned(s)
    ensures var s' := SetUsedInRun(s, t, used);
            && Aligned(s') && Base(s') == Base(s) && Top(s') == Top(s) && s'.master == s.master && s'.ann.width == s.ann.width
            && (forall u :: CacheEntry(s'.cache, u)
                  == var f := CacheEntry(s.cache, u); if u == t && InCloud(s, t) then f.(usedInRun := used) else f)
            && forall u, j | InCloud(s, u) && 0 <= j < s.ann.width ::
                 AnnRow(s', u)[j] == var a := AnnRow(s, u)[j]; if u == t then a.(flags := a.flags.(usedInRun := used)) else a
  {
    RowIndexIs(s, t);
    AllRows(s);
    if InCloud(s, t) {
      ReplaceKeepsAligned(s, t - Base(s), WithUsedInRun(s.ann.rows[t - Base(s)], used));
    }
  }

  /** Confirming the buffered points on slice t marks exactly those points of the slice. */
  lemma ManualMarks(s: Seg, t: int)
    requires Aligned(s) && InCloud(s, t)
    ensures var s' := SetManualPoints(s, t);
            && Aligned(s') && Base(s') == Base(s) && Top(s') == Top(s) && s'.master == s.master && s'.ann.width == s.ann.width
            && s'.buffered == {}
            && (forall u :: u in s'.cache <==> u in s.cache)
            && (forall u | u in s.cache ::
                  s'.cache[u] == var f := s.cache[u]; if u == t && s.buffered != {} then f.(manual := true) else f)
            && forall u, j {:trigger AnnRow(s', u)[j]} | InCloud(s, u) && 0 <= j < s.ann.width ::
                 AnnRow(s', u)[j] == var a := AnnRow(s, u)[j];
                                     if u == t && j in s.buffered then a.(flags := a.flags.(manual := true)) else a
  {
    RowIndexIs(s, t);
    AllRows(s);
    if s.buffered != {} {
      ReplaceKeepsAligned(s, t - Base(s), WithManual(s.ann.rows[t - Base(s)], s.buffered));
    }
  }

  /** Switching the anchor of slice t changes that bit on all of its points and nothing else. */
  lemma AnchorMarks(s: Seg, t: int, anchor: bool)
    requires Aligned(s)
    ensures var s' := SetAnchor(s, t, anchor);
            && Aligned(s') && Base(s') == Base(s) && Top(s') == Top(s) && s'.master == s.master && s'.ann.width == s.ann.width
            && s'.buffered == s.buffered
            && (forall u :: CacheEntry(s'.cache, u)
                  == var f := CacheEntry(s.cache, u); if u == t && InCloud(s, t) then f.(anchor := anchor) else f)
            && forall u, j | InCloud(s, u) && 0 <= j < s.ann.width ::
                 AnnRow(s', u)[j] == var a := AnnRow(s, u)[j]; if u == t then a.(flags := a.flags.(anchor := anchor)) else a
  {
    RowIndexIs(s, t);
    AllRows(s);
    if InCloud(s, t) {
      ReplaceKeepsAligned(s, t - Base(s), WithAnchor(s.ann.rows[t - Base(s)], anchor));
    }
  }

  lemma AllRows(s: Seg)
    requires Aligned(s)
    ensures forall u | InCloud(s, u) :: |AnnRow(s, u)| == s.ann.width
  {
    forall u | InCloud(s, u) ensures |AnnRow(s, u)| == s.ann.width {
      RowOf(s, u);
    }
  }

  /** s' has the clouds of s but for the positions of the slices that ps has rows for, from row i up to row n: they
      are those of the rows. */
  ghost predicate PositionsTaken(s: Seg, s': Seg, ps: PointSet, lo: int, i: nat, n: nat)
    requires Aligned(s) && n <= |ps.rows| && forall p | 0 <= p < |ps.rows| :: |ps.rows[p]| == s.ann.width
  {
    && Aligned(s') && Base(s') == Base(s) && Top(s') == Top(s) && s'.master == s.master && s'.ann.width == s.ann.width
    && (forall u | InCloud(s, u) :: |AnnRow(s, u)| == |AnnRow(s', u)| == s.ann.width)
    && forall u, j {:trigger AnnRow(s', u)[j]} | InCloud(s, u) && 0 <= j < s.ann.width ::
         AnnRow(s', u)[j] == var a := AnnRow(s, u)[j];
                             if lo + i <= u < lo + n then a.(x := ps.rows[u - lo][j].x, y := ps.rows[u - lo][j].y) else a
  }

  /** Storing contiguous rows of the cloud from row i on gives their slices the positions of the rows. */
  lemma {:induction false} PositionsStored(s: Seg, ps: PointSet, lo: int, i: nat)
    requires Aligned(s) && i <= |ps.rows|
    requires ps.rows != [] ==> Incoming(s, ps, lo) && Base(s) <= lo && lo + |ps.rows| - 1 <= Top(s)
    ensures forall p | 0 <= p < |ps.rows| :: |ps.rows[p]| == s.ann.width
    ensures PositionsTaken(s, SetOriginalPos(s, ps, i), ps, lo, i, |ps.rows|)
    decreases |ps.rows| - i
  {
    IncomingWidths(s, ps, lo);
    if i < |ps.rows| {
      hide Aligned, ReplaceRow, WithPositions, SetOriginalPos, SliceRows, CanStore, RowIndex, InCloud, AnnRow;
      StoreOne(s, ps, lo, i);
      var r := lo + i - Base(s);
      var s1 := ReplaceRow(s, r, WithPositions(s.ann.rows[r], ps.rows[i]));
      PositionsStored(s1, ps, lo, i + 1);
      PositionsJoin(s, s1, SetOriginalPos(s, ps, i), ps, lo, i);
    }
  }

  lemma PositionsJoin(s: Seg, s1: Seg, s': Seg, ps: PointSet, lo: int, i: nat)
    requires Aligned(s) && Aligned(s1) && i < |ps.rows| && forall p | 0 <= p < |ps.rows| :: |ps.rows[p]| == s.ann.width
    requires PositionsTaken(s, s1, ps, lo, i, i + 1) && PositionsTaken(s1, s', ps, lo, i + 1, |ps.rows|)
    ensures PositionsTaken(s, s', ps, lo, i, |ps.rows|)
  {
    hide Aligned;
    forall u, j | InCloud(s, u) && 0 <= j < s.ann.width
      ensures AnnRow(s', u)[j] == var a := AnnRow(s, u)[j];
              if lo + i <= u < lo + |ps.rows| then a.(x := ps.rows[u - lo][j].x, y := ps.rows[u - lo][j].y) else a
    {
      var a := AnnRow(s1, u)[j];
    }
  }

  lemma IncomingWidths(s: Seg, ps: PointSet, lo: int)
    requires Aligned(s) && (ps.rows != [] ==> Incoming(s, ps, lo))
    ensures forall p | 0 <= p < |ps.rows| :: |ps.rows[p]| == s.ann.width
    ensures forall u | InCloud(s, u) :: |AnnRow(s, u)| == s.ann.width
  {
    AllRows(s);
    forall p | 0 <= p < |ps.rows| ensures |ps.rows[p]| == s.ann.width {
      assert SliceRow(ps.rows[p], ps.width, lo + p);
    }
  }

  lemma StoreOne(s: Seg, ps: PointSet, lo: int, i: nat)
    requires Aligned(s) && Incoming(s, ps, lo) && i < |ps.rows|
    requires Base(s) <= lo && lo + |ps.rows| - 1 <= Top(s)
    ensures forall p | 0 <= p < |ps.rows| :: |ps.rows[p]| == s.ann.width
    ensures CanStore(s, ps, i) && RowIndex(s, ps.rows[i][0].z) == lo + i - Base(s)
    ensures var r := lo + i - Base(s);
            var s1 := ReplaceRow(s, r, WithPositions(s.ann.rows[r], ps.rows[i]));
            && Aligned(s1) && Incoming(s1, ps, lo) && Base(s1) == Base(s) && Top(s1) == Top(s) && s1.ann.width == s.ann.width
            && PositionsTaken(s, s1, ps, lo, i, i + 1)
            && SetOriginalPos(s, ps, i) == SetOriginalPos(s1, ps, i + 1)
  {
    IncomingWidths(s, ps, lo);
    assert SliceRow(ps.rows[i], ps.width, lo + i);
    RowIndexIs(s, lo + i);
    var r := lo + i - Base(s);
    ReplaceKeepsAligned(s, r, WithPositions(s.ann.rows[r], ps.rows[i]));
    AllRows(ReplaceRow(s, r, WithPositions(s.ann.rows[r], ps.rows[i])));
  }

  /** A reset from a slice of the cloud clears the flags of every point of the cloud from slice a to slice b
      but the one it skips; from any other slice it does nothing. */
  lemma ResetMarks(s: Seg, a: int, b: int)
    requires Aligned(s)
    ensures var s' := ResetAnnotations(s, a, b);
            && |s'.ann.rows| == |s.ann.rows| && s'.master == s.master && s'.ann.width == s.ann.width
            && (forall u | InCloud(s, u) :: |s'.ann.rows[u - Base(s)]| == s.ann.width)
            && forall u, j | InCloud(s, u) && 0 <= j < s.ann.width ::
                 s'.ann.rows[u - Base(s)][j]
                    == var c := AnnRow(s, u)[j];
                       if InCloud(s, a) && Min(a, b) <= u <= Max(a, b) && !(u == b && j == if a < b then s.ann.width - 1 else 0)
                       then Cleared(c) else c
  {
    RowIndexIs(s, a);
    AllRows(s);
  }

  // ----- anchors -----

  lemma SetAnchorGood(s: Seg, t: int, anchor: bool)
    requires Good(s)
    ensures var s' := SetAnchor(s, t, anchor);
            && Good(s') && Base(s') == Base(s) && s'.master == s.master
            && (InCloud(s, t) ==> IsAnchor(s', t) == anchor)
            && forall u | u != t :: InCloud(s, u) ==> AnnRow(s', u) == AnnRow(s, u)
  {
    RowIndexIs(s, t);
    if InCloud(s, t) {
      var r, s' := t - Base(s), SetAnchor(s, t, anchor);
      var row := WithAnchor(s.ann.rows[r], anchor);
      ReplaceKeepsAligned(s, r, row);
      RowOf(s, t);
      assert HasAnchorBit(row) == anchor by {
        assert row[0].flags.anchor == anchor;
      }
      forall u ensures CacheEntry(s'.cache, u).anchor == IsAnchor(s', u) {
        assert CacheEntry(s.cache, u).anchor == IsAnchor(s, u);
      }
    }
  }

  lemma SetUsedInRunGood(s: Seg, t: int, used: bool)
    requires Good(s)
    ensures var s' := SetUsedInRun(s, t, used);
            Good(s') && SameAnchors(s, s') && s'.buffered == s.buffered
  {
    RowIndexIs(s, t);
    if InCloud(s, t) {
      var r, s' := t - Base(s), SetUsedInRun(s, t, used);
      var row := WithUsedInRun(s.ann.rows[r], used);
      ReplaceKeepsAligned(s, r, row);
      assert SameBits(s.ann.rows[r], row);
      SameBitsSameAnchors(s, s');
      forall u ensures CacheEntry(s'.cache, u).anchor == IsAnchor(s', u) {
        assert CacheEntry(s.cache, u).anchor == IsAnchor(s, u);
      }
    }
  }

  /** The anchor bits of two rows agree point by point. */
  predicate SameBits(row: AnnotationRow, row': AnnotationRow) {
    |row| == |row'| && forall j | 0 <= j < |row| :: row[j].flags.anchor == row'[j].flags.anchor
  }

  /** Master rows and anchor bits are the same in both states. */
  ghost predicate SameAnchors(s: Seg, s': Seg) {
    && s'.master == s.master && |s'.ann.rows| == |s.ann.rows|
    && forall i | 0 <= i < |s.ann.rows| :: SameBits(s.ann.rows[i], s'.ann.rows[i])
  }

  lemma SameBitsSameAnchors(s: Seg, s': Seg)
    requires SameAnchors(s, s')
    ensures forall t :: IsAnchor(s', t) == IsAnchor(s, t)
  {
    forall t ensures IsAnchor(s', t) == IsAnchor(s, t) {
      if InCloud(s, t) && t - Base(s) < |s.ann.rows| {
        SameBitsSameRow(s.ann.rows[t - Base(s)], s'.ann.rows[t - Base(s)]);
      }
    }
  }

  lemma SameBitsSameRow(row: AnnotationRow, row': AnnotationRow)
    requires SameBits(row, row')
    ensures HasAnchorBit(row) == HasAnchorBit(row')
  {
    if HasAnchorBit(row) {
      var j :| 0 <= j < |row| && row[j].flags.anchor;
      assert row'[j].flags.anchor;
    }
    if HasAnchorBit(row') {
      var j :| 0 <= j < |row'| && row'[j].flags.anchor;
      assert row[j].flags.anchor;
    }
  }

  lemma SetManualPointsGood(s: Seg, t: int)
    requires Good(s)
    ensures var s' := SetManualPoints(s, t);
            Good(s') && SameAnchors(s, s')
  {
    RowIndexIs(s, t);
    if InCloud(s, t) && s.buffered != {} {
      var r, s' := t - Base(s), SetManualPoints(s, t);
      var row := WithManual(s.ann.rows[r], s.buffered);
      ReplaceKeepsAligned(s, r, row);
      assert SameBits(s.ann.rows[r], row);
      SameBitsSameAnchors(s, s');
      forall u ensures CacheEntry(s'.cache, u).anchor == IsAnchor(s', u) {
        assert CacheEntry(s.cache, u).anchor == IsAnchor(s, u);
      }
    }
  }

  /** Every row of ps from i on belongs to a slice of the cloud. */
  predicate RowsInCloud(s: Seg, ps: PointSet, i: nat) {
    forall p | i <= p < |ps.rows| :: 0 < |ps.rows[p]| == s.ann.width && InCloud(s, ps.rows[p][0].z)
  }

  lemma {:induction false} SetOriginalPosGood(s: Seg, ps: PointSet, i: nat)
    requires Good(s) && RowsInCloud(s, ps, i)
    ensures var s' := SetOriginalPos(s, ps, i);
            Good(s') && SameAnchors(s, s') && s'.cache == s.cache && s'.buffered == s.buffered
    decreases |ps.rows| - i
  {
    if i < |ps.rows| {
      var t := ps.rows[i][0].z;
      RowIndexIs(s, t);
      RowOf(s, t);
      var r := t - Base(s);
      var row := WithPositions(s.ann.rows[r], ps.rows[i]);
      var s1 := ReplaceRow(s, r, row);
      ReplaceKeepsAligned(s, r, row);
      assert SameBits(s.ann.rows[r], row);
      SameBitsSameAnchors(s, s1);
      SetOriginalPosGood(s1, ps, i + 1);
      SameAnchorsTrans(s, s1, SetOriginalPos(s1, ps, i + 1));
    }
  }

  lemma SameAnchorsTrans(s: Seg, s1: Seg, s2: Seg)
    requires SameAnchors(s, s1) && SameAnchors(s1, s2)
    ensures SameAnchors(s, s2)
  {
    forall i | 0 <= i < |s.ann.rows| ensures SameBits(s.ann.rows[i], s2.ann.rows[i]) {
      assert SameBits(s.ann.rows[i], s1.ann.rows[i]) && SameBits(s1.ann.rows[i], s2.ann.rows[i]);
    }
  }

  /** The slices from a to b, in either direction, lie in the cloud and carry no anchor bit. */
  ghost predicate AnchorFree(s: Seg, a: int, b: int) {
    forall t | Min(a, b) <= t <= Max(a, b) :: !IsAnchor(s, t)
  }

  predicate RangeInCloud(s: Seg, a: int, b: int) {
    InCloud(s, a) && InCloud(s, b)
  }

  /** Resetting an anchor-free range, in the cloud or not, changes no anchor bit and nothing at all outside the range. */
  lemma ResetGood(s: Seg, a: int, b: int)
    requires Good(s) && AnchorFree(s, a, b)
    ensures var s' := ResetAnnotations(s, a, b);
            && Good(s') && SameAnchors(s, s') && s'.cache == s.cache && s'.buffered == s.buffered
            && forall t | InCloud(s, t) && !(Min(a, b) <= t <= Max(a, b)) :: AnnRow(s', t) == AnnRow(s, t)
  {
    RowIndexIs(s, a);
    if InCloud(s, a) {
      ResetInCloud(s, a, b);
    } else {
      forall i | 0 <= i < |s.ann.rows| ensures SameBits(s.ann.rows[i], s.ann.rows[i]) {}
    }
  }

  lemma ResetInCloud(s: Seg, a: int, b: int)
    requires Good(s) && InCloud(s, a) && AnchorFree(s, a, b)
    ensures var s' := ResetAnnotations(s, a, b);
            && Good(s') && SameAnchors(s, s') && s'.cache == s.cache && s'.buffered == s.buffered
            && forall t | InCloud(s, t) && !(Min(a, b) <= t <= Max(a, b)) :: AnnRow(s', t) == AnnRow(s, t)
  {
    RowIndexIs(s, a);
    var s', base, ra := ResetAnnotations(s, a, b), Base(s), a - Base(s);
    var rb := ra + (b - a);
    forall i | 0 <= i < |s.ann.rows|
      ensures SameBits(s.ann.rows[i], s'.ann.rows[i]) && AnnotatesSlice(s'.ann.rows[i], s.ann.width, base + i)
      ensures !(Min(a, b) <= base + i <= Max(a, b)) ==> s'.ann.rows[i] == s.ann.rows[i]
    {
      RowOf(s, base + i);
      var row, row' := s.ann.rows[i], SweptRow(s.ann.rows[i], ra, rb, i);
      if Min(a, b) <= base + i <= Max(a, b) {
        assert !IsAnchor(s, base + i);
        assert forall j | 0 <= j < |row| :: !row[j].flags.anchor;
      } else {
        assert row' == row;
      }
    }
    SameBitsSameAnchors(s, s');
    forall u ensures CacheEntry(s'.cache, u).anchor == IsAnchor(s', u) {
      assert CacheEntry(s.cache, u).anchor == IsAnchor(s, u);
    }
  }

  /** The one point of the range the sweep leaves out: the last point of the last slice
      going up, the first point of the last slice going down. */
  function SkippedPoint(s: Seg, a: int, b: int): Annotation
    requires Aligned(s) && RangeInCloud(s, a, b)
  {
    RowOf(s, b);
    if a < b then AnnRow(s, b)[s.ann.width - 1] else AnnRow(s, b)[0]
  }

  ghost predicate NoFlagsOn(s: Seg, a: int, b: int)
    requires Aligned(s) && RangeInCloud(s, a, b)
  {
    forall t, j | Min(a, b) <= t <= Max(a, b) && 0 <= j < |AnnRow(s, t)| :: AnnRow(s, t)[j].flags == NO_FLAGS
  }

  /** A reset clears every flag on its slices exactly when the skipped point had none. */
  lemma ResetClearsIff(s: Seg, a: int, b: int)
    requires Good(s) && RangeInCloud(s, a, b) && AnchorFree(s, a, b)
    ensures var s' := ResetAnnotations(s, a, b);
            && Aligned(s') && RangeInCloud(s', a, b)
            && (NoFlagsOn(s', a, b) <==> SkippedPoint(s, a, b).flags == NO_FLAGS)
  {
    hide ResetAnnotations, IsAnchor, Coherent, Cleared;
    ResetGood(s, a, b);
    ResetMarks(s, a, b);
    RowOf(s, b);
    AllRows(s);
    var s' := ResetAnnotations(s, a, b);
    AllRows(s');
    var skipped := if a < b then s.ann.width - 1 else 0;
    assert AnnRow(s', b)[skipped] == AnnRow(s, b)[skipped];
    if SkippedPoint(s, a, b).flags == NO_FLAGS {
      forall t, j | Min(a, b) <= t <= Max(a, b) && 0 <= j < |AnnRow(s', t)|
        ensures AnnRow(s', t)[j].flags == NO_FLAGS
      {
        ClearedHasNoFlags(AnnRow(s, t)[j]);
      }
    }
  }

  lemma ClearedHasNoFlags(a: Annotation)
    ensures Cleared(a).flags == NO_FLAGS
  {}

  lemma {:induction false} DecodedIs(rows: seq<AnnotationRow>, w: nat, base: int, n: nat, t: int)
    requires 0 < w && AnnotationRows(rows, w, base) && n <= |rows|
    ensures (t in Decoded(rows, n)) == (base <= t < base + n)
    ensures base <= t < base + n ==> Decoded(rows, n)[t] == RowFlags(rows[t - base])
  {
    if n > 0 {
      DecodedIs(rows, w, base, n - 1, t);
      assert AnnotatesSlice(rows[n - 1], w, base + (n - 1));
    }
  }

  /** Rebuilding makes the cache the exact decoding of the rows, whatever it held before. */
  lemma SetUpAnnotationsGood(s: Seg)
    requires Aligned(s) && BufferFits(s)
    ensures var s' := SetUpAnnotations(s);
            && Good(s') && s' == s.(cache := s'.cache)
            && forall t :: CacheEntry(s'.cache, t) == if InCloud(s, t) then RowFlags(AnnRow(s, t)) else NO_FLAGS
  {
    RowIndexIs(s, 0);
    var s' := SetUpAnnotations(s);
    forall t
      ensures CacheEntry(s'.cache, t) == if InCloud(s, t) then RowFlags(AnnRow(s, t)) else NO_FLAGS
      ensures CacheEntry(s'.cache, t).anchor == IsAnchor(s', t)
    {
      DecodedIs(s.ann.rows, s.ann.width, Base(s), |s.ann.rows|, t);
    }
  }

  lemma LookUpGood(s: Seg, t: int, n: int)
    requires Good(s)
    ensures var s' := LookUpLower(s, t); Good(s') && s' == s.(cache := s'.cache) && SameAnchors(s, s')
    ensures var s' := LookUpHigher(s, t, n); Good(s') && s' == s.(cache := s'.cache) && SameAnchors(s, s')
  {
    forall u
      ensures CacheEntry(LookUpLower(s, t).cache, u) == CacheEntry(s.cache, u)
      ensures CacheEntry(LookUpHigher(s, t, n).cache, u) == CacheEntry(s.cache, u)
      ensures IsAnchor(LookUpLower(s, t), u) == IsAnchor(s, u) == IsAnchor(LookUpHigher(s, t, n), u)
    {}
  }

  /** The search below t returns the nearest anchor of the cloud, or -1 when there is none. */
  lemma {:induction false} NearestLowerIs(s: Seg, t: int)
    requires Coherent(s) && s.minSlice >= 0
    ensures var r := NearestLower(s.cache, t, s.minSlice);
            && (r == -1 || (s.minSlice <= r < t && IsAnchor(s, r)))
            && forall u | s.minSlice <= u < t && (r == -1 || r < u) :: !IsAnchor(s, u)
    decreases t - s.minSlice
  {
    if t - 1 >= s.minSlice {
      assert CacheEntry(s.cache, t - 1).anchor == IsAnchor(s, t - 1);
      if !CacheEntry(s.cache, t - 1).anchor {
        NearestLowerIs(s, t - 1);
      }
    }
  }

  /** The search above t returns the nearest anchor of the cloud within n slices, or -1. */
  lemma {:induction false} NearestHigherIs(s: Seg, t: int, n: int)
    requires Coherent(s) && t >= -1
    ensures var r := NearestHigher(s.cache, t, n);
            && (r == -1 || (t < r < n && IsAnchor(s, r)))
            && forall u | t < u < n && (r == -1 || u < r) :: !IsAnchor(s, u)
    decreases n - t
  {
    if t + 1 < n {
      assert CacheEntry(s.cache, t + 1).anchor == IsAnchor(s, t + 1);
      if !CacheEntry(s.cache, t + 1).anchor {
        NearestHigherIs(s, t + 1, n);
      }
    }
  }

  lemma DefaultRowHasNoAnchor(width: nat, t: int)
    ensures !HasAnchorBit(DefaultRow(width, t))
  {}

  lemma MergeFrame(s: Seg, ps: PointSet)
    ensures var s' := Merge(s, ps);
            s'.cache == s.cache && s'.buffered == s.buffered && s'.ann.width == s.ann.width
            && s'.minSlice == s.minSlice && s'.master.width == s.master.width
  {}

  lemma AnchorIsRowBit(s: Seg, t: int)
    requires Aligned(s)
    ensures IsAnchor(s, t) == (InCloud(s, t) && HasAnchorBit(AnnRow(s, t)))
  {}

  /** A touching one-sided merge moves no anchor bit. */
  lemma MergeGood(s: Seg, ps: PointSet, lo: int)
    requires Good(s) && Incoming(s, ps, lo)
    requires Touches(s, lo, lo + |ps.rows| - 1) && OneSided(s, lo, lo + |ps.rows| - 1)
    ensures var s' := Merge(s, ps);
            Good(s') && forall t :: IsAnchor(s', t) == IsAnchor(s, t)
  {
    hide Merge, DefaultRow, Aligned, HasAnchorBit, IsAnchor;
    MergeMeaning(s, ps, lo);
    MergeFrame(s, ps);
    var s' := Merge(s, ps);
    forall t
      ensures IsAnchor(s', t) == IsAnchor(s, t)
      ensures CacheEntry(s'.cache, t).anchor == IsAnchor(s', t)
    {
      assert CacheEntry(s.cache, t).anchor == IsAnchor(s, t);
      AnchorIsRowBit(s, t);
      AnchorIsRowBit(s', t);
      DefaultRowHasNoAnchor(s.ann.width, t);
      if InCloud(s', t) {
        assert AnnRow(s', t) == if InCloud(s, t) then AnnRow(s, t) else DefaultRow(s.ann.width, t);
      }
    }
  }

  // ----- any sequence of operations -----

  datatype Op =
    | ToggleAnchor(t: int, on: bool)
    | BufferPoints(points: set<int>)
    | MarkManual(t: int)
    | MarkUsedInRun(t: int, on: bool)
    | StorePositions(ps: PointSet)
    | MergeRows(ps: PointSet)
    | ClearRange(a: int, b: int)
    | Rebuild
    | SearchLower(t: int)
    | SearchHigher(t: int, n: int)

  /** What the source guarantees when it performs the operation: indices in range,
      merges that touch the cloud on one side, and resets of anchor-free ranges. */
  ghost predicate Enabled(s: Seg, op: Op) {
    match op
    case BufferPoints(points) => forall j | j in points :: 0 <= j < s.ann.width
    case StorePositions(ps) => RowsInCloud(s, ps, 0)
    case MergeRows(ps) =>
      exists lo :: Incoming(s, ps, lo) && Touches(s, lo, lo + |ps.rows| - 1) && OneSided(s, lo, lo + |ps.rows| - 1)
    case ClearRange(a, b) => AnchorFree(s, a, b)
    case _ => true
  }

  function Apply(s: Seg, op: Op): Seg {
    match op
    case ToggleAnchor(t, on) => SetAnchor(s, t, on)
    case BufferPoints(points) => s.(buffered := s.buffered + points)
    case MarkManual(t) => SetManualPoints(s, t)
    case MarkUsedInRun(t, on) => SetUsedInRun(s, t, on)
    case StorePositions(ps) => SetOriginalPos(s, ps, 0)
    case MergeRows(ps) => Merge(s, ps)
    case ClearRange(a, b) => ResetAnnotations(s, a, b)
    case Rebuild => SetUpAnnotations(s)
    case SearchLower(t) => LookUpLower(s, t)
    case SearchHigher(t, n) => LookUpHigher(s, t, n)
  }

  /** Only toggling changes which slices are anchors, and only the toggled one. */
  lemma ApplyGood(s: Seg, op: Op)
    requires Good(s) && Enabled(s, op)
    ensures var s' := Apply(s, op);
            && Good(s')
            && forall t :: IsAnchor(s', t) ==
                 (if op.ToggleAnchor? && op.t == t && InCloud(s, t) then op.on else IsAnchor(s, t))
  {
    hide Aligned, Coherent, SetAnchor, SetUsedInRun, SetManualPoints, SetOriginalPos, Merge, ResetAnnotations,
         SetUpAnnotations, LookUpLower, LookUpHigher, IsAnchor;
    var s' := Apply(s, op);
    match op
    case ToggleAnchor(t, on) =>
      SetAnchorGood(s, t, on);
      ToggleElsewhere(s, t, on);
    case BufferPoints(points) =>
      BufferGood(s, points);
    case MarkManual(t) =>
      SetManualPointsGood(s, t);
      SameBitsSameAnchors(s, s');
    case MarkUsedInRun(t, on) =>
      SetUsedInRunGood(s, t, on);
      SameBitsSameAnchors(s, s');
    case StorePositions(ps) =>
      SetOriginalPosGood(s, ps, 0);
      SameBitsSameAnchors(s, s');
    case MergeRows(ps) =>
      var lo :| Incoming(s, ps, lo) && Touches(s, lo, lo + |ps.rows| - 1) && OneSided(s, lo, lo + |ps.rows| - 1);
      MergeGood(s, ps, lo);
    case ClearRange(a, b) =>
      ResetGood(s, a, b);
      SameBitsSameAnchors(s, s');
    case Rebuild =>
      SetUpAnnotationsGood(s);
      assert SameAnchors(s, s');
      SameBitsSameAnchors(s, s');
    case SearchLower(t) =>
      LookUpGood(s, t, 0);
      SameBitsSameAnchors(s, s');
    case SearchHigher(t, n) =>
      LookUpGood(s, t, n);
      SameBitsSameAnchors(s, s');
  }

  lemma BufferGood(s: Seg, points: set<int>)
    requires Good(s) && forall j | j in points :: 0 <= j < s.ann.width
    ensures var s' := s.(buffered := s.buffered + points);
            Good(s') && forall t :: IsAnchor(s', t) == IsAnchor(s, t)
  {
    var s' := s.(buffered := s.buffered + points);
    forall t ensures IsAnchor(s', t) == IsAnchor(s, t) {}
    forall t ensures CacheEntry(s'.cache, t).anchor == IsAnchor(s', t) {
      assert CacheEntry(s.cache, t).anchor == IsAnchor(s, t);
    }
  }

  lemma ToggleElsewhere(s: Seg, t: int, on: bool)
    requires Good(s)
    ensures var s' := SetAnchor(s, t, on);
            forall u :: IsAnchor(s', u) == (if u == t && InCloud(s, t) then on else IsAnchor(s, u))
  {
    SetAnchorGood(s, t, on);
    RowIndexIs(s, t);
    var s' := SetAnchor(s, t, on);
    forall u ensures IsAnchor(s', u) == (if u == t && InCloud(s, t) then on else IsAnchor(s, u)) {
      assert u != t && InCloud(s, u) ==> AnnRow(s', u) == AnnRow(s, u);
    }
  }

  ghost predicate Run(s: Seg, ops: seq<Op>)
    decreases |ops|
  {
    ops == [] || (Enabled(s, ops[0]) && Run(Apply(s, ops[0]), ops[1..]))
  }

  function After(s: Seg, ops: seq<Op>): Seg
    decreases |ops|
  {
    if ops == [] then s else After(Apply(s, ops[0]), ops[1..])
  }

  /** After any sequence of operations the cache still agrees with the anchor bits, and a
      slice no operation toggled is an anchor exactly if it was one. */
  lemma {:induction false} RunGood(s: Seg, ops: seq<Op>, t: int)
    requires Good(s) && Run(s, ops)
    ensures Good(After(s, ops))
    ensures (forall i | 0 <= i < |ops| :: !(ops[i].ToggleAnchor? && ops[i].t == t))
            ==> IsAnchor(After(s, ops), t) == IsAnchor(s, t)
    decreases |ops|
  {
    hide Good, Apply, IsAnchor, Enabled;
    if ops != [] {
      ApplyGood(s, ops[0]);
      RunGood(Apply(s, ops[0]), ops[1..], t);
    }
  }
}
