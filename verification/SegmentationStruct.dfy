/** The segmentation object itself: its fields are updated in place, and every
    method is the step on values that module Segmentation describes. */
module SegmentationStructs {
  import opened Segmentation

  class SegmentationStruct {
    var fMasterCloud: PointSet
    var fUpperPart: PointSet
    var fAnnotationCloud: AnnotationSet
    var fAnnotations: map<int, Flags>
    var fBufferedChangedPoints: set<int>
    var fMinSegIndex: int
    var fMaxSegIndex: int
    /** Set here on entering the tool; CurveViewers.SegmentCurves sets it when the curve is edited. */
    var fStartingPath: Row
    const hasAnnotations: bool
    const numSlices: int

    constructor (master: PointSet, annotations: AnnotationSet, hasAnnotations: bool, numSlices: int)
      ensures State() == Seg(master, annotations, map[], {}, 0)
      ensures this.hasAnnotations == hasAnnotations && this.numSlices == numSlices
    {
      fMasterCloud, fUpperPart, fAnnotationCloud := master, OrderedPointSet(0, []), annotations;
      fAnnotations, fBufferedChangedPoints, fMinSegIndex := map[], {}, 0;
      fMaxSegIndex, fStartingPath := 0, [];
      this.hasAnnotations, this.numSlices := hasAnnotations, numSlices;
    }

    function State(): Seg
      reads this
    {
      Seg(fMasterCloud, fAnnotationCloud, fAnnotations, fBufferedChangedPoints, fMinSegIndex)
    }

    /** The accesses below stay within the clouds. */
    ghost predicate Valid()
      reads this
    {
      fMasterCloud.Valid() && fAnnotationCloud.Valid()
    }

    method MergePointSetIntoPointCloud(ps: PointSet)
      requires Valid() && ps.Valid() && fMasterCloud.rows != []
      modifies this`fMasterCloud, this`fUpperPart, this`fAnnotationCloud
      ensures State() == Merge(old(State()), ps)
    {
      if ps.rows == [] {
        return;
      }
      if fMasterCloud.width != ps.width || fMasterCloud.width != fAnnotationCloud.width {
        return;
      }
      if |fMasterCloud.rows| != |fAnnotationCloud.rows| {
        return;
      }
      hide MergedRows, FrontGrowth, Grown;
      var frontGrowth, sizeDelta := MergeRows(ps);
      GrownByNone(old(fAnnotationCloud), frontGrowth, ps.rows[0][0].z);
      if |fMasterCloud.rows| != |fAnnotationCloud.rows| {
        GrowAnnotations(frontGrowth, ps.rows[0][0].z, sizeDelta);
      }
    }

    /** The part of the merge that concerns the points. */
    method MergeRows(ps: PointSet) returns (frontGrowth: bool, sizeDelta: int)
      requires Mergeable(State(), ps)
      modifies this`fMasterCloud, this`fUpperPart
      ensures fMasterCloud == old(fMasterCloud).(rows := MergedRows(old(State()), ps))
      ensures frontGrowth == FrontGrowth(old(State()), ps)
      ensures sizeDelta == |fMasterCloud.rows| - old(|fMasterCloud.rows|)
    {
      hide FirstNotBelow, FirstAbove, Grown;
      var i;
      var last := ps.rows[|ps.rows| - 1];
      i, frontGrowth := FindMergeStart(ps.rows[0][0].z);
      fUpperPart := fMasterCloud.CopyRows(0, i).Append(ps);
      i := FindMergeEnd(i, last[|last| - 1].z);
      if i < |fMasterCloud.rows| {
        fUpperPart := fUpperPart.Append(fMasterCloud.CopyRows(i, |fMasterCloud.rows|));
      }
      sizeDelta := |fUpperPart.rows| - |fMasterCloud.rows|;
      fMasterCloud := fUpperPart;
    }

    /** The row the merge starts at, and whether the incoming points begin before it. */
    method FindMergeStart(lo: int) returns (i: nat, frontGrowth: bool)
      requires Valid() && fMasterCloud.width > 0
      ensures i == FirstNotBelow(fMasterCloud.rows, lo, 0)
      ensures frontGrowth == (i < |fMasterCloud.rows| && lo < fMasterCloud.rows[i][0].z)
    {
      var rows := fMasterCloud.rows;
      i, frontGrowth := 0, false;
      while i < |rows|
        invariant i <= |rows| && !frontGrowth
        invariant FirstNotBelow(rows, lo, 0) == FirstNotBelow(rows, lo, i)
      {
        if lo <= rows[i][0].z {
          if lo < rows[i][0].z {
            frontGrowth := true;
          }
          break;
        }
        i := i + 1;
      }
    }

    /** The first row from row first on that lies behind the incoming points. */
    method FindMergeEnd(first: nat, hi: int) returns (i: nat)
      requires Valid() && fMasterCloud.width > 0 && first <= |fMasterCloud.rows|
      ensures i == FirstAbove(fMasterCloud.rows, hi, first)
    {
      var rows := fMasterCloud.rows;
      i := first;
      while i < |rows|
        invariant i <= |rows|
        invariant FirstAbove(rows, hi, first) == FirstAbove(rows, hi, i)
      {
        if hi < rows[i][|rows[i]| - 1].z {
          break;
        }
        i := i + 1;
      }
    }

    /** Adds default rows before or after the annotation rows. */
    method GrowAnnotations(frontGrowth: bool, lo: int, sizeDelta: int)
      requires Valid() && fAnnotationCloud.rows != []
      modifies this`fAnnotationCloud
      ensures fAnnotationCloud.width == old(fAnnotationCloud).width
      ensures fAnnotationCloud.rows == Grown(old(fAnnotationCloud), frontGrowth, lo, sizeDelta)
    {
      var start := if frontGrowth then lo else LastSlice(fAnnotationCloud) + 1;
      var added := NewAnnotationRows(fAnnotationCloud.width, start, sizeDelta);
      var at := if frontGrowth then 0 else |fAnnotationCloud.rows|;
      fAnnotationCloud := fAnnotationCloud.CopyRows(0, at).Append(added)
                          .Append(fAnnotationCloud.CopyRows(at, |fAnnotationCloud.rows|));
    }

    /** Rows of default annotations, one slice after the other. */
    static method NewAnnotationRows(width: nat, startSlice: int, height: int) returns (as': AnnotationSet)
      ensures as' == OrderedPointSet(width, if height <= 0 then [] else DefaultRows(width, startSlice, height))
    {
      var rows: seq<AnnotationRow> := [];
      var i := 0;
      while i < height
        invariant 0 <= i && (i <= height || i == 0)
        invariant rows == DefaultRows(width, startSlice, i)
      {
        var row: AnnotationRow := [];
        for j := 0 to width
          invariant |row| == j && forall p | 0 <= p < j :: row[p] == DefaultAnnotation(startSlice + i)
        {
          row := row + [Annotation(startSlice + i, NO_FLAGS, 0.0, 0.0)];
        }
        assert row == DefaultRow(width, startSlice + i);
        rows := rows + [row];
        i := i + 1;
      }
      return OrderedPointSet(width, rows);
    }

    /** The first annotation row of a slice, or -1; the source returns the index of its first point. */
    method GetAnnotationIndexForSliceIndex(sliceIndex: int) returns (r: int)
      requires Valid()
      ensures r == RowIndex(State(), sliceIndex)
    {
      var rows := fAnnotationCloud.rows;
      for i := 0 to |rows|
        invariant FindRow(rows, sliceIndex, 0) == FindRow(rows, sliceIndex, i)
      {
        if sliceIndex == rows[i][0].slice {
          return i;
        }
      }
      return -1;
    }

    method SetAnnotationAnchor(sliceIndex: int, anchor: bool)
      requires Valid()
      modifies this`fAnnotationCloud, this`fAnnotations
      ensures State() == SetAnchor(old(State()), sliceIndex, anchor)
    {
      var r := GetAnnotationIndexForSliceIndex(sliceIndex);
      if r == -1 {
        return;
      }
      ghost var before := fAnnotationCloud;
      ghost var target := WithAnchor(before.rows[r], anchor);
      ReplacedEnds(before, r, target);
      for j := 0 to fAnnotationCloud.width
        invariant fAnnotationCloud == Replaced(before, r, target, j)
        modifies this`fAnnotationCloud
      {
        var a := fAnnotationCloud.rows[r][j];
        ReplacedStep(before, r, target, j);
        UpdateAnnotation(r, j, a.(flags := a.flags.(anchor := anchor)));
      }
      if sliceIndex in fAnnotations {
        fAnnotations := fAnnotations[sliceIndex := fAnnotations[sliceIndex].(anchor := anchor)];
      } else {
        fAnnotations := fAnnotations[sliceIndex := NO_FLAGS.(anchor := anchor)];
      }
    }

    /** Overwrites entry j of annotation row r. */
    method UpdateAnnotation(r: nat, j: nat, a: Annotation)
      requires r < |fAnnotationCloud.rows| && j < |fAnnotationCloud.rows[r]|
      modifies this`fAnnotationCloud
      ensures var rows := old(fAnnotationCloud).rows;
              fAnnotationCloud == old(fAnnotationCloud).(rows := rows[r := rows[r][j := a]])
    {
      var rows := fAnnotationCloud.rows;
      fAnnotationCloud := fAnnotationCloud.(rows := rows[r := rows[r][j := a]]);
    }

    /** Looks a slice up in the decoded annotations, which inserts the default when there is no entry. */
    method LookUpAnchor(sliceIndex: int) returns (anchor: bool)
      modifies this`fAnnotations
      ensures anchor == CacheEntry(old(fAnnotations), sliceIndex).anchor
      ensures fAnnotations == InsertDefaults(old(fAnnotations), sliceIndex, sliceIndex)
    {
      if sliceIndex !in fAnnotations {
        fAnnotations := fAnnotations[sliceIndex := NO_FLAGS];
      }
      anchor := fAnnotations[sliceIndex].anchor;
      InsertOne(old(fAnnotations), sliceIndex);
    }

    method SetAnnotationManualPoints(sliceIndex: int)
      requires Valid() && forall j | j in fBufferedChangedPoints :: 0 <= j < fAnnotationCloud.width
      modifies this`fAnnotationCloud, this`fAnnotations, this`fBufferedChangedPoints
      ensures State() == SetManualPoints(old(State()), sliceIndex)
    {
      var r := GetAnnotationIndexForSliceIndex(sliceIndex);
      if r == -1 {
        return;
      }
      if fBufferedChangedPoints != {} {
        ghost var before := fAnnotationCloud;
        ghost var target := WithManual(before.rows[r], fBufferedChangedPoints);
        ReplacedEnds(before, r, target);
        for index := 0 to fAnnotationCloud.width
          invariant fAnnotationCloud == Replaced(before, r, target, index)
          modifies this`fAnnotationCloud
        {
          ReplacedStep(before, r, target, index);
          var a := fAnnotationCloud.rows[r][index];
          if index in fBufferedChangedPoints {
            UpdateAnnotation(r, index, a.(flags := a.flags.(manual := true)));
          } else {
            KeepEntry(fAnnotationCloud, r, index);
          }
        }
        if sliceIndex in fAnnotations {
          fAnnotations := fAnnotations[sliceIndex := fAnnotations[sliceIndex].(manual := true)];
        }
        fBufferedChangedPoints := {};
      }
    }

    method SetAnnotationUsedInRun(sliceIndex: int, used: bool)
      requires Valid()
      modifies this`fAnnotationCloud, this`fAnnotations
      ensures State() == SetUsedInRun(old(State()), sliceIndex, used)
    {
      var r := GetAnnotationIndexForSliceIndex(sliceIndex);
      if r == -1 {
        return;
      }
      ghost var before := fAnnotationCloud;
      ghost var target := WithUsedInRun(before.rows[r], used);
      ReplacedEnds(before, r, target);
      for j := 0 to fAnnotationCloud.width
        invariant fAnnotationCloud == Replaced(before, r, target, j)
        modifies this`fAnnotationCloud
      {
        var a := fAnnotationCloud.rows[r][j];
        ReplacedStep(before, r, target, j);
        UpdateAnnotation(r, j, a.(flags := a.flags.(usedInRun := used)));
      }
      if sliceIndex in fAnnotations {
        fAnnotations := fAnnotations[sliceIndex := fAnnotations[sliceIndex].(usedInRun := used)];
      } else {
        fAnnotations := fAnnotations[sliceIndex := NO_FLAGS.(usedInRun := used)];
      }
    }

    method SetAnnotationOriginalPos(ps: PointSet)
      requires Valid() && ps.Valid() && forall i | 0 <= i < |ps.rows| :: CanStore(State(), ps, i)
      modifies this`fAnnotationCloud
      ensures State() == SetOriginalPos(old(State()), ps, 0)
    {
      for i := 0 to |ps.rows|
        invariant Valid() && forall k | i <= k < |ps.rows| :: CanStore(State(), ps, k)
        invariant SetOriginalPos(old(State()), ps, 0) == SetOriginalPos(State(), ps, i)
      {
        ghost var s := State();
        var psRow := ps.rows[i];
        var r := GetAnnotationIndexForSliceIndex(psRow[0].z);
        ghost var before := fAnnotationCloud;
        ghost var target := WithPositions(before.rows[r], psRow);
        ReplacedEnds(before, r, target);
        for j := 0 to |psRow|
          invariant fAnnotationCloud == Replaced(before, r, target, j)
        {
          ReplacedStep(before, r, target, j);
          UpdateAnnotation(r, j, fAnnotationCloud.rows[r][j].(x := psRow[j].x, y := psRow[j].y));
        }
        assert State() == ReplaceRow(s, r, target);
        forall k | i + 1 <= k < |ps.rows| ensures CanStore(State(), ps, k) {
          assert CanStore(s, ps, k);
          SameSlicesSameRow(s, r, target, ps.rows[k][0].z);
        }
      }
    }

    method AlignAnnotationCloudWithPointCloud()
      requires Valid() && fMasterCloud.rows != [] && fAnnotationCloud.rows != []
      requires fMasterCloud.width == fAnnotationCloud.width
      modifies this`fAnnotationCloud
      ensures fAnnotationCloud.width == old(fAnnotationCloud.width)
      ensures fAnnotationCloud.rows == Padded(old(State()))
    {
      hide DefaultRow, DefaultRows, Padded;
      PaddedIs(State());
      if |fMasterCloud.rows| != |fAnnotationCloud.rows| {
        var newCloud := OrderedPointSet(fAnnotationCloud.width, []);
        var lo, last := fMasterCloud.rows[0][0].z, fMasterCloud.rows[|fMasterCloud.rows| - 1];
        var delta := Abs(lo - fAnnotationCloud.rows[0][0].slice);
        newCloud := AppendNewRows(newCloud, lo, delta);
        newCloud := newCloud.Append(fAnnotationCloud);
        var end := LastSlice(fAnnotationCloud);
        delta := Abs(last[|last| - 1].z - end);
        newCloud := AppendNewRows(newCloud, end + 1, delta);
        fAnnotationCloud := newCloud;
      }
    }

    /** Appends delta default rows, if any are wanted. */
    static method AppendNewRows(cloud: AnnotationSet, start: int, delta: nat) returns (cloud': AnnotationSet)
      ensures cloud' == cloud.(rows := cloud.rows + DefaultRows(cloud.width, start, delta))
    {
      hide DefaultRow;
      cloud' := cloud;
      if delta > 0 {
        var added := NewAnnotationRows(cloud.width, start, delta);
        cloud' := cloud.Append(added);
      }
    }

    /** Clears the flags from slice startIndex towards slice endIndex, one point short of its end. The result says
        whether all of the points it goes through exist; those that do not are left alone here. */
    method ResetAnnotations(startIndex: int, endIndex: int) returns (inBounds: bool)
      requires Valid()
      modifies this`fAnnotationCloud
      ensures State() == Segmentation.ResetAnnotations(old(State()), startIndex, endIndex)
      ensures var a := RowIndex(old(State()), startIndex);
              inBounds <==> a == -1 || SweepFits(|fAnnotationCloud.rows|, fAnnotationCloud.width, a + (endIndex - startIndex))
    {
      hide FindRow, ClearedUpTo, Cleared, SweptRows;
      inBounds := true;
      var start := GetAnnotationIndexForSliceIndex(startIndex);
      if start == -1 {
        return;
      }
      var directionUp, width, end := endIndex > startIndex, fAnnotationCloud.width, start + (endIndex - startIndex);
      var r, c := start, if directionUp then 0 else width - 1;
      ghost var before := fAnnotationCloud;
      ClearedStart(before, start, directionUp, width);
      while !(r == end && c == if directionUp then width - 1 else 0)
        invariant 0 <= c < width && if directionUp then start <= r <= end else end <= r <= start
        invariant fAnnotationCloud == ClearedUpTo(before, start, directionUp, r, c)
        invariant inBounds <==> WithinSoFar(|before.rows|, width, directionUp, r, c)
        decreases if directionUp then end - r else r - end, if directionUp then width - c else c
      {
        ClearedSame(before, start, directionUp, r, c);
        if 0 <= r < |fAnnotationCloud.rows| {
          ClearedStep(before, start, directionUp, r, c);
          UpdateAnnotation(r, c, Cleared(fAnnotationCloud.rows[r][c]));
        } else {
          ClearedBeyond(before, start, directionUp, r, c);
          inBounds := false;
        }
        if directionUp {
          r, c := if c == width - 1 then r + 1 else r, if c == width - 1 then 0 else c + 1;
        } else {
          r, c := if c == 0 then r - 1 else r, if c == 0 then width - 1 else c - 1;
        }
      }
      ClearedSame(before, start, directionUp, r, c);
      ClearedEnd(before, start, end, width);
    }

    /** Decodes the annotation bits of every slice. */
    method SetUpAnnotations()
      requires Valid()
      modifies this`fAnnotations
      ensures State() == Segmentation.SetUpAnnotations(old(State()))
    {
      if fMasterCloud.rows == [] || fAnnotationCloud.rows == [] {
        return;
      }
      fAnnotations := map[];
      for i := 0 to |fAnnotationCloud.rows|
        invariant fAnnotations == Decoded(fAnnotationCloud.rows, i)
      {
        var an, slice := NO_FLAGS, 0;
        for j := 0 to fAnnotationCloud.width
          invariant an == RowFlags(fAnnotationCloud.rows[i][..j])
          invariant j > 0 ==> slice == fAnnotationCloud.rows[i][j - 1].slice
          modifies {}
        {
          var a := fAnnotationCloud.rows[i][j];
          if a.flags.anchor {
            an := an.(anchor := true);
          }
          if a.flags.manual {
            an := an.(manual := true);
          }
          if a.flags.usedInRun {
            an := an.(usedInRun := true);
          }
          slice := a.slice;
          RowFlagsStep(fAnnotationCloud.rows[i], j);
        }
        assert fAnnotationCloud.rows[i][..fAnnotationCloud.width] == fAnnotationCloud.rows[i];
        fAnnotations := fAnnotations[slice := an];
      }
    }

    method AddPointsToManualBuffer(pointIndexes: set<int>)
      modifies this`fBufferedChangedPoints
      ensures State() == old(State()).(buffered := old(State()).buffered + pointIndexes)
    {
      fBufferedChangedPoints := fBufferedChangedPoints + pointIndexes;
    }

    method RemovePointsFromManualBuffer(pointIndexes: set<int>)
      modifies this`fBufferedChangedPoints
      ensures State() == old(State()).(buffered := old(State()).buffered - pointIndexes)
    {
      fBufferedChangedPoints := fBufferedChangedPoints - pointIndexes;
    }

    /** Drops the buffered points; the buffered curves are not part of this class. */
    method ForgetChangedCurves()
      modifies this`fBufferedChangedPoints
      ensures State() == old(State()).(buffered := {})
    {
      fBufferedChangedPoints := {};
    }

    /** Records the slices the cloud starts and ends at; the curves themselves are not part of this class. */
    method SetUpCurves()
      requires Valid()
      modifies this`fMinSegIndex, this`fMaxSegIndex
      ensures State() == if fMasterCloud.rows == [] then old(State()) else old(State()).(minSlice := Base(old(State())))
      ensures fMaxSegIndex == if fMasterCloud.rows == [] then old(fMaxSegIndex) else LastRowSlice(fMasterCloud)
    {
      if fMasterCloud.rows != [] {
        fMinSegIndex := fMasterCloud.rows[0][0].z;
        fMaxSegIndex := LastRowSlice(fMasterCloud);
      }
    }

    /** On entering the tool: the row of the tool slice becomes the starting chain, if the cloud has the slice. */
    method SplitCloud(pathOnSliceIndex: int)
      requires Valid() && (fMasterCloud.rows != [] ==> fMaxSegIndex - fMinSegIndex < |fMasterCloud.rows|)
      modifies this`fUpperPart, this`fStartingPath, this`fMinSegIndex, this`fMaxSegIndex, this`fAnnotations
      ensures var pathIndex := pathOnSliceIndex - old(fMinSegIndex);
              fStartingPath == if fMasterCloud.rows == [] || !(old(fMinSegIndex) <= pathOnSliceIndex <= old(fMaxSegIndex)) then []
                               else WithoutDummies(fMasterCloud.rows[pathIndex])
      ensures fUpperPart == if fMasterCloud.rows == [] || !(old(fMinSegIndex) <= pathOnSliceIndex <= old(fMaxSegIndex))
                            then old(fUpperPart)
                            else if pathOnSliceIndex == old(fMinSegIndex) then OrderedPointSet(fMasterCloud.width, [])
                            else fMasterCloud.CopyRows(0, pathOnSliceIndex - old(fMinSegIndex))
      ensures (fMasterCloud.rows == [] || !(old(fMinSegIndex) <= pathOnSliceIndex <= old(fMaxSegIndex))
               || |fStartingPath| == fMasterCloud.width) ==> State() == old(State())
    {
      hide Decoded;
      var pathIndex := pathOnSliceIndex - fMinSegIndex;
      if fMasterCloud.rows == [] || pathOnSliceIndex < fMinSegIndex || pathOnSliceIndex > fMaxSegIndex {
        fStartingPath := [];
        return;
      }
      if pathOnSliceIndex > fMinSegIndex {
        fUpperPart := fMasterCloud.CopyRows(0, pathIndex);
      } else {
        fUpperPart := OrderedPointSet(fMasterCloud.width, []);
      }
      fStartingPath := WithoutDummies(fMasterCloud.rows[pathIndex]);
      if |fStartingPath| != fMasterCloud.width {
        SetUpCurves();
        SetUpAnnotations();
      }
    }

    /** The first row of the points of a slice, or -1; the source returns the index of its first point. */
    method GetPointIndexForSliceIndex(sliceIndex: int) returns (r: int)
      requires Valid()
      ensures r == -1 || 0 <= r < |fMasterCloud.rows|
      ensures Aligned(State()) ==> r == if InCloud(State(), sliceIndex) then sliceIndex - Base(State()) else -1
    {
      ghost var s := State();
      for i := 0 to |fMasterCloud.rows|
        invariant Aligned(s) ==> !(Base(s) <= sliceIndex < Base(s) + i)
      {
        if Aligned(s) {
          RowOf(s, Base(s) + i);
        }
        if sliceIndex == fMasterCloud.rows[i][0].z {
          return i;
        }
      }
      return -1;
    }

    method FindNearestLowerAnchor(sliceIndex: int) returns (found: int)
      modifies this`fAnnotations
      ensures !hasAnnotations ==> found == -1 && State() == old(State())
      ensures hasAnnotations ==> found == NearestLower(old(fAnnotations), sliceIndex, fMinSegIndex)
      ensures hasAnnotations ==> State() == LookUpLower(old(State()), sliceIndex)
    {
      if !hasAnnotations {
        return -1;
      }
      hide CacheEntry, InsertDefaults, NearestLower, LowerStop, SearchedDownTo;
      ghost var cache := fAnnotations;
      SearchDownStarts(cache, sliceIndex, fMinSegIndex);
      var i := sliceIndex - 1;
      while i >= fMinSegIndex
        invariant SearchedDownTo(cache, fAnnotations, sliceIndex, fMinSegIndex, i)
      {
        SearchDownStep(cache, fAnnotations, sliceIndex, fMinSegIndex, i);
        var anchor := LookUpAnchor(i);
        if anchor {
          return i;
        }
        i := i - 1;
      }
      SearchDownEnds(cache, fAnnotations, sliceIndex, fMinSegIndex, i);
      return -1;
    }

    method FindNearestHigherAnchor(sliceIndex: int) returns (found: int)
      modifies this`fAnnotations
      ensures !hasAnnotations ==> found == -1 && State() == old(State())
      ensures hasAnnotations ==> found == NearestHigher(old(fAnnotations), sliceIndex, numSlices)
      ensures hasAnnotations ==> State() == LookUpHigher(old(State()), sliceIndex, numSlices)
    {
      if !hasAnnotations {
        return -1;
      }
      hide CacheEntry, InsertDefaults, NearestHigher, HigherStop, SearchedUpTo;
      ghost var cache := fAnnotations;
      SearchUpStarts(cache, sliceIndex, numSlices);
      var i := sliceIndex + 1;
      while i < numSlices
        invariant SearchedUpTo(cache, fAnnotations, sliceIndex, numSlices, i)
      {
        SearchUpStep(cache, fAnnotations, sliceIndex, numSlices, i);
        var anchor := LookUpAnchor(i);
        if anchor {
          return i;
        }
        i := i + 1;
      }
      SearchUpEnds(cache, fAnnotations, sliceIndex, numSlices, i);
      return -1;
    }
  }

  /** A search from t down to lo has looked at the slices above i and found no anchor. */
  predicate SearchedDownTo(cache: map<int, Flags>, now: map<int, Flags>, t: int, lo: int, i: int) {
    && i < t && now == InsertDefaults(cache, i + 1, t - 1)
    && NearestLower(cache, t, lo) == NearestLower(cache, i + 1, lo)
    && LowerStop(cache, t, lo) == LowerStop(cache, i + 1, lo)
  }

  lemma SearchDownStarts(cache: map<int, Flags>, t: int, lo: int)
    ensures SearchedDownTo(cache, cache, t, lo, t - 1)
  {
    InsertNone(cache, t, t - 1);
  }

  lemma SearchDownStep(cache: map<int, Flags>, now: map<int, Flags>, t: int, lo: int, i: int)
    requires SearchedDownTo(cache, now, t, lo, i) && lo <= i
    ensures CacheEntry(now, i) == CacheEntry(cache, i)
    ensures !CacheEntry(cache, i).anchor ==> SearchedDownTo(cache, InsertDefaults(now, i, i), t, lo, i - 1)
    ensures CacheEntry(cache, i).anchor ==> NearestLower(cache, t, lo) == i
    ensures CacheEntry(cache, i).anchor ==> InsertDefaults(now, i, i) == InsertDefaults(cache, LowerStop(cache, t, lo), t - 1)
  {
    InsertBelow(cache, i, t - 1);
  }

  lemma SearchDownEnds(cache: map<int, Flags>, now: map<int, Flags>, t: int, lo: int, i: int)
    requires SearchedDownTo(cache, now, t, lo, i) && i < lo
    ensures NearestLower(cache, t, lo) == -1 && now == InsertDefaults(cache, LowerStop(cache, t, lo), t - 1)
  {}

  /** A search from t up to n has looked at the slices below i and found no anchor. */
  predicate SearchedUpTo(cache: map<int, Flags>, now: map<int, Flags>, t: int, n: int, i: int) {
    && t < i && now == InsertDefaults(cache, t + 1, i - 1)
    && NearestHigher(cache, t, n) == NearestHigher(cache, i - 1, n)
    && HigherStop(cache, t, n) == HigherStop(cache, i - 1, n)
  }

  lemma SearchUpStarts(cache: map<int, Flags>, t: int, n: int)
    ensures SearchedUpTo(cache, cache, t, n, t + 1)
  {
    InsertNone(cache, t + 1, t);
  }

  lemma SearchUpStep(cache: map<int, Flags>, now: map<int, Flags>, t: int, n: int, i: int)
    requires SearchedUpTo(cache, now, t, n, i) && i < n
    ensures CacheEntry(now, i) == CacheEntry(cache, i)
    ensures !CacheEntry(cache, i).anchor ==> SearchedUpTo(cache, InsertDefaults(now, i, i), t, n, i + 1)
    ensures CacheEntry(cache, i).anchor ==> NearestHigher(cache, t, n) == i
    ensures CacheEntry(cache, i).anchor ==> InsertDefaults(now, i, i) == InsertDefaults(cache, t + 1, HigherStop(cache, t, n))
  {
    InsertAbove(cache, t + 1, i);
  }

  lemma SearchUpEnds(cache: map<int, Flags>, now: map<int, Flags>, t: int, n: int, i: int)
    requires SearchedUpTo(cache, now, t, n, i) && n <= i
    ensures NearestHigher(cache, t, n) == -1 && now == InsertDefaults(cache, t + 1, HigherStop(cache, t, n))
  {}

  lemma PaddedIs(s: Seg)
    requires s.master.Valid() && s.ann.Valid() && s.master.rows != [] && s.ann.rows != []
    ensures var lo, last := s.master.rows[0][0].z, s.master.rows[|s.master.rows| - 1];
            Padded(s) == if |s.master.rows| == |s.ann.rows| then s.ann.rows
            else DefaultRows(s.ann.width, lo, Abs(lo - s.ann.rows[0][0].slice)) + s.ann.rows
                 + DefaultRows(s.ann.width, LastSlice(s.ann) + 1, Abs(last[|last| - 1].z - LastSlice(s.ann)))
  {}

  lemma GrownByNone(ann: AnnotationSet, front: bool, lo: int)
    requires ann.Valid() && ann.rows != []
    ensures Grown(ann, front, lo, 0) == ann.rows
  {}

  /** The cloud with the first j entries of row r taken from target. */
  function Replaced(ann: AnnotationSet, r: nat, target: AnnotationRow, j: nat): AnnotationSet
    requires r < |ann.rows| && j <= |target| == |ann.rows[r]|
  {
    ann.(rows := ann.rows[r := target[..j] + ann.rows[r][j..]])
  }

  lemma ReplacedEnds(ann: AnnotationSet, r: nat, target: AnnotationRow)
    requires r < |ann.rows| && |target| == |ann.rows[r]|
    ensures Replaced(ann, r, target, 0) == ann
    ensures Replaced(ann, r, target, |target|) == ann.(rows := ann.rows[r := target])
  {
    assert target[..0] + ann.rows[r][0..] == ann.rows[r] && ann.rows[r := ann.rows[r]] == ann.rows;
    assert target[..|target|] + ann.rows[r][|target|..] == target;
  }

  lemma ReplacedStep(ann: AnnotationSet, r: nat, target: AnnotationRow, j: nat)
    requires r < |ann.rows| && j < |target| == |ann.rows[r]|
    ensures var rows := Replaced(ann, r, target, j).rows;
            && |rows| == |ann.rows| && |rows[r]| == |target| && rows[r][j] == ann.rows[r][j]
            && Replaced(ann, r, target, j + 1) == ann.(rows := rows[r := rows[r][j := target[j]]])
  {
    var row := target[..j] + ann.rows[r][j..];
    assert row[j := target[j]] == target[..j + 1] + ann.rows[r][j + 1..];
    assert ann.rows[r := row][r := row[j := target[j]]] == ann.rows[r := row[j := target[j]]];
  }

  /** The slice of the last point. */
  function LastRowSlice(ps: PointSet): int
    requires ps.Valid() && ps.rows != []
  {
    ps.rows[|ps.rows| - 1][ps.width - 1].z
  }

  lemma {:induction false} SameSlicesSameRow(s: Seg, r: nat, row: AnnotationRow, t: int)
    requires r < |s.ann.rows| && |row| == |s.ann.rows[r]|
    requires row != [] ==> row[0].slice == s.ann.rows[r][0].slice
    ensures RowIndex(ReplaceRow(s, r, row), t) == RowIndex(s, t)
  {
    FindSame(s.ann.rows, r, row, t, 0);
  }

  lemma {:induction false} FindSame(rows: seq<AnnotationRow>, r: nat, row: AnnotationRow, t: int, i: nat)
    requires r < |rows| && |row| == |rows[r]| && i <= |rows|
    requires row != [] ==> row[0].slice == rows[r][0].slice
    ensures FindRow(rows[r := row], t, i) == FindRow(rows, t, i)
    decreases |rows| - i
  {
    if i < |rows| {
      FindSame(rows, r, row, t, i + 1);
    }
  }

  /** The cloud after a sweep that starts in row start has reached, but not treated, entry (r, c). */
  function ClearedUpTo(ann: AnnotationSet, start: int, up: bool, r: int, c: int): AnnotationSet {
    ann.(rows := seq(|ann.rows|, i requires 0 <= i < |ann.rows| =>
      seq(|ann.rows[i]|, j requires 0 <= j < |ann.rows[i]| =>
        if Passed(start, up, r, c, i, j) then Cleared(ann.rows[i][j]) else ann.rows[i][j])))
  }

  /** The entry the sweep treats after (r, c) in rows of width w. */
  function After(up: bool, w: nat, r: int, c: int): (int, int) {
    if up then (if c == w - 1 then (r + 1, 0) else (r, c + 1)) else (if c == 0 then (r - 1, w - 1) else (r, c - 1))
  }

  lemma ClearedStart(ann: AnnotationSet, start: int, up: bool, w: nat)
    requires ann.Valid() && w == ann.width > 0
    ensures ClearedUpTo(ann, start, up, start, if up then 0 else w - 1) == ann
  {
    var rows := ClearedUpTo(ann, start, up, start, if up then 0 else w - 1).rows;
    forall i | 0 <= i < |rows| ensures rows[i] == ann.rows[i] {}
  }

  lemma ClearedStep(ann: AnnotationSet, start: int, up: bool, r: nat, c: nat)
    requires ann.Valid() && r < |ann.rows| && c < ann.width && if up then start <= r else r <= start
    ensures var rows, next := ClearedUpTo(ann, start, up, r, c).rows, After(up, ann.width, r, c);
            && ClearedUpTo(ann, start, up, r, c).width == ann.width
            && |rows| == |ann.rows| && |rows[r]| == ann.width && rows[r][c] == ann.rows[r][c]
            && ClearedUpTo(ann, start, up, next.0, next.1)
               == ann.(rows := rows[r := rows[r][c := Cleared(ann.rows[r][c])]])
  {
    var rows, next := ClearedUpTo(ann, start, up, r, c).rows, After(up, ann.width, r, c);
    var rows' := ClearedUpTo(ann, start, up, next.0, next.1).rows;
    forall i | 0 <= i < |rows| ensures rows'[i] == rows[r := rows[r][c := Cleared(ann.rows[r][c])]][i] {
      assert |rows'[i]| == |rows[i]| == ann.width;
    }
  }

  /** Were all the points before (r, c) among h rows? */
  predicate WithinSoFar(h: nat, w: nat, up: bool, r: int, c: int) {
    if up then r < h || (r == h && c == 0) else r > -1 || (r == -1 && c == w - 1)
  }

  lemma ClearedSame(ann: AnnotationSet, start: int, up: bool, r: int, c: int)
    ensures var cleared := ClearedUpTo(ann, start, up, r, c);
            cleared.width == ann.width && |cleared.rows| == |ann.rows|
  {}

  /** Beyond the rows there is nothing to clear. */
  lemma ClearedBeyond(ann: AnnotationSet, start: int, up: bool, r: int, c: int)
    requires ann.Valid() && 0 <= start < |ann.rows| && 0 <= c < ann.width && !(0 <= r < |ann.rows|)
    requires if up then start <= r else r <= start
    ensures var next := After(up, ann.width, r, c);
            ClearedUpTo(ann, start, up, next.0, next.1) == ClearedUpTo(ann, start, up, r, c)
  {
    var next := After(up, ann.width, r, c);
    var rows, rows' := ClearedUpTo(ann, start, up, r, c).rows, ClearedUpTo(ann, start, up, next.0, next.1).rows;
    forall i | 0 <= i < |rows| ensures rows[i] == rows'[i] {
      assert |rows[i]| == |rows'[i]| == ann.width;
    }
  }

  lemma ClearedEnd(ann: AnnotationSet, start: int, end: int, w: nat)
    requires ann.Valid() && w == ann.width > 0
    ensures ClearedUpTo(ann, start, start < end, end, if start < end then w - 1 else 0)
         == ann.(rows := SweptRows(ann.rows, start, end))
  {
    var rows := ClearedUpTo(ann, start, start < end, end, if start < end then w - 1 else 0).rows;
    forall i | 0 <= i < |rows| ensures rows[i] == SweptRow(ann.rows[i], start, end, i) {}
  }

  predicate Passed(start: int, up: bool, r: int, c: int, i: int, j: int) {
    if up then start <= i && (i < r || (i == r && j < c)) else i <= start && (r < i || (i == r && c < j))
  }

  lemma RowFlagsStep(row: AnnotationRow, j: nat)
    requires j < |row|
    ensures var f, g := RowFlags(row[..j]), row[j].flags;
            RowFlags(row[..j + 1]) == Flags(f.anchor || g.anchor, f.manual || g.manual, f.usedInRun || g.usedInRun)
  {
    assert row[..j + 1] == row[..j] + [row[j]];
    assert forall k | 0 <= k < j :: row[..j + 1][k] == row[..j][k];
  }

  lemma InsertNone(cache: map<int, Flags>, lo: int, hi: int)
    requires hi < lo
    ensures InsertDefaults(cache, lo, hi) == cache
  {}

  lemma KeepEntry(ann: AnnotationSet, r: nat, j: nat)
    requires r < |ann.rows| && j < |ann.rows[r]|
    ensures ann.(rows := ann.rows[r := ann.rows[r][j := ann.rows[r][j]]]) == ann
  {
    assert ann.rows[r][j := ann.rows[r][j]] == ann.rows[r] && ann.rows[r := ann.rows[r]] == ann.rows;
  }

  lemma InsertBelow(cache: map<int, Flags>, t: int, hi: int)
    requires t <= hi
    ensures InsertDefaults(InsertDefaults(cache, t + 1, hi), t, t) == InsertDefaults(cache, t, hi)
  {}

  lemma InsertAbove(cache: map<int, Flags>, lo: int, t: int)
    requires lo <= t
    ensures InsertDefaults(InsertDefaults(cache, lo, t - 1), t, t) == InsertDefaults(cache, lo, t)
  {}

  lemma InsertOne(cache: map<int, Flags>, t: int)
    ensures InsertDefaults(cache, t, t) == cache[t := CacheEntry(cache, t)]
  {}
}
