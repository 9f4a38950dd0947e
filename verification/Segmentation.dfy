/** The two clouds of a segmentation, points and annotations, as rows of equal
    width with one row per slice, and what each operation makes of them. */
module Segmentation {
  import opened Geometry

  datatype Point = Point(x: real, y: real, z: int)

  /** The annotation bits. */
  datatype Flags = Flags(anchor: bool, manual: bool, usedInRun: bool)

  const NO_FLAGS := Flags(false, false, false)

  /** One annotation entry: slice number, bits and original position. */
  datatype Annotation = Annotation(slice: int, flags: Flags, x: real, y: real)

  type Row = seq<Point>
  type AnnotationRow = seq<Annotation>

  /** Points in rows of equal width. */
  datatype OrderedPointSet<T> = OrderedPointSet(width: nat, rows: seq<seq<T>>) {
    predicate Valid() {
      && (forall i | 0 <= i < |rows| :: |rows[i]| == width)
      && (width == 0 ==> rows == [])
    }

    /** Rows i up to but not including j. */
    function CopyRows(i: nat, j: nat): OrderedPointSet<T>
      requires i <= j <= |rows|
    {
      OrderedPointSet(width, rows[i..j])
    }

    function Append(ps: OrderedPointSet<T>): OrderedPointSet<T>
      requires width == ps.width
    {
      OrderedPointSet(width, rows + ps.rows)
    }
  }

  type PointSet = OrderedPointSet<Point>
  type AnnotationSet = OrderedPointSet<Annotation>

  /** What a segmentation holds: clouds, decoded annotations per slice, buffered
      manual point indices, and the slice number the cloud was last seen to start at. */
  datatype Seg = Seg(master: PointSet, ann: AnnotationSet, cache: map<int, Flags>, buffered: set<int>, minSlice: int)

  // ----- slices -----

  predicate SliceRow(row: Row, width: nat, slice: int) {
    |row| == width && forall j | 0 <= j < |row| :: row[j].z == slice
  }

  predicate AnnotatesSlice(row: AnnotationRow, width: nat, slice: int) {
    |row| == width && forall j | 0 <= j < |row| :: row[j].slice == slice
  }

  /** Row i belongs to slice lo + i: contiguous and ascending. */
  predicate SliceRows(rows: seq<Row>, width: nat, lo: int) {
    forall i | 0 <= i < |rows| :: SliceRow(rows[i], width, lo + i)
  }

  predicate AnnotationRows(rows: seq<AnnotationRow>, width: nat, lo: int) {
    forall i | 0 <= i < |rows| :: AnnotatesSlice(rows[i], width, lo + i)
  }

  /** The slice of the first master row. */
  function Base(s: Seg): int {
    if s.master.rows == [] || s.master.rows[0] == [] then 0 else s.master.rows[0][0].z
  }

  function Top(s: Seg): int {
    Base(s) + |s.master.rows| - 1
  }

  /** Both clouds have one row per slice, contiguous, ascending and slice for slice aligned. */
  predicate Aligned(s: Seg) {
    && 0 < s.master.width == s.ann.width && 0 < |s.master.rows| == |s.ann.rows|
    && SliceRows(s.master.rows, s.master.width, Base(s))
    && AnnotationRows(s.ann.rows, s.ann.width, Base(s))
  }

  predicate InCloud(s: Seg, t: int) {
    Base(s) <= t <= Top(s)
  }

  function MasterRow(s: Seg, t: int): Row
    requires InCloud(s, t)
  {
    s.master.rows[t - Base(s)]
  }

  function AnnRow(s: Seg, t: int): AnnotationRow
    requires Aligned(s) && InCloud(s, t)
  {
    s.ann.rows[t - Base(s)]
  }

  function DefaultAnnotation(slice: int): Annotation {
    Annotation(slice, NO_FLAGS, 0.0, 0.0)
  }

  function DefaultRow(width: nat, slice: int): (row: AnnotationRow)
    ensures AnnotatesSlice(row, width, slice)
  {
    seq(width, j => DefaultAnnotation(slice))
  }

  /** n fresh annotation rows from slice lo on. */
  function DefaultRows(width: nat, lo: int, n: nat): (rows: seq<AnnotationRow>)
    ensures |rows| == n
  {
    seq(n, i requires 0 <= i < n => DefaultRow(width, lo + i))
  }

  // ----- merging -----

  /** The first row, from i on, whose first point is not below slice lo. */
  function FirstNotBelow(rows: seq<Row>, lo: int, i: nat): (k: nat)
    requires i <= |rows|
    requires forall r | 0 <= r < |rows| :: |rows[r]| > 0
    ensures i <= k <= |rows|
    decreases |rows| - i
  {
    if i < |rows| && !(lo <= rows[i][0].z) then FirstNotBelow(rows, lo, i + 1) else i
  }

  /** The first row, from i on, whose last point is above slice hi. */
  function FirstAbove(rows: seq<Row>, hi: int, i: nat): (k: nat)
    requires i <= |rows|
    requires forall r | 0 <= r < |rows| :: |rows[r]| > 0
    ensures i <= k <= |rows|
    decreases |rows| - i
  {
    if i < |rows| && !(hi < rows[i][|rows[i]| - 1].z) then FirstAbove(rows, hi, i + 1) else i
  }

  predicate Mergeable(s: Seg, ps: PointSet) {
    && s.master.Valid() && s.ann.Valid() && ps.Valid()
    && ps.rows != [] && s.master.rows != []
    && s.master.width == ps.width == s.ann.width && |s.master.rows| == |s.ann.rows|
  }

  /** Does the incoming set start before the row the merge starts at? */
  function FrontGrowth(s: Seg, ps: PointSet): bool
    requires Mergeable(s, ps)
  {
    var lo := ps.rows[0][0].z;
    var i := FirstNotBelow(s.master.rows, lo, 0);
    i < |s.master.rows| && lo < s.master.rows[i][0].z
  }

  function MergedRows(s: Seg, ps: PointSet): seq<Row>
    requires Mergeable(s, ps)
  {
    var last := ps.rows[|ps.rows| - 1];
    var i := FirstNotBelow(s.master.rows, ps.rows[0][0].z, 0);
    var k := FirstAbove(s.master.rows, last[|last| - 1].z, i);
    s.master.rows[..i] + ps.rows + s.master.rows[k..]
  }

  function MergedAnnotations(s: Seg, ps: PointSet): seq<AnnotationRow>
    requires Mergeable(s, ps)
  {
    Grown(s.ann, FrontGrowth(s, ps), ps.rows[0][0].z, |MergedRows(s, ps)| - |s.master.rows|)
  }

  /** The annotation rows with delta default rows added at the front or at the back. */
  function Grown(ann: AnnotationSet, front: bool, lo: int, delta: int): seq<AnnotationRow>
    requires ann.Valid() && ann.rows != []
  {
    if delta <= 0 then ann.rows
    else if front then DefaultRows(ann.width, lo, delta) + ann.rows
    else ann.rows + DefaultRows(ann.width, LastSlice(ann) + 1, delta)
  }

  function LastSlice(ann: AnnotationSet): int
    requires ann.Valid() && ann.rows != []
  {
    ann.rows[|ann.rows| - 1][ann.width - 1].slice
  }

  /** The merge of a point set into the clouds: nothing happens when the dimensions do not fit. */
  function Merge(s: Seg, ps: PointSet): Seg {
    if Mergeable(s, ps)
    then s.(master := s.master.(rows := MergedRows(s, ps)), ann := s.ann.(rows := MergedAnnotations(s, ps)))
    else s
  }

  /** A contiguous point set with its first slice lo. */
  predicate Incoming(s: Seg, ps: PointSet, lo: int) {
    && ps.width == s.master.width && ps.rows != [] && SliceRows(ps.rows, ps.width, lo)
  }

  /** ps overlaps the cloud or lies directly beside it. */
  predicate Touches(s: Seg, lo: int, hi: int) {
    lo <= Top(s) + 1 && Base(s) - 1 <= hi
  }

  predicate OneSided(s: Seg, lo: int, hi: int) {
    Base(s) <= lo || hi <= Top(s)
  }

  lemma {:induction false} FirstNotBelowIs(rows: seq<Row>, w: nat, base: int, lo: int, i: nat)
    requires 0 < w && SliceRows(rows, w, base) && i <= |rows| && (i == 0 || base + i - 1 < lo)
    ensures forall r | 0 <= r < |rows| :: |rows[r]| > 0
    ensures FirstNotBelow(rows, lo, i)
         == if lo <= base + i then i else if lo <= base + |rows| then lo - base else |rows|
    decreases |rows| - i
  {
    forall r | 0 <= r < |rows| ensures |rows[r]| > 0 {
      assert SliceRow(rows[r], w, base + r);
    }
    if i < |rows| {
      assert SliceRow(rows[i], w, base + i);
      if !(lo <= rows[i][0].z) {
        FirstNotBelowIs(rows, w, base, lo, i + 1);
      }
    }
  }

  lemma {:induction false} FirstAboveIs(rows: seq<Row>, w: nat, base: int, hi: int, i: nat)
    requires 0 < w && SliceRows(rows, w, base) && i <= |rows|
    ensures forall r | 0 <= r < |rows| :: |rows[r]| > 0
    ensures FirstAbove(rows, hi, i)
         == if hi < base + i then i else if hi < base + |rows| then hi - base + 1 else |rows|
    decreases |rows| - i
  {
    forall r | 0 <= r < |rows| ensures |rows[r]| > 0 {
      assert SliceRow(rows[r], w, base + r);
    }
    if i < |rows| {
      assert SliceRow(rows[i], w, base + i);
      if !(hi < rows[i][|rows[i]| - 1].z) {
        FirstAboveIs(rows, w, base, hi, i + 1);
      }
    }
  }

  lemma IncomingMerges(s: Seg, ps: PointSet, lo: int)
    requires Aligned(s) && Incoming(s, ps, lo)
    ensures Mergeable(s, ps)
    ensures ps.rows[0][0].z == lo
    ensures var last := ps.rows[|ps.rows| - 1]; last[|last| - 1].z == lo + |ps.rows| - 1
    ensures LastSlice(s.ann) == Top(s)
  {
    forall i | 0 <= i < |s.master.rows|
      ensures |s.master.rows[i]| == s.master.width && |s.ann.rows[i]| == s.ann.width
    {
      assert SliceRow(s.master.rows[i], s.master.width, Base(s) + i);
      assert AnnotatesSlice(s.ann.rows[i], s.ann.width, Base(s) + i);
    }
    forall i | 0 <= i < |ps.rows| ensures |ps.rows[i]| == ps.width {
      assert SliceRow(ps.rows[i], ps.width, lo + i);
    }
    assert SliceRow(ps.rows[0], ps.width, lo + 0);
    assert SliceRow(ps.rows[|ps.rows| - 1], ps.width, lo + (|ps.rows| - 1));
    assert AnnotatesSlice(s.ann.rows[|s.ann.rows| - 1], s.ann.width, Base(s) + (|s.ann.rows| - 1));
  }

  /** The rows of a merge in closed form. */
  lemma MergedForm(s: Seg, ps: PointSet, lo: int)
    requires Aligned(s) && Incoming(s, ps, lo)
    ensures Mergeable(s, ps)
    ensures var hi, h := lo + |ps.rows| - 1, |s.master.rows|;
            var i := if lo <= Base(s) then 0 else if lo <= Base(s) + h then lo - Base(s) else h;
            var k := if hi < Base(s) + i then i else if hi < Base(s) + h then hi - Base(s) + 1 else h;
            && MergedRows(s, ps) == s.master.rows[..i] + ps.rows + s.master.rows[k..]
            && FrontGrowth(s, ps) == (lo < Base(s))
  {
    IncomingMerges(s, ps, lo);
    FirstNotBelowIs(s.master.rows, s.master.width, Base(s), lo, 0);
    var i := FirstNotBelow(s.master.rows, lo, 0);
    FirstAboveIs(s.master.rows, s.master.width, Base(s), lo + |ps.rows| - 1, i);
    if i < |s.master.rows| {
      assert SliceRow(s.master.rows[i], s.master.width, Base(s) + i);
    }
  }

  /** Which row a slice has after a merge that touches the cloud on one side at most. */
  lemma MergedRowAt(s: Seg, ps: PointSet, lo: int, t: int)
    requires Aligned(s) && Incoming(s, ps, lo)
    requires var hi := lo + |ps.rows| - 1;
             Touches(s, lo, hi) && OneSided(s, lo, hi) && Min(Base(s), lo) <= t <= Max(Top(s), hi)
    ensures Mergeable(s, ps)
    ensures var hi, b := lo + |ps.rows| - 1, Min(Base(s), lo);
            && |MergedRows(s, ps)| == |MergedAnnotations(s, ps)| == Max(Top(s), hi) - b + 1
            && MergedRows(s, ps)[t - b] == (if lo <= t <= hi then ps.rows[t - lo] else MasterRow(s, t))
            && MergedAnnotations(s, ps)[t - b] == (if InCloud(s, t) then AnnRow(s, t) else DefaultRow(s.ann.width, t))
  {
    hide SliceRows, AnnotationRows, MergedRows, FrontGrowth;
    MergedForm(s, ps, lo);
    IncomingMerges(s, ps, lo);
  }

  lemma RowOf(s: Seg, t: int)
    requires Aligned(s) && InCloud(s, t)
    ensures SliceRow(MasterRow(s, t), s.master.width, t)
    ensures AnnotatesSlice(AnnRow(s, t), s.ann.width, t)
  {
    assert SliceRow(s.master.rows[t - Base(s)], s.master.width, Base(s) + (t - Base(s)));
    assert AnnotatesSlice(s.ann.rows[t - Base(s)], s.ann.width, Base(s) + (t - Base(s)));
  }

  /** Merging a touching, one-sided point set: every slice takes the new row if there is one
      and its old row otherwise, annotations stay with their slices, new slices get defaults. */
  lemma MergeMeaning(s: Seg, ps: PointSet, lo: int)
    requires Aligned(s) && Incoming(s, ps, lo)
    requires Touches(s, lo, lo + |ps.rows| - 1) && OneSided(s, lo, lo + |ps.rows| - 1)
    ensures var s', hi := Merge(s, ps), lo + |ps.rows| - 1;
            && Aligned(s') && Base(s') == Min(Base(s), lo) && Top(s') == Max(Top(s), hi)
            && s'.master.width == s.master.width
            && forall t | InCloud(s', t) ::
                 && MasterRow(s', t) == (if lo <= t <= hi then ps.rows[t - lo] else MasterRow(s, t))
                 && AnnRow(s', t) == (if InCloud(s, t) then AnnRow(s, t) else DefaultRow(s.ann.width, t))
  {
    hide SliceRow, AnnotatesSlice, MergedRows, MergedAnnotations, Mergeable, DefaultRow;
    var s', hi, b, w := Merge(s, ps), lo + |ps.rows| - 1, Min(Base(s), lo), s.master.width;
    MergedRowAt(s, ps, lo, b);
    forall i | 0 <= i < |s'.master.rows|
      ensures SliceRow(s'.master.rows[i], w, b + i) && AnnotatesSlice(s'.ann.rows[i], w, b + i)
    {
      MergedSlice(s, ps, lo, b + i);
    }
    assert Base(s') == b by {
      RowHead(s'.master.rows, w, b);
    }
    forall t | InCloud(s', t)
      ensures MasterRow(s', t) == (if lo <= t <= hi then ps.rows[t - lo] else MasterRow(s, t))
      ensures AnnRow(s', t) == (if InCloud(s, t) then AnnRow(s, t) else DefaultRow(s.ann.width, t))
    {
      MergedRowAt(s, ps, lo, t);
    }
  }

  lemma RowHead(rows: seq<Row>, w: nat, b: int)
    requires 0 < w && 0 < |rows| && SliceRow(rows[0], w, b)
    ensures rows[0] != [] && rows[0][0].z == b
  {}

  lemma MergedSlice(s: Seg, ps: PointSet, lo: int, t: int)
    requires Aligned(s) && Incoming(s, ps, lo)
    requires var hi := lo + |ps.rows| - 1;
             Touches(s, lo, hi) && OneSided(s, lo, hi) && Min(Base(s), lo) <= t <= Max(Top(s), hi)
    ensures Mergeable(s, ps)
    ensures var b := Min(Base(s), lo);
            && t - b < |MergedRows(s, ps)| && t - b < |MergedAnnotations(s, ps)|
            && SliceRow(MergedRows(s, ps)[t - b], s.master.width, t)
            && AnnotatesSlice(MergedAnnotations(s, ps)[t - b], s.master.width, t)
  {
    hide SliceRow, AnnotatesSlice, MergedRows, MergedAnnotations;
    MergedRowAt(s, ps, lo, t);
    if InCloud(s, t) {
      RowOf(s, t);
    }
    if lo <= t <= lo + |ps.rows| - 1 {
      assert SliceRow(ps.rows[t - lo], ps.width, lo + (t - lo));
    }
  }

  /** The merged clouds are contiguous and slice-aligned exactly when the incoming rows
      touch the cloud and extend it on one side at most. */
  lemma MergeAlignedIff(s: Seg, ps: PointSet, lo: int)
    requires Aligned(s) && Incoming(s, ps, lo)
    ensures Aligned(Merge(s, ps))
       <==> Touches(s, lo, lo + |ps.rows| - 1) && OneSided(s, lo, lo + |ps.rows| - 1)
  {
    var hi, s' := lo + |ps.rows| - 1, Merge(s, ps);
    if Touches(s, lo, hi) && OneSided(s, lo, hi) {
      MergeMeaning(s, ps, lo);
    } else {
      MergeMisaligned(s, ps, lo);
    }
  }

  /** Whatever is merged, the clouds stay aligned exactly when it is contiguous and ascending, touches the cloud and
      extends it on one side at most; a point set with a gap, or with rows out of order, never leaves them aligned. */
  lemma AnyMergeAlignedIff(s: Seg, ps: PointSet)
    requires Aligned(s) && Mergeable(s, ps)
    ensures Aligned(Merge(s, ps)) <==> exists lo :: MergesWell(s, ps, lo)
  {
    hide Aligned, Mergeable, Merge, Incoming, Touches, OneSided;
    if Aligned(Merge(s, ps)) {
      AlignedMergeIsContiguous(s, ps);
      var lo :| Incoming(s, ps, lo);
      MergeAlignedIff(s, ps, lo);
      assert MergesWell(s, ps, lo);
    }
    if lo :| MergesWell(s, ps, lo) {
      MergeAlignedIff(s, ps, lo);
    }
  }

  predicate MergesWell(s: Seg, ps: PointSet, lo: int) {
    Incoming(s, ps, lo) && Touches(s, lo, lo + |ps.rows| - 1) && OneSided(s, lo, lo + |ps.rows| - 1)
  }

  lemma AlignedMergeIsContiguous(s: Seg, ps: PointSet)
    requires Aligned(s) && Mergeable(s, ps) && Aligned(Merge(s, ps))
    ensures exists lo :: Incoming(s, ps, lo)
  {
    hide FirstAbove, FirstNotBelow, MergedAnnotations;
    var s', i := Merge(s, ps), FirstNotBelow(s.master.rows, ps.rows[0][0].z, 0);
    var lo := Base(s') + i;
    forall k | 0 <= k < |ps.rows| ensures SliceRow(ps.rows[k], ps.width, lo + k) {
      assert s'.master.rows[i + k] == ps.rows[k];
      assert SliceRow(s'.master.rows[i + k], s'.master.width, Base(s') + (i + k));
    }
    assert Incoming(s, ps, lo);
  }

  lemma MergeMisaligned(s: Seg, ps: PointSet, lo: int)
    requires Aligned(s) && Incoming(s, ps, lo)
    requires !Touches(s, lo, lo + |ps.rows| - 1) || !OneSided(s, lo, lo + |ps.rows| - 1)
    ensures !Aligned(Merge(s, ps))
  {
    hide FirstAbove, FirstNotBelow, DefaultRow;
    var hi, s', w, h := lo + |ps.rows| - 1, Merge(s, ps), s.master.width, |s.master.rows|;
    MergedForm(s, ps, lo);
    IncomingMerges(s, ps, lo);
    RowOf(s, Base(s));
    RowOf(s, Top(s));
    assert SliceRow(ps.rows[0], w, lo + 0);
    if lo > Top(s) + 1 {
      assert s'.master.rows[0] == s.master.rows[0] && s'.master.rows[h] == ps.rows[0];
      assert !SliceRow(s'.master.rows[h], w, Base(s') + h);
    } else if hi < Base(s) - 1 {
      assert s'.master.rows[0] == ps.rows[0] && s'.master.rows[|ps.rows|] == s.master.rows[0];
      assert !SliceRow(s'.master.rows[|ps.rows|], w, Base(s') + |ps.rows|);
    } else {
      assert s'.master.rows == ps.rows;
      var end := |s'.ann.rows| - 1;
      assert s'.ann.rows[end] == s.ann.rows[h - 1];
      assert !AnnotatesSlice(s'.ann.rows[end], w, Base(s') + end);
    }
  }

  // ----- aligning annotations with a cloud changed elsewhere -----

  function Abs(n: int): nat {
    if n < 0 then -n else n
  }

  /** The annotation rows after padding them where the two clouds' ends differ. */
  function Padded(s: Seg): seq<AnnotationRow>
    requires s.master.Valid() && s.ann.Valid() && s.master.rows != [] && s.ann.rows != []
  {
    if |s.master.rows| == |s.ann.rows| then s.ann.rows
    else
      var lo, last := s.master.rows[0][0].z, s.master.rows[|s.master.rows| - 1];
      DefaultRows(s.ann.width, lo, Abs(lo - s.ann.rows[0][0].slice)) + s.ann.rows
      + DefaultRows(s.ann.width, LastSlice(s.ann) + 1, Abs(last[|last| - 1].z - LastSlice(s.ann)))
  }

  /** Both clouds contiguous and ascending, each over its own range of slices. */
  predicate Contiguous(s: Seg, base: int, lo: int) {
    && 0 < s.master.width == s.ann.width && s.master.rows != [] && s.ann.rows != []
    && SliceRows(s.master.rows, s.master.width, base) && AnnotationRows(s.ann.rows, s.ann.width, lo)
  }

  lemma ContiguousEnds(s: Seg, base: int, lo: int)
    requires Contiguous(s, base, lo)
    ensures s.master.Valid() && s.ann.Valid()
    ensures Base(s) == s.master.rows[0][0].z == base && s.ann.rows[0][0].slice == lo
    ensures var last := s.master.rows[|s.master.rows| - 1]; last[|last| - 1].z == base + |s.master.rows| - 1
    ensures LastSlice(s.ann) == lo + |s.ann.rows| - 1
  {
    forall i | 0 <= i < |s.master.rows| ensures |s.master.rows[i]| == s.master.width {
      assert SliceRow(s.master.rows[i], s.master.width, base + i);
    }
    forall i | 0 <= i < |s.ann.rows| ensures |s.ann.rows[i]| == s.ann.width {
      assert AnnotatesSlice(s.ann.rows[i], s.ann.width, lo + i);
    }
    assert SliceRow(s.master.rows[0], s.master.width, base + 0);
    assert SliceRow(s.master.rows[|s.master.rows| - 1], s.master.width, base + (|s.master.rows| - 1));
    assert AnnotatesSlice(s.ann.rows[0], s.ann.width, lo + 0);
    assert AnnotatesSlice(s.ann.rows[|s.ann.rows| - 1], s.ann.width, lo + (|s.ann.rows| - 1));
  }

  /** When the clouds' row counts differ, padding aligns them exactly when no annotation lies outside
      the point cloud; when they agree, exactly when they already start at the same slice. */
  lemma PaddedAlignedIff(s: Seg, base: int, lo: int)
    requires Contiguous(s, base, lo)
    ensures s.master.Valid() && s.ann.Valid()
    ensures var h, n, s' := |s.master.rows|, |s.ann.rows|, s.(ann := s.ann.(rows := Padded(s)));
            && (Aligned(s') <==> if h == n then base == lo else base <= lo && lo + n <= base + h)
            && (Aligned(s') ==> forall t | lo <= t < lo + n :: InCloud(s', t) && AnnRow(s', t) == s.ann.rows[t - lo])
  {
    hide DefaultRow;
    ContiguousEnds(s, base, lo);
    var h, n, w, s' := |s.master.rows|, |s.ann.rows|, s.ann.width, s.(ann := s.ann.(rows := Padded(s)));
    if h == n {
      assert AnnotatesSlice(s.ann.rows[0], w, lo + 0);
      if base != lo {
        assert !AnnotatesSlice(s.ann.rows[0], w, base + 0);
      }
    } else if base <= lo && lo + n <= base + h {
      forall i | 0 <= i < h ensures AnnotatesSlice(s'.ann.rows[i], w, base + i) {
        if lo - base <= i < lo - base + n {
          assert AnnotatesSlice(s.ann.rows[i - (lo - base)], w, lo + (i - (lo - base)));
        } else {
          assert s'.ann.rows[i] == DefaultRow(w, base + i);
        }
      }
    }
  }

  /** A segment without annotations gets default rows, aligned with its points. */
  lemma NewAnnotationsAligned(s: Seg, base: int)
    requires 0 < s.master.width && s.master.rows != [] && SliceRows(s.master.rows, s.master.width, base)
    ensures var w, h := s.master.width, |s.master.rows|;
            Aligned(s.(ann := OrderedPointSet(w, DefaultRows(w, base, h))))
  {
    hide DefaultRow;
    var w, h := s.master.width, |s.master.rows|;
    var s' := s.(ann := OrderedPointSet(w, DefaultRows(w, base, h)));
    assert SliceRow(s.master.rows[0], w, base + 0);
    forall i | 0 <= i < h ensures AnnotatesSlice(s'.ann.rows[i], w, base + i) {
      assert s'.ann.rows[i] == DefaultRow(w, base + i);
    }
  }

  // ----- annotation flags -----

  /** The first annotation row of slice t, or -1. */
  function FindRow(rows: seq<AnnotationRow>, t: int, i: nat): (r: int)
    requires i <= |rows|
    ensures r == -1 || (i <= r < |rows| && rows[r] != [] && rows[r][0].slice == t)
    decreases |rows| - i
  {
    if i == |rows| then -1
    else if rows[i] != [] && t == rows[i][0].slice then i
    else FindRow(rows, t, i + 1)
  }

  predicate Indexable(s: Seg) {
    s.ann.Valid() && s.ann.width > 0
  }

  function RowIndex(s: Seg, t: int): int {
    FindRow(s.ann.rows, t, 0)
  }

  lemma {:induction false} FindRowIs(rows: seq<AnnotationRow>, w: nat, base: int, t: int, i: nat)
    requires 0 < w && AnnotationRows(rows, w, base) && i <= |rows| && !(base <= t < base + i)
    ensures FindRow(rows, t, i) == if base <= t < base + |rows| then t - base else -1
    decreases |rows| - i
  {
    if i < |rows| {
      assert AnnotatesSlice(rows[i], w, base + i);
      if t != rows[i][0].slice {
        FindRowIs(rows, w, base, t, i + 1);
      }
    }
  }

  lemma RowIndexIs(s: Seg, t: int)
    requires Aligned(s)
    ensures Indexable(s)
    ensures RowIndex(s, t) == if InCloud(s, t) then t - Base(s) else -1
  {
    FindRowIs(s.ann.rows, s.ann.width, Base(s), t, 0);
    forall i | 0 <= i < |s.ann.rows| ensures |s.ann.rows[i]| == s.ann.width {
      assert AnnotatesSlice(s.ann.rows[i], s.ann.width, Base(s) + i);
    }
  }

  function WithAnchor(row: AnnotationRow, anchor: bool): (r: AnnotationRow)
    ensures |r| == |row|
  {
    seq(|row|, j requires 0 <= j < |row| => row[j].(flags := row[j].flags.(anchor := anchor)))
  }

  function WithUsedInRun(row: AnnotationRow, used: bool): (r: AnnotationRow)
    ensures |r| == |row|
  {
    seq(|row|, j requires 0 <= j < |row| => row[j].(flags := row[j].flags.(usedInRun := used)))
  }

  function WithManual(row: AnnotationRow, points: set<int>): (r: AnnotationRow)
    ensures |r| == |row|
  {
    seq(|row|, j requires 0 <= j < |row| =>
      if j in points then row[j].(flags := row[j].flags.(manual := true)) else row[j])
  }

  function WithPositions(row: AnnotationRow, points: Row): (r: AnnotationRow)
    requires |points| == |row|
    ensures |r| == |row|
  {
    seq(|row|, j requires 0 <= j < |row| => row[j].(x := points[j].x, y := points[j].y))
  }

  function CacheEntry(cache: map<int, Flags>, t: int): Flags {
    if t in cache then cache[t] else NO_FLAGS
  }

  function ReplaceRow(s: Seg, r: nat, row: AnnotationRow): Seg
    requires r < |s.ann.rows|
  {
    s.(ann := s.ann.(rows := s.ann.rows[r := row]))
  }

  function SetAnchor(s: Seg, t: int, anchor: bool): Seg {
    var r := RowIndex(s, t);
    if r == -1 then s
    else ReplaceRow(s, r, WithAnchor(s.ann.rows[r], anchor))
         .(cache := s.cache[t := CacheEntry(s.cache, t).(anchor := anchor)])
  }

  function SetUsedInRun(s: Seg, t: int, used: bool): Seg {
    var r := RowIndex(s, t);
    if r == -1 then s
    else ReplaceRow(s, r, WithUsedInRun(s.ann.rows[r], used))
         .(cache := s.cache[t := CacheEntry(s.cache, t).(usedInRun := used)])
  }

  /** Turns the buffered point indices into manual marks on slice t. */
  function SetManualPoints(s: Seg, t: int): Seg {
    var r := RowIndex(s, t);
    if r == -1 || s.buffered == {} then s
    else ReplaceRow(s, r, WithManual(s.ann.rows[r], s.buffered))
         .(cache := if t in s.cache then s.cache[t := s.cache[t].(manual := true)] else s.cache, buffered := {})
  }

  /** Stores the positions of row i and the rows after it as original positions. A row whose
      slice has no annotation row ends it: the source would write outside the cloud there. */
  function SetOriginalPos(s: Seg, ps: PointSet, i: nat): Seg
    decreases |ps.rows| - i
  {
    if i >= |ps.rows| || !CanStore(s, ps, i) then s
    else
      var r := RowIndex(s, ps.rows[i][0].z);
      SetOriginalPos(ReplaceRow(s, r, WithPositions(s.ann.rows[r], ps.rows[i])), ps, i + 1)
  }

  predicate CanStore(s: Seg, ps: PointSet, i: nat)
    requires i < |ps.rows|
  {
    && ps.rows[i] != [] && RowIndex(s, ps.rows[i][0].z) != -1
    && |ps.rows[i]| == |s.ann.rows[RowIndex(s, ps.rows[i][0].z)]|
  }

  /** Is (r, c) visited by the sweep over rows a to b, which stops one point before its end? */
  predicate Swept(a: int, b: int, w: nat, r: int, c: int) {
    if a < b then a <= r <= b && 0 <= c < w && !(r == b && c == w - 1)
    else b <= r <= a && 0 <= c < w && !(r == b && c == 0)
  }

  function Cleared(a: Annotation): Annotation {
    a.(flags := NO_FLAGS)
  }

  lemma ClearedIs(a: Annotation)
    ensures Cleared(a) == Annotation(a.slice, Flags(false, false, false), a.x, a.y)
  {}

  function SweptRow(row: AnnotationRow, a: int, b: int, r: int): (row': AnnotationRow)
    ensures |row'| == |row|
  {
    seq(|row|, c requires 0 <= c < |row| => if Swept(a, b, |row|, r, c) then Cleared(row[c]) else row[c])
  }

  /** Clears the flags on the slices from t to end, in either direction. */
  function ResetAnnotations(s: Seg, t: int, end: int): Seg {
    var a := RowIndex(s, t);
    if a == -1 then s
    else s.(ann := s.ann.(rows := SweptRows(s.ann.rows, a, a + (end - t))))
  }

  /** Does a sweep towards row b write within h rows of width w? The point it leaves out may lie beside them. */
  predicate SweepFits(h: nat, w: nat, b: int) {
    0 <= b < h || (w == 1 && (b == -1 || b == h))
  }

  /** Is point i, counted row by row, visited by a sweep over rows a to b of width w? */
  predicate Visited(a: int, b: int, w: nat, i: int) {
    if a < b then a * w <= i < b * w + w - 1 else b * w < i < a * w + w
  }

  /** Fitting means that every point the sweep visits is one of the h times w points there are. */
  lemma SweepFitsIff(h: nat, w: nat, a: int, b: int)
    requires 0 <= a < h && 0 < w
    ensures SweepFits(h, w, b) <==> forall i | Visited(a, b, w, i) :: 0 <= i < h * w
  {
    RowsInOrder(0, a, w);
    RowsInOrder(a, h - 1, w);
    if SweepFits(h, w, b) {
      RowsInOrder(0, b, w);
      RowsInOrder(b, h - 1, w);
    } else if b >= h {
      RowsInOrder(h, b, w);
      RowsInOrder(h + 1, b, w);
      assert Visited(a, b, w, b * w + w - 2);
    } else {
      RowsInOrder(b, -1, w);
      RowsInOrder(b, -2, w);
      assert Visited(a, b, w, b * w + 1);
    }
  }

  /** A later row starts at least its distance behind. */
  lemma RowsInOrder(a: int, b: int, w: nat)
    ensures a <= b ==> a * w <= b * w
    ensures (a + 1) * w == a * w + w && (b + 1) * w == b * w + w
  {
    if a <= b {
      assert (b - a) * w >= 0;
    }
  }

  function SweptRows(rows: seq<AnnotationRow>, a: int, b: int): seq<AnnotationRow> {
    seq(|rows|, r requires 0 <= r < |rows| => SweptRow(rows[r], a, b, r))
  }

  // ----- the starting chain -----

  /** The row without the points that are marked as missing by slice -1. */
  function WithoutDummies(row: Row): Row {
    if row == [] then [] else (if row[0].z == -1 then [] else [row[0]]) + WithoutDummies(row[1..])
  }

  /** Exactly the points marked as missing are dropped, and the others keep their order. */
  lemma {:induction false} WithoutDummiesIs(a: Row, p: Point)
    ensures WithoutDummies(a + [p]) == WithoutDummies(a) + if p.z == -1 then [] else [p]
  {
    if a == [] {
      assert a + [p] == [p] && [p][1..] == [];
    } else {
      assert (a + [p])[1..] == a[1..] + [p];
      WithoutDummiesIs(a[1..], p);
    }
  }

  lemma {:induction false} NoDummies(row: Row)
    requires forall j | 0 <= j < |row| :: row[j].z != -1
    ensures WithoutDummies(row) == row
  {
    if row != [] {
      NoDummies(row[1..]);
    }
  }

  /** On entering the tool the starting chain of a segment is the row of its cloud. */
  lemma ChainIsRow(s: Seg, t: int)
    requires Aligned(s) && InCloud(s, t) && t != -1
    ensures WithoutDummies(MasterRow(s, t)) == MasterRow(s, t)
  {
    RowOf(s, t);
    NoDummies(MasterRow(s, t));
  }

  // ----- the decoded annotations -----

  function RowFlags(row: AnnotationRow): Flags {
    Flags(exists j :: 0 <= j < |row| && row[j].flags.anchor,
          exists j :: 0 <= j < |row| && row[j].flags.manual,
          exists j :: 0 <= j < |row| && row[j].flags.usedInRun)
  }

  /** The decoded annotations of the first n rows. */
  function Decoded(rows: seq<AnnotationRow>, n: nat): map<int, Flags>
    requires n <= |rows|
  {
    if n == 0 then map[]
    else if rows[n - 1] == [] then Decoded(rows, n - 1)
    else Decoded(rows, n - 1)[rows[n - 1][|rows[n - 1]| - 1].slice := RowFlags(rows[n - 1])]
  }

  function SetUpAnnotations(s: Seg): Seg {
    if s.master.rows == [] || s.ann.rows == [] then s else s.(cache := Decoded(s.ann.rows, |s.ann.rows|))
  }

  /** The cache after looking up slices lo to hi with an inserting lookup. */
  function InsertDefaults(cache: map<int, Flags>, lo: int, hi: int): map<int, Flags> {
    map t | t in cache.Keys + SliceSet(lo, hi) :: CacheEntry(cache, t)
  }

  function SliceSet(lo: int, hi: int): (r: set<int>)
    ensures forall t :: t in r <==> lo <= t <= hi
    decreases hi - lo
  {
    if hi < lo then {} else SliceSet(lo, hi - 1) + {hi}
  }

  /** The nearest slice below t and not below lo whose cache entry is an anchor, or -1. */
  function NearestLower(cache: map<int, Flags>, t: int, lo: int): int
    decreases t - lo
  {
    if t - 1 < lo then -1 else if CacheEntry(cache, t - 1).anchor then t - 1 else NearestLower(cache, t - 1, lo)
  }

  /** The nearest slice above t and below n whose cache entry is an anchor, or -1. */
  function NearestHigher(cache: map<int, Flags>, t: int, n: int): int
    decreases n - t
  {
    if t + 1 >= n then -1 else if CacheEntry(cache, t + 1).anchor then t + 1 else NearestHigher(cache, t + 1, n)
  }

  /** The last slice a search from t down to lo looks at. */
  function LowerStop(cache: map<int, Flags>, t: int, lo: int): int
    decreases t - lo
  {
    if t - 1 < lo then t else if CacheEntry(cache, t - 1).anchor then t - 1 else LowerStop(cache, t - 1, lo)
  }

  /** The last slice a search from t up to n looks at. */
  function HigherStop(cache: map<int, Flags>, t: int, n: int): int
    decreases n - t
  {
    if t + 1 >= n then t else if CacheEntry(cache, t + 1).anchor then t + 1 else HigherStop(cache, t + 1, n)
  }

  function LookUpLower(s: Seg, t: int): Seg {
    s.(cache := InsertDefaults(s.cache, LowerStop(s.cache, t, s.minSlice), t - 1))
  }

  function LookUpHigher(s: Seg, t: int, n: int): Seg {
    s.(cache := InsertDefaults(s.cache, t + 1, HigherStop(s.cache, t, n)))
  }
}
