/** The reordering step of the singular value decomposition: a Shell sort that
    moves the columns of u and v along with the values in w, then sign flips. */
module Reorder {
  import opened RealSums

  /** One singular value with its left and right singular vectors. */
  datatype Triple = Triple(w: real, u: seq<real>, v: seq<real>)

  function Column(a: array2<real>, k: nat): (c: seq<real>)
    requires k < a.Length1
    reads a
    ensures |c| == a.Length0
  {
    seq(a.Length0, i requires 0 <= i < a.Length0 reads a => a[i, k])
  }

  predicate Shaped(u: array2<real>, w: array<real>, v: array2<real>) {
    u != v && v.Length0 == v.Length1 == u.Length1 <= w.Length
  }

  function Triples(u: array2<real>, w: array<real>, v: array2<real>): (c: seq<Triple>)
    requires Shaped(u, w, v)
    reads u, w, v
    ensures |c| == u.Length1
  {
    seq(u.Length1, k requires 0 <= k < u.Length1 reads u, w, v => Triple(w[k], Column(u, k), Column(v, k)))
  }

  lemma TripleAt(u: array2<real>, w: array<real>, v: array2<real>, k: nat)
    requires Shaped(u, w, v) && k < u.Length1
    ensures Triples(u, w, v)[k] == Triple(w[k], Column(u, k), Column(v, k))
  {}

  /** The gaps of the Shell sort: 1, 4, 13, 40, .. */
  predicate ShellGap(inc: nat) {
    inc == 1 || (inc > 1 && inc % 3 == 1 && ShellGap(inc / 3))
  }

  /** Values a gap apart do not increase, up to position i. */
  ghost predicate GapSorted(c: seq<Triple>, inc: nat, i: nat) {
    forall k | inc <= k < i && k < |c| :: c[k - inc].w >= c[k].w
  }

  ghost predicate NonIncreasing(c: seq<Triple>) {
    forall j, k | 0 <= j <= k < |c| :: c[j].w >= c[k].w
  }

  // ----- column moves -----

  method SaveColumn(a: array2<real>, k: nat) returns (c: seq<real>)
    requires k < a.Length1
    ensures c == Column(a, k)
  {
    c := [];
    for i := 0 to a.Length0
      invariant |c| == i && forall p | 0 <= p < i :: c[p] == a[p, k]
    {
      c := c + [a[i, k]];
    }
  }

  method StoreColumn(a: array2<real>, c: seq<real>, to: nat)
    requires to < a.Length1 && |c| == a.Length0
    modifies a
    ensures forall i, k | 0 <= i < a.Length0 && 0 <= k < a.Length1 ::
              a[i, k] == if k == to then c[i] else old(a[i, k])
  {
    for i := 0 to a.Length0
      invariant forall p, k | 0 <= p < a.Length0 && 0 <= k < a.Length1 ::
                  a[p, k] == if k == to && p < i then c[p] else old(a[p, k])
    {
      a[i, to] := c[i];
    }
  }

  method CopyColumn(a: array2<real>, from: nat, to: nat)
    requires from < a.Length1 && to < a.Length1 && from != to
    modifies a
    ensures forall i, k | 0 <= i < a.Length0 && 0 <= k < a.Length1 ::
              a[i, k] == if k == to then old(a[i, from]) else old(a[i, k])
  {
    for i := 0 to a.Length0
      invariant forall p, k | 0 <= p < a.Length0 && 0 <= k < a.Length1 ::
                  a[p, k] == if k == to && p < i then old(a[p, from]) else old(a[p, k])
    {
      a[i, to] := a[i, from];
    }
  }

  method ShiftTriple(u: array2<real>, w: array<real>, v: array2<real>, from: nat, to: nat)
    requires Shaped(u, w, v) && from < u.Length1 && to < u.Length1 && from != to
    modifies u, w, v
    ensures Triples(u, w, v) == old(Triples(u, w, v))[to := old(Triples(u, w, v))[from]]
    ensures forall k | 0 <= k < w.Length && k != to :: w[k] == old(w[k])
  {
    ghost var c := Triples(u, w, v);
    w[to] := w[from];
    CopyColumn(u, from, to);
    CopyColumn(v, from, to);
    forall k | 0 <= k < u.Length1 ensures Triples(u, w, v)[k] == c[to := c[from]][k] {
      assert Column(u, k) == old(Column(u, if k == to then from else k));
      assert Column(v, k) == old(Column(v, if k == to then from else k));
    }
  }

  method PlaceTriple(u: array2<real>, w: array<real>, v: array2<real>, t: Triple, to: nat)
    requires Shaped(u, w, v) && to < u.Length1 && |t.u| == u.Length0 && |t.v| == v.Length0
    modifies u, w, v
    ensures Triples(u, w, v) == old(Triples(u, w, v))[to := t]
    ensures forall k | 0 <= k < w.Length && k != to :: w[k] == old(w[k])
  {
    ghost var c := Triples(u, w, v);
    w[to] := t.w;
    StoreColumn(u, t.u, to);
    StoreColumn(v, t.v, to);
    forall k | 0 <= k < u.Length1 ensures Triples(u, w, v)[k] == c[to := t][k] {
      assert Column(u, k) == if k == to then t.u else old(Column(u, k));
      assert Column(v, k) == if k == to then t.v else old(Column(v, k));
    }
  }

  // ----- the sort -----

  lemma SwapKeepsMultiset(s: seq<Triple>, i: nat, j: nat)
    requires i < |s| && j < |s|
    ensures multiset(s[i := s[j]][j := s[i]]) == multiset(s)
  {}

  /** Gap-sorted up to and including i, but for the pair that ends at j. */
  ghost predicate Gapped(c: seq<Triple>, inc: nat, i: nat, j: nat) {
    && (forall k | inc <= k <= i && k < |c| && k != j :: c[k - inc].w >= c[k].w)
    && (inc <= j && j + inc <= i < |c| ==> c[j - inc].w >= c[j + inc].w)
  }

  ghost predicate Permutation(c: seq<Triple>, d: seq<Triple>) {
    multiset(c) == multiset(d)
  }

  lemma PermutationTrans(c: seq<Triple>, d: seq<Triple>, e: seq<Triple>)
    requires Permutation(c, d) && Permutation(d, e)
    ensures Permutation(c, e)
  {}

  /** The state of an insertion: t belongs in the hole at j of c, a rearrangement of start. */
  ghost predicate Inserting(c: seq<Triple>, t: Triple, inc: nat, i: nat, j: nat, start: seq<Triple>) {
    j <= i < |c| && Permutation(c[j := t], start) && Gapped(c[j := t], inc, i, j)
  }

  lemma InsertStart(c: seq<Triple>, inc: nat, i: nat)
    requires 0 < inc && i < |c| && GapSorted(c, inc, i)
    ensures Inserting(c, c[i], inc, i, i, c)
  {
    assert c[i := c[i]] == c;
  }

  /** Moving the hole at j one gap down keeps the columns and the order around it. */
  lemma InsertStep(c: seq<Triple>, t: Triple, inc: nat, i: nat, j: nat, start: seq<Triple>)
    requires 0 < inc <= j && Inserting(c, t, inc, i, j, start) && c[j - inc].w < t.w
    ensures Inserting(c[j := c[j - inc]], t, inc, i, j - inc, start)
  {
    var d := c[j := t];
    SwapKeepsMultiset(d, j, j - inc);
    assert c[j := c[j - inc]][j - inc := t] == d[j := d[j - inc]][j - inc := d[j]];
    GappedStep(d, inc, i, j);
  }

  lemma GappedStep(d: seq<Triple>, inc: nat, i: nat, j: nat)
    requires 0 < inc <= j <= i < |d| && Gapped(d, inc, i, j) && d[j - inc].w < d[j].w
    ensures Gapped(d[j := d[j - inc]][j - inc := d[j]], inc, i, j - inc)
  {
    var d' := d[j := d[j - inc]][j - inc := d[j]];
    forall k | inc <= k <= i && k != j - inc ensures d'[k - inc].w >= d'[k].w {
      assert k != j ==> d[k - inc].w >= d[k].w;
    }
  }

  lemma InsertDone(c: seq<Triple>, t: Triple, inc: nat, i: nat, j: nat, start: seq<Triple>)
    requires 0 < inc && Inserting(c, t, inc, i, j, start)
    requires inc <= j ==> c[j - inc].w >= t.w
    ensures Permutation(c[j := t], start) && GapSorted(c[j := t], inc, i + 1)
  {}

  /** Inserts column i into the columns below it that lie a multiple of inc away. */
  method InsertColumn(u: array2<real>, w: array<real>, v: array2<real>, inc: nat, i: nat)
    requires Shaped(u, w, v) && 0 < inc <= i < u.Length1
    requires GapSorted(Triples(u, w, v), inc, i)
    modifies u, w, v
    ensures Permutation(Triples(u, w, v), old(Triples(u, w, v)))
    ensures GapSorted(Triples(u, w, v), inc, i + 1)
    ensures forall k | u.Length1 <= k < w.Length :: w[k] == old(w[k])
  {
    hide Column, Triples, Inserting, GapSorted, Permutation;
    var n := u.Length1;
    var su := SaveColumn(u, i);
    var sv := SaveColumn(v, i);
    var t := Triple(w[i], su, sv);
    var j := i;
    ghost var c := Triples(u, w, v);
    ghost var start := c;
    TripleAt(u, w, v, i);
    InsertStart(c, inc, i);
    while w[j - inc] < t.w
      invariant inc <= j <= i
      invariant Triples(u, w, v) == c
      invariant Inserting(c, t, inc, i, j, start)
      invariant forall k | n <= k < w.Length :: w[k] == old(w[k])
      decreases j
    {
      TripleAt(u, w, v, j - inc);
      InsertStep(c, t, inc, i, j, start);
      ShiftTriple(u, w, v, j - inc, j);
      c, j := c[j := c[j - inc]], j - inc;
      if j < inc {
        break;
      }
    }
    if inc <= j {
      TripleAt(u, w, v, j - inc);
    }
    InsertDone(c, t, inc, i, j, start);
    PlaceTriple(u, w, v, t, j);
  }

  lemma NothingToSort(c: seq<Triple>, inc: nat)
    ensures Permutation(c, c)
    ensures GapSorted(c, inc, inc)
  {}

  lemma GapSortedPrefix(c: seq<Triple>, inc: nat, i: nat, n: nat)
    requires GapSorted(c, inc, i) && n <= i
    ensures GapSorted(c, inc, n)
  {}

  /** One pass of the sort with a fixed gap. */
  method GapPass(u: array2<real>, w: array<real>, v: array2<real>, inc: nat)
    requires Shaped(u, w, v) && 0 < inc
    modifies u, w, v
    ensures Permutation(Triples(u, w, v), old(Triples(u, w, v)))
    ensures GapSorted(Triples(u, w, v), inc, u.Length1)
    ensures forall k | u.Length1 <= k < w.Length :: w[k] == old(w[k])
  {
    hide Triples, Permutation, GapSorted;
    var i := inc;
    ghost var start := Triples(u, w, v);
    NothingToSort(start, inc);
    while i < u.Length1
      invariant inc <= i
      invariant Permutation(Triples(u, w, v), start)
      invariant GapSorted(Triples(u, w, v), inc, i)
      invariant forall k | u.Length1 <= k < w.Length :: w[k] == old(w[k])
    {
      ghost var before := Triples(u, w, v);
      InsertColumn(u, w, v, inc, i);
      PermutationTrans(Triples(u, w, v), before, start);
      i := i + 1;
    }
    GapSortedPrefix(Triples(u, w, v), inc, i, u.Length1);
  }

  lemma {:induction false} AdjacentSorted(c: seq<Triple>, j: nat, k: nat)
    requires GapSorted(c, 1, |c|) && j <= k < |c|
    ensures c[j].w >= c[k].w
    decreases k - j
  {
    if j < k {
      AdjacentSorted(c, j, k - 1);
      assert c[k - 1].w >= c[k].w;
    }
  }

  /** The Shell sort: whatever the earlier gaps did, the last pass has gap one. */
  method SortTriples(u: array2<real>, w: array<real>, v: array2<real>)
    requires Shaped(u, w, v)
    modifies u, w, v
    ensures Permutation(Triples(u, w, v), old(Triples(u, w, v)))
    ensures NonIncreasing(Triples(u, w, v))
    ensures forall k | u.Length1 <= k < w.Length :: w[k] == old(w[k])
  {
    hide Triples, Permutation, GapSorted;
    var n := u.Length1;
    ghost var start := Triples(u, w, v);
    var inc := 4;
    while inc <= n
      invariant ShellGap(inc) && inc > 1
      decreases n - inc
    {
      inc := inc * 3 + 1;
    }
    inc := inc / 3;
    GapPass(u, w, v, inc);
    while inc > 1
      invariant inc > 0 && ShellGap(inc)
      invariant Permutation(Triples(u, w, v), start)
      invariant GapSorted(Triples(u, w, v), inc, n)
      invariant forall k | n <= k < w.Length :: w[k] == old(w[k])
    {
      ghost var before := Triples(u, w, v);
      inc := inc / 3;
      GapPass(u, w, v, inc);
      PermutationTrans(Triples(u, w, v), before, start);
    }
    GapOneSorts(Triples(u, w, v));
  }

  lemma GapOneSorts(c: seq<Triple>)
    requires GapSorted(c, 1, |c|)
    ensures NonIncreasing(c)
  {
    forall j, k | 0 <= j <= k < |c| ensures c[j].w >= c[k].w {
      AdjacentSorted(c, j, k);
    }
  }

  // ----- sign flips -----

  function Negatives(s: seq<real>): nat {
    if |s| == 0 then 0 else Negatives(s[..|s| - 1]) + if s[|s| - 1] < 0.0 then 1 else 0
  }

  function Negated(s: seq<real>): (r: seq<real>)
    ensures |r| == |s|
  {
    seq(|s|, i requires 0 <= i < |s| => -s[i])
  }

  /** The shared sign flip of a column pair with more than half of its entries negative. */
  function Flipped(t: Triple): Triple {
    if Negatives(t.u) + Negatives(t.v) > (|t.u| + |t.v|) / 2
    then Triple(t.w, Negated(t.u), Negated(t.v))
    else t
  }

  lemma {:induction false} NegativesOfNegated(s: seq<real>)
    ensures Negatives(s) + Negatives(Negated(s)) <= |s|
  {
    if |s| != 0 {
      NegativesOfNegated(s[..|s| - 1]);
      assert Negated(s)[..|s| - 1] == Negated(s[..|s| - 1]);
    }
  }

  function NegativePlaces(s: seq<real>): set<int> {
    set i | 0 <= i < |s| && s[i] < 0.0
  }

  lemma {:induction false} NegativesIs(s: seq<real>)
    ensures Negatives(s) == |NegativePlaces(s)|
  {
    if s == [] {
      assert NegativePlaces(s) == {};
    } else {
      var rest, m := s[..|s| - 1], |s| - 1;
      NegativesIs(rest);
      assert NegativePlaces(s) == if s[m] < 0.0 then NegativePlaces(rest) + {m} else NegativePlaces(rest);
    }
  }

  /** A pair is negated, both columns together, exactly if more than half of its entries (without a fraction) are
      negative. */
  lemma FlippedIff(t: Triple)
    ensures var negative := |set i | 0 <= i < |t.u| && t.u[i] < 0.0| + |set j | 0 <= j < |t.v| && t.v[j] < 0.0|;
            var f := Flipped(t);
            && f.w == t.w && |f.u| == |t.u| && |f.v| == |t.v|
            && (negative <= (|t.u| + |t.v|) / 2 ==> f == t)
            && (negative > (|t.u| + |t.v|) / 2 ==>
                  (forall i | 0 <= i < |t.u| :: f.u[i] == -t.u[i]) && (forall j | 0 <= j < |t.v| :: f.v[j] == -t.v[j]))
  {
    NegativesIs(t.u);
    NegativesIs(t.v);
  }

  /** After its flip no column pair has more than half of its entries negative. */
  lemma FlippedIsMostlyPositive(t: Triple)
    ensures var f := Flipped(t);
            Negatives(f.u) + Negatives(f.v) <= (|t.u| + |t.v|) / 2
  {
    NegativesOfNegated(t.u);
    NegativesOfNegated(t.v);
  }

  method CountNegatives(a: array2<real>, k: nat) returns (s: nat)
    requires k < a.Length1
    ensures s == Negatives(Column(a, k))
  {
    s := 0;
    ghost var c := Column(a, k);
    for i := 0 to a.Length0
      invariant s == Negatives(c[..i])
    {
      assert c[..i + 1][..i] == c[..i];
      if a[i, k] < 0.0 {
        s := s + 1;
      }
    }
    assert c[..a.Length0] == c;
  }

  method NegateColumn(a: array2<real>, k: nat)
    requires k < a.Length1
    modifies a
    ensures forall i, j | 0 <= i < a.Length0 && 0 <= j < a.Length1 ::
              a[i, j] == if j == k then -old(a[i, j]) else old(a[i, j])
  {
    for i := 0 to a.Length0
      invariant forall p, j | 0 <= p < a.Length0 && 0 <= j < a.Length1 ::
                  a[p, j] == if j == k && p < i then -old(a[p, j]) else old(a[p, j])
    {
      a[i, k] := -a[i, k];
    }
  }

  method FlipColumn(u: array2<real>, w: array<real>, v: array2<real>, k: nat)
    requires Shaped(u, w, v) && k < u.Length1
    modifies u, v
    ensures Triples(u, w, v) == old(Triples(u, w, v))[k := Flipped(old(Triples(u, w, v))[k])]
  {
    hide Negatives;
    ghost var c := Triples(u, w, v);
    TripleAt(u, w, v, k);
    var su := CountNegatives(u, k);
    var sv := CountNegatives(v, k);
    if su + sv > (u.Length0 + v.Length0) / 2 {
      NegateColumn(u, k);
      NegateColumn(v, k);
      forall j | 0 <= j < u.Length1 ensures Triples(u, w, v)[j] == c[k := Flipped(c[k])][j] {
        assert Column(u, j) == if j == k then Negated(old(Column(u, j))) else old(Column(u, j));
        assert Column(v, j) == if j == k then Negated(old(Column(v, j))) else old(Column(v, j));
      }
    }
  }

  // ----- what reordering preserves -----

  /** Entry (i, j) of the rank-one matrix w * u * v^T. */
  function Outer(t: Triple, i: nat, j: nat): real {
    if i < |t.u| && j < |t.v| then t.u[i] * t.w * t.v[j] else 0.0
  }

  /** Entry (i, j) of the matrix the triples decompose: the sum of their outer products. */
  function Recombined(c: seq<Triple>, i: nat, j: nat): real {
    if c == [] then 0.0 else Outer(c[0], i, j) + Recombined(c[1..], i, j)
  }

  lemma {:induction false} RecombinedRemove(c: seq<Triple>, p: nat, i: nat, j: nat)
    requires p < |c|
    ensures Recombined(c, i, j) == Outer(c[p], i, j) + Recombined(c[..p] + c[p + 1..], i, j)
  {
    hide Outer;
    if p == 0 {
      assert c[..p] + c[p + 1..] == c[1..];
    } else {
      RecombinedRemove(c[1..], p - 1, i, j);
      var rest := c[..p] + c[p + 1..];
      assert rest[1..] == c[1..][..p - 1] + c[1..][p..];
      assert rest[0] == c[0];
    }
  }

  /** The partner of the first triple in a permutation. */
  lemma MatchFirst(c: seq<Triple>, d: seq<Triple>) returns (p: nat)
    requires c != [] && multiset(c) == multiset(d)
    ensures p < |d| && d[p] == c[0]
    ensures multiset(c[1..]) == multiset(d[..p] + d[p + 1..])
  {
    assert c[0] in multiset(d);
    p :| 0 <= p < |d| && d[p] == c[0];
    assert c == [c[0]] + c[1..];
    assert d == d[..p] + [d[p]] + d[p + 1..];
    assert multiset(c) == multiset{c[0]} + multiset(c[1..]);
    assert multiset(d) == multiset{d[p]} + multiset(d[..p] + d[p + 1..]);
    assert multiset(c[1..]) == multiset(c) - multiset{c[0]};
  }

  lemma {:induction false} RecombinedPermutation(c: seq<Triple>, d: seq<Triple>, i: nat, j: nat)
    requires Permutation(c, d)
    ensures Recombined(c, i, j) == Recombined(d, i, j)
    decreases |c|
  {
    hide Outer;
    if c == [] {
      assert |d| == |multiset(d)| == 0;
    } else {
      var p := MatchFirst(c, d);
      RecombinedPermutation(c[1..], d[..p] + d[p + 1..], i, j);
      RecombinedRemove(d, p, i, j);
    }
  }

  lemma FlippedOuter(t: Triple, i: nat, j: nat)
    ensures Outer(Flipped(t), i, j) == Outer(t, i, j)
  {
    hide Negatives;
    if i < |t.u| && j < |t.v| {
      assert (-t.u[i]) * t.w * (-t.v[j]) == t.u[i] * t.w * t.v[j];
    }
  }

  lemma {:induction false} RecombinedFlipped(c: seq<Triple>, d: seq<Triple>, i: nat, j: nat)
    requires |c| == |d| && forall k | 0 <= k < |c| :: d[k] == Flipped(c[k])
    ensures Recombined(d, i, j) == Recombined(c, i, j)
  {
    hide Outer, Flipped;
    if c != [] {
      FlippedOuter(c[0], i, j);
      RecombinedFlipped(c[1..], d[1..], i, j);
    }
  }

  /** Sorts the singular values with their vectors and fixes the signs. The ghost
      result is the order before the flips: a permutation of the input triples. */
  method Reorder(u: array2<real>, w: array<real>, v: array2<real>) returns (ghost sorted: seq<Triple>)
    requires Shaped(u, w, v)
    modifies u, w, v
    ensures Permutation(sorted, old(Triples(u, w, v)))
    ensures |sorted| == u.Length1
    ensures forall k | 0 <= k < u.Length1 :: Triples(u, w, v)[k] == Flipped(sorted[k])
    ensures forall j, k | 0 <= j <= k < u.Length1 :: w[j] >= w[k]
    ensures forall k | u.Length1 <= k < w.Length :: w[k] == old(w[k])
    ensures forall i: nat, j: nat :: Recombined(Triples(u, w, v), i, j) == old(Recombined(Triples(u, w, v), i, j))
    ensures forall k | 0 <= k < u.Length1 ::
              Negatives(Column(u, k)) + Negatives(Column(v, k)) <= (u.Length0 + v.Length0) / 2
  {
    hide Triples, Column, Recombined, Flipped, Negatives;
    ghost var before := Triples(u, w, v);
    SortTriples(u, w, v);
    sorted := Triples(u, w, v);
    for k := 0 to u.Length1
      modifies u, v
      invariant forall p | 0 <= p < u.Length1 :: Triples(u, w, v)[p] == if p < k then Flipped(sorted[p]) else sorted[p]
    {
      FlipColumn(u, w, v, k);
    }
    ghost var after := Triples(u, w, v);
    forall i: nat, j: nat ensures Recombined(after, i, j) == Recombined(before, i, j) {
      RecombinedPermutation(sorted, before, i, j);
      RecombinedFlipped(sorted, after, i, j);
    }
    forall k | 0 <= k < u.Length1
      ensures Negatives(Column(u, k)) + Negatives(Column(v, k)) <= (u.Length0 + v.Length0) / 2
      ensures w[k] == sorted[k].w
    {
      TripleAt(u, w, v, k);
      FlippedShape(sorted[k]);
      FlippedIsMostlyPositive(sorted[k]);
    }
  }

  lemma FlippedShape(t: Triple)
    ensures Flipped(t).w == t.w && |Flipped(t).u| == |t.u| && |Flipped(t).v| == |t.v|
  {}
}
