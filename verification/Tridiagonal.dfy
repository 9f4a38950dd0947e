/** The Thomas algorithm for tridiagonal systems: forward elimination and back
    substitution, exactly as far as the pivots allow. */
module Tridiagonal {
  import opened Geometry
  import opened RealSums
  import opened DenseMatrix

  function Abs(x: real): real {
    if x < 0.0 then -x else x
  }

  /** The diagonal entry left in row i after eliminating row i - 1. */
  function Pivot(a: (int, int) -> real, i: nat): real
    decreases i, 0
  {
    if i == 0 then a(0, 0) else a(i, i) - Mul(a(i, i - 1), Ratio(a, i - 1))
  }

  /** The super-diagonal entry of row i after elimination and scaling. */
  function Ratio(a: (int, int) -> real, i: nat): real
    decreases i, 1
  {
    if Pivot(a, i) == 0.0 then 0.0 else Div(a(i, i + 1), Pivot(a, i))
  }

  predicate Regular(a: (int, int) -> real, n: nat) {
    forall i | 0 <= i < n :: Pivot(a, i) != 0.0
  }

  /** The right-hand side of row i after elimination and scaling. */
  function Reduced(a: (int, int) -> real, b: seq<real>, i: nat): real
    requires i < |b| && Regular(a, |b|)
  {
    if i == 0 then Div(b[0], Pivot(a, 0))
    else Div(b[i] - Mul(a(i, i - 1), Reduced(a, b, i - 1)), Pivot(a, i))
  }

  function LowerTerm(a: (int, int) -> real, x: seq<real>, i: nat): real
    requires i < |x|
  {
    if i > 0 then Mul(a(i, i - 1), x[i - 1]) else 0.0
  }

  function UpperTerm(a: (int, int) -> real, x: seq<real>, i: nat): real
    requires i < |x|
  {
    if i + 1 < |x| then Mul(a(i, i + 1), x[i + 1]) else 0.0
  }

  /** Row i of the tridiagonal part of a applied to x. */
  function RowValue(a: (int, int) -> real, x: seq<real>, i: nat): real
    requires i < |x|
  {
    LowerTerm(a, x, i) + Mul(a(i, i), x[i]) + UpperTerm(a, x, i)
  }

  predicate Solves(a: (int, int) -> real, b: seq<real>, x: seq<real>) {
    |x| == |b| && forall i | 0 <= i < |x| :: RowValue(a, x, i) == b[i]
  }

  /** Zero but for the three diagonals. */
  ghost predicate Banded(a: (int, int) -> real, n: nat) {
    forall i, j | 0 <= i < n && 0 <= j < n :: Distance(i, j) > 1 ==> a(i, j) == 0.0
  }

  /** The terms of row i of a applied to x. */
  function RowTerms(a: (int, int) -> real, x: seq<real>, i: nat): int -> real {
    j => if 0 <= j < |x| then Mul(a(i, j), x[j]) else 0.0
  }

  /** On a matrix that is zero off the band, solving is solving the whole system: every row of a applied to x is the
      entry of the right-hand side. */
  lemma SolvesWholeIff(a: (int, int) -> real, b: seq<real>, x: seq<real>)
    requires Banded(a, |x|)
    ensures Solves(a, b, x) <==> |x| == |b| && forall i | 0 <= i < |x| :: Sum(|x|, RowTerms(a, x, i)) == b[i]
  {
    hide RowValue, RowTerms, Sum;
    forall i | 0 <= i < |x| ensures RowValue(a, x, i) == Sum(|x|, RowTerms(a, x, i)) {
      BandedRow(a, x, i);
    }
  }

  lemma BandedRow(a: (int, int) -> real, x: seq<real>, i: nat)
    requires Banded(a, |x|) && i < |x|
    ensures RowValue(a, x, i) == Sum(|x|, RowTerms(a, x, i))
  {
    hide Sum, Mul;
    var f := RowTerms(a, x, i);
    forall j | 0 <= j < |x| && Distance(i, j) > 1 ensures f(j) == 0.0 {
      Distribute(0.0, 0.0, 0.0, x[j]);
    }
    SumBand(|x|, i, f);
  }

  lemma {:induction false} SumBand(n: nat, i: nat, f: int -> real)
    requires i < n && forall j | 0 <= j < n && Distance(i, j) > 1 :: f(j) == 0.0
    ensures Sum(n, f) == (if i > 0 then f(i - 1) else 0.0) + f(i) + (if i + 1 < n then f(i + 1) else 0.0)
  {
    if n > i + 2 {
      SumBand(n - 1, i, f);
    } else if n == i + 2 {
      SumBand(n - 1, i, f);
    } else if i > 0 {
      SumZero(i - 1, f);
      assert Sum(i, f) == Sum(i - 1, f) + f(i - 1);
    }
  }

  /** x in the form back substitution produces. */
  ghost predicate BackSubstituted(a: (int, int) -> real, b: seq<real>, x: seq<real>)
    requires Regular(a, |b|)
  {
    |x| == |b| && forall i | 0 <= i < |x| :: x[i] == Reduced(a, b, i) - NextTerm(a, x, i)
  }

  function NextTerm(a: (int, int) -> real, x: seq<real>, i: nat): real
    requires i < |x|
  {
    if i + 1 < |x| then Mul(Ratio(a, i), x[i + 1]) else 0.0
  }

  /** One row with the elimination undone: p is its pivot, next the scaled upper term. */
  lemma UndoElimination(sub: real, diag: real, p: real, cPrev: real, dPrev: real, xPrev: real, x: real, next: real, b: real)
    requires p == diag - Mul(sub, cPrev) && p != 0.0
    requires xPrev == dPrev - Mul(cPrev, x)
    ensures Mul(sub, xPrev) + Mul(diag, x) + Mul(p, next) == b <==> x == Div(b - Mul(sub, dPrev), p) - next
  {
    assert sub * xPrev == sub * dPrev - sub * (cPrev * x);
    assert diag * x == p * x + sub * (cPrev * x);
    var z := x + next;
    assert p * x + p * next == p * z;
    DivideOut(b - Mul(sub, dPrev), p, z);
  }

  lemma DivideOut(y: real, p: real, z: real)
    requires p != 0.0
    ensures p * z == y <==> z == y / p
  {
    if p * z == y {
      assert (p * z) / p == z;
    }
  }

  lemma ScaledNext(a: (int, int) -> real, x: seq<real>, i: nat)
    requires i < |x| && Pivot(a, i) != 0.0
    ensures Mul(Pivot(a, i), NextTerm(a, x, i)) == UpperTerm(a, x, i)
  {
    hide Pivot;
    if i + 1 < |x| {
      DivMul(Pivot(a, i), a(i, i + 1), x[i + 1]);
    }
  }

  lemma DivMul(p: real, u: real, y: real)
    requires p != 0.0
    ensures Mul(p, Mul(Div(u, p), y)) == Mul(u, y)
  {
    assert p * ((u / p) * y) == (p * (u / p)) * y;
  }

  lemma PivotStep(a: (int, int) -> real, i: nat)
    requires i > 0
    ensures Pivot(a, i) == a(i, i) - Mul(a(i, i - 1), Ratio(a, i - 1))
  {
    hide Mul, Ratio;
  }

  lemma ReducedStep(a: (int, int) -> real, b: seq<real>, i: nat)
    requires Regular(a, |b|) && 0 < i < |b|
    ensures Reduced(a, b, i) == Div(b[i] - Mul(a(i, i - 1), Reduced(a, b, i - 1)), Pivot(a, i))
  {
    hide Mul, Div, Pivot;
  }

  /** Row i holds exactly when x[i] is what back substitution gives, if row i - 1 is in that form. */
  lemma RowEquivalence(a: (int, int) -> real, b: seq<real>, x: seq<real>, i: nat)
    requires Regular(a, |b|) && |x| == |b| && i < |x|
    requires i > 0 ==> x[i - 1] == Reduced(a, b, i - 1) - NextTerm(a, x, i - 1)
    ensures RowValue(a, x, i) == b[i] <==> x[i] == Reduced(a, b, i) - NextTerm(a, x, i)
  {
    ScaledNext(a, x, i);
    if i == 0 {
      FirstRow(a, b, x);
    } else {
      hide Mul, Div, Pivot, Ratio, Reduced;
      PivotStep(a, i);
      ReducedStep(a, b, i);
      UndoElimination(a(i, i - 1), a(i, i), Pivot(a, i), Ratio(a, i - 1), Reduced(a, b, i - 1),
                      x[i - 1], x[i], NextTerm(a, x, i), b[i]);
    }
  }

  lemma FirstRow(a: (int, int) -> real, b: seq<real>, x: seq<real>)
    requires Regular(a, |b|) && |x| == |b| && 0 < |x|
    requires Mul(Pivot(a, 0), NextTerm(a, x, 0)) == UpperTerm(a, x, 0)
    ensures RowValue(a, x, 0) == b[0] <==> x[0] == Reduced(a, b, 0) - NextTerm(a, x, 0)
  {
    assert Mul(0.0, 0.0) == 0.0;
    UndoElimination(0.0, a(0, 0), Pivot(a, 0), 0.0, 0.0, 0.0, x[0], NextTerm(a, x, 0), b[0]);
  }

  lemma BackSubstitutionSolves(a: (int, int) -> real, b: seq<real>, x: seq<real>)
    requires Regular(a, |b|) && BackSubstituted(a, b, x)
    ensures Solves(a, b, x)
  {
    hide RowValue, NextTerm, Reduced, Pivot;
    forall i | 0 <= i < |x| ensures RowValue(a, x, i) == b[i] {
      RowEquivalence(a, b, x, i);
    }
  }

  lemma {:induction false} SolutionIsBackSubstituted(a: (int, int) -> real, b: seq<real>, x: seq<real>, i: nat)
    requires Regular(a, |b|) && Solves(a, b, x) && i < |x|
    ensures x[i] == Reduced(a, b, i) - NextTerm(a, x, i)
  {
    if i > 0 {
      SolutionIsBackSubstituted(a, b, x, i - 1);
    }
    RowEquivalence(a, b, x, i);
  }

  /** A system with non-zero pivots has at most one solution. */
  lemma {:induction false} SolutionIsUnique(a: (int, int) -> real, b: seq<real>, x: seq<real>, y: seq<real>, i: nat)
    requires Regular(a, |b|) && Solves(a, b, x) && Solves(a, b, y) && i < |x|
    ensures x[i] == y[i]
    decreases |x| - i
  {
    if i + 1 < |x| {
      SolutionIsUnique(a, b, x, y, i + 1);
    }
    SolutionIsBackSubstituted(a, b, x, i);
    SolutionIsBackSubstituted(a, b, y, i);
  }

  // ----- diagonal dominance -----

  /** The magnitudes beside the diagonal in row i of an n by n system. */
  function OffDiagonal(a: (int, int) -> real, n: nat, i: nat): real {
    (if i > 0 then Abs(a(i, i - 1)) else 0.0) + (if i + 1 < n then Abs(a(i, i + 1)) else 0.0)
  }

  predicate Dominant(a: (int, int) -> real, n: nat) {
    forall i | 0 <= i < n :: Abs(a(i, i)) > OffDiagonal(a, n, i)
  }

  lemma AbsProduct(x: real, y: real)
    ensures Abs(x * y) == Abs(x) * Abs(y)
  {}

  /** With strict dominance the sweep never divides by zero and its ratios stay below one. */
  lemma {:induction false} DominantPivot(a: (int, int) -> real, n: nat, i: nat)
    requires Dominant(a, n) && i < n
    ensures Pivot(a, i) != 0.0
    ensures i + 1 < n ==> Abs(Ratio(a, i)) < 1.0
  {
    hide Mul, Div;
    if i > 0 {
      DominantPivot(a, n, i - 1);
      PivotStep(a, i);
      SmallerFactor(a(i, i - 1), Ratio(a, i - 1), 1.0);
    }
    if i + 1 < n {
      QuotientBelowOne(a(i, i + 1), Pivot(a, i));
    }
  }

  lemma QuotientBelowOne(x: real, y: real)
    requires Abs(x) < Abs(y)
    ensures Abs(Div(x, y)) < 1.0
  {
    var q := Div(x, y);
    assert q * y == x;
    AbsProduct(q, y);
    MulCancel(Abs(y), Abs(q), 1.0);
  }

  lemma DominantIsRegular(a: (int, int) -> real, n: nat)
    requires Dominant(a, n)
    ensures Regular(a, n)
  {
    forall i | 0 <= i < n ensures Pivot(a, i) != 0.0 {
      DominantPivot(a, n, i);
    }
  }

  /** The position of the largest magnitude. */
  lemma {:induction false} Largest(x: seq<real>) returns (m: nat)
    requires |x| > 0
    ensures m < |x| && forall i | 0 <= i < |x| :: Abs(x[i]) <= Abs(x[m])
  {
    if |x| == 1 {
      m := 0;
    } else {
      m := Largest(x[..|x| - 1]);
      if Abs(x[m]) < Abs(x[|x| - 1]) {
        m := |x| - 1;
      }
    }
  }

  /** The solution of a dominant system is bounded by the right-hand side over the dominance gap. */
  lemma SolutionBound(a: (int, int) -> real, b: seq<real>, x: seq<real>, bound: real)
    requires Dominant(a, |b|) && Solves(a, b, x)
    requires forall i | 0 <= i < |b| :: Abs(b[i]) <= Mul(bound, Abs(a(i, i)) - OffDiagonal(a, |b|, i))
    ensures forall i | 0 <= i < |x| :: Abs(x[i]) <= bound
  {
    hide Mul;
    if |x| > 0 {
      var m := Largest(x);
      var top := Abs(x[m]);
      assert RowValue(a, x, m) == b[m];
      SmallerFactor(1.0, x[m], top);
      if m > 0 {
        SmallerFactor(a(m, m - 1), x[m - 1], top);
      }
      if m + 1 < |x| {
        SmallerFactor(a(m, m + 1), x[m + 1], top);
      }
      LargestRow(if m > 0 then Abs(a(m, m - 1)) else 0.0, if m + 1 < |x| then Abs(a(m, m + 1)) else 0.0,
                 a(m, m), x[m], LowerTerm(a, x, m), UpperTerm(a, x, m), b[m], bound);
    }
  }

  lemma SmallerFactor(c: real, y: real, top: real)
    requires Abs(y) <= top
    ensures Abs(Mul(c, y)) <= Mul(Abs(c), top)
    ensures Mul(Abs(c), 1.0) == Abs(c)
  {
    AbsProduct(c, y);
    assert Abs(c) * Abs(y) <= Abs(c) * top;
  }

  lemma LargestRow(lo: real, up: real, diag: real, x: real, lower: real, upper: real, b: real, bound: real)
    requires Abs(diag) > lo + up
    requires Abs(lower) <= Mul(lo, Abs(x)) || lower == 0.0 == lo
    requires Abs(upper) <= Mul(up, Abs(x)) || upper == 0.0 == up
    requires lower + Mul(diag, x) + upper == b
    requires Abs(b) <= Mul(bound, Abs(diag) - (lo + up))
    ensures Abs(x) <= bound
  {
    var gap := Abs(diag) - (lo + up);
    AbsMul(diag, x);
    Distribute(Abs(diag), lo, up, Abs(x));
    hide Mul;
    MulLaws(gap, bound, 0.0);
    MulCancel(gap, Abs(x), bound);
  }

  lemma AbsMul(x: real, y: real)
    ensures Abs(Mul(x, y)) == Mul(Abs(x), Abs(y))
  {
    AbsProduct(x, y);
  }

  lemma Distribute(d: real, lo: real, up: real, x: real)
    ensures Mul(d - (lo + up), x) == Mul(d, x) - Mul(lo, x) - Mul(up, x)
    ensures Mul(0.0, x) == 0.0
  {}

  // ----- the algorithm -----

  /** The forward sweep over the matrix. */
  method EliminateRatios(nA: array2<real>, aC: array<real>, ghost a: (int, int) -> real)
    requires 2 <= aC.Length == nA.Length0 == nA.Length1
    requires forall i, j | 0 <= i < aC.Length && 0 <= j < aC.Length :: a(i, j) == nA[i, j]
    requires Regular(a, aC.Length)
    modifies aC
    ensures forall k | 0 <= k < aC.Length - 1 :: aC[k] == Ratio(a, k)
  {
    hide Mul, Div;
    var aSize := aC.Length;
    assert Pivot(a, 0) == nA[0, 0];
    aC[0] := Div(nA[0, 1], nA[0, 0]);
    for i := 1 to aSize - 1
      invariant forall k | 0 <= k < i :: aC[k] == Ratio(a, k)
    {
      PivotStep(a, i);
      aC[i] := Div(nA[i, i + 1], nA[i, i] - Mul(nA[i, i - 1], aC[i - 1]));
    }
  }

  /** The forward sweep over the right-hand side. */
  method EliminateRhs(nA: array2<real>, nB: array<real>, aC: array<real>, aD: array<real>, ghost a: (int, int) -> real)
    requires 2 <= nB.Length == aC.Length == aD.Length == nA.Length0 == nA.Length1 && aD != nB && aD != aC
    requires forall i, j | 0 <= i < nB.Length && 0 <= j < nB.Length :: a(i, j) == nA[i, j]
    requires Regular(a, nB.Length)
    requires forall k | 0 <= k < aC.Length - 1 :: aC[k] == Ratio(a, k)
    modifies aD
    ensures forall k | 0 <= k < aD.Length :: aD[k] == Reduced(a, nB[..], k)
  {
    hide Mul, Div, Pivot;
    var aSize := nB.Length;
    ghost var b := nB[..];
    assert Pivot(a, 0) == nA[0, 0] by { FirstPivot(a); }
    aD[0] := Div(nB[0], nA[0, 0]);
    for i := 1 to aSize
      invariant forall k | 0 <= k < i :: aD[k] == Reduced(a, b, k)
    {
      PivotStep(a, i);
      ReducedStep(a, b, i);
      aD[i] := Div(nB[i] - Mul(nA[i, i - 1], aD[i - 1]), nA[i, i] - Mul(nA[i, i - 1], aC[i - 1]));
    }
  }

  lemma FirstPivot(a: (int, int) -> real)
    ensures Pivot(a, 0) == a(0, 0)
  {}

  /** Solves nA * nResult == nB for a tridiagonal nA whose pivots do not vanish; the solution is the only one. */
  method ThomasTriDiagonal(nA: array2<real>, nB: array<real>, nResult: array<real>)
    requires 2 <= nB.Length == nA.Length0 == nA.Length1 == nResult.Length
    requires Regular(Entries(nA), nB.Length)
    modifies nResult
    ensures Solves(Entries(nA), old(nB[..]), nResult[..])
    ensures forall x | Solves(Entries(nA), old(nB[..]), x) :: x == nResult[..]
  {
    hide Entries, Mul, Div, Pivot, Ratio, Reduced, Solves;
    var aSize := nB.Length;
    ghost var a, b := Entries(nA), nB[..];
    forall i, j | 0 <= i < aSize && 0 <= j < aSize ensures a(i, j) == nA[i, j] {
      EntryAt(nA, i, j);
    }
    var aC, aD := new real[aSize], new real[aSize];
    EliminateRatios(nA, aC, a);
    EliminateRhs(nA, nB, aC, aD, a);
    ghost var c, d := aC[..], aD[..];
    nResult[aSize - 1] := aD[aSize - 1];
    for i := aSize - 1 downto 0
      invariant aC[..] == c && aD[..] == d
      invariant nResult[aSize - 1] == d[aSize - 1]
      invariant forall k | i <= k < aSize - 1 :: nResult[k] == d[k] - Mul(c[k], nResult[k + 1])
    {
      nResult[i] := aD[i] - Mul(aC[i], nResult[i + 1]);
    }
    BackSubstitutionSolves(a, b, nResult[..]);
    forall x | Solves(a, b, x) ensures x == nResult[..] {
      SolutionsAgree(a, b, x, nResult[..]);
    }
  }

  lemma SolutionsAgree(a: (int, int) -> real, b: seq<real>, x: seq<real>, y: seq<real>)
    requires Regular(a, |b|) && Solves(a, b, x) && Solves(a, b, y)
    ensures x == y
  {
    forall i | 0 <= i < |x| ensures x[i] == y[i] {
      SolutionIsUnique(a, b, x, y, i);
    }
  }
}
