/** The dense matrix routines of UVecMatOperations.hpp: product, submatrix,
    recursive determinant and adjugate inverse, over every size. */
module DenseMatrix {
  import opened RealSums
  import opened Determinant

  /** Determinants smaller than this in magnitude count as singular. */
  const SINGULAR_BOUND := 0.000001

  function Snapshot(m: array2<real>): seq<seq<real>>
    reads m
  {
    seq(m.Length0, i requires 0 <= i < m.Length0 reads m =>
      seq(m.Length1, j requires 0 <= j < m.Length1 reads m => m[i, j]))
  }

  /** The entries of m as a total function of row and column. */
  function Entries(m: array2<real>): (int, int) -> real
    reads m
  {
    var s := Snapshot(m);
    (i, j) => if 0 <= i < |s| && 0 <= j < |s[i]| then s[i][j] else 0.0
  }

  lemma EntryAt(m: array2<real>, i: nat, j: nat)
    requires i < m.Length0 && j < m.Length1
    ensures Entries(m)(i, j) == m[i, j]
  {}

  function Range(n: nat): (r: seq<int>)
    ensures |r| == n
  {
    seq(n, i => i)
  }

  /** The determinant of the leading n by n block of a. */
  function SquareDet(a: (int, int) -> real, n: nat): real {
    Det(a, Range(n), Range(n))
  }

  /** Entry (i, k) of the product of a and b, n being the length of the shared dimension. */
  function ProductEntry(a: (int, int) -> real, b: (int, int) -> real, n: nat, i: int, k: int): real {
    Sum(n, ProductTerm(a, b, i, k))
  }

  function ProductTerm(a: (int, int) -> real, b: (int, int) -> real, i: int, k: int): int -> real {
    j => Mul(a(i, j), b(j, k))
  }

  predicate IsRightInverse(a: (int, int) -> real, b: (int, int) -> real, n: nat) {
    forall i, k | 0 <= i < n && 0 <= k < n :: ProductEntry(a, b, n, i, k) == if i == k then 1.0 else 0.0
  }

  method Multiply(nMat1: array2<real>, nMat2: array2<real>) returns (aResult: array2<real>)
    requires nMat1.Length1 == nMat2.Length0
    ensures fresh(aResult) && aResult.Length0 == nMat1.Length0 && aResult.Length1 == nMat2.Length1
    ensures forall i, j | 0 <= i < aResult.Length0 && 0 <= j < aResult.Length1 ::
              aResult[i, j] == ProductEntry(Entries(nMat1), Entries(nMat2), nMat1.Length1, i, j)
  {
    hide Mul, Entries;
    ghost var a, b, n := Entries(nMat1), Entries(nMat2), nMat1.Length1;
    aResult := new real[nMat1.Length0, nMat2.Length1];
    for i := 0 to nMat1.Length0
      invariant forall p, q | 0 <= p < i && 0 <= q < aResult.Length1 :: aResult[p, q] == ProductEntry(a, b, n, p, q)
    {
      for j := 0 to nMat2.Length1
        invariant forall p, q | 0 <= p < i && 0 <= q < aResult.Length1 :: aResult[p, q] == ProductEntry(a, b, n, p, q)
        invariant forall q | 0 <= q < j :: aResult[i, q] == ProductEntry(a, b, n, i, q)
      {
        var aTmp := 0.0;
        ghost var term := ProductTerm(a, b, i, j);
        for k := 0 to nMat1.Length1
          invariant aTmp == Sum(k, term)
          modifies {}
        {
          aTmp := aTmp + Mul(nMat1[i, k], nMat2[k, j]);
          EntryAt(nMat1, i, k);
          EntryAt(nMat2, k, j);
        }
        aResult[i, j] := aTmp;
      }
    }
  }

  /** Copies nMat without row nRow and column nCol. */
  method GetSubMatrix(nMat: array2<real>, nRow: nat, nCol: nat) returns (aResult: array2<real>)
    requires nRow < nMat.Length0 && nCol < nMat.Length1
    ensures fresh(aResult) && aResult.Length0 == nMat.Length0 - 1 && aResult.Length1 == nMat.Length1 - 1
    ensures forall i, j | 0 <= i < aResult.Length0 && 0 <= j < aResult.Length1 ::
              aResult[i, j] == nMat[Skip(nRow, i), Skip(nCol, j)]
  {
    aResult := new real[nMat.Length0 - 1, nMat.Length1 - 1];
    var aRowCount, aColCount := 0, 0;
    for i := 0 to nMat.Length0
      invariant aRowCount == if i <= nRow then i else i - 1
      invariant forall p, q | 0 <= p < aRowCount && 0 <= q < aResult.Length1 ::
                  aResult[p, q] == nMat[Skip(nRow, p), Skip(nCol, q)]
    {
      if i == nRow {
        continue;
      }
      aColCount := 0;
      for j := 0 to nMat.Length1
        invariant aColCount == if j <= nCol then j else j - 1
        invariant forall p, q | 0 <= p < aRowCount && 0 <= q < aResult.Length1 ::
                    aResult[p, q] == nMat[Skip(nRow, p), Skip(nCol, q)]
        invariant forall q | 0 <= q < aColCount :: aResult[aRowCount, q] == nMat[i, Skip(nCol, q)]
      {
        if j == nCol {
          continue;
        }
        aResult[aRowCount, aColCount] := nMat[i, j];
        aColCount := aColCount + 1;
      }
      aRowCount := aRowCount + 1;
    }
  }

  /** The determinant of a matrix copied without row r and column c is the minor (r, c). */
  lemma SubMatrixDet(m: array2<real>, sub: array2<real>, n: nat, r: nat, c: nat)
    requires m.Length0 == m.Length1 == n && r < n && c < n
    requires sub.Length0 == sub.Length1 == n - 1
    requires forall i, j | 0 <= i < n - 1 && 0 <= j < n - 1 :: sub[i, j] == m[Skip(r, i), Skip(c, j)]
    ensures SquareDet(Entries(sub), n - 1) == Det(Entries(m), RemoveAt(Range(n), r), RemoveAt(Range(n), c))
  {
    hide Det, Entries, RemoveAt;
    var rows, cols := RemoveAt(Range(n), r), RemoveAt(Range(n), c);
    forall i, j | 0 <= i < n - 1 && 0 <= j < n - 1
      ensures Entries(sub)(Range(n - 1)[i], Range(n - 1)[j]) == Entries(m)(rows[i], cols[j])
    {
      RemoveAtIndex(Range(n), r, i);
      RemoveAtIndex(Range(n), c, j);
      EntryAt(sub, i, j);
      EntryAt(m, Skip(r, i), Skip(c, j));
    }
    DetEntries(Entries(sub), Range(n - 1), Range(n - 1), Entries(m), rows, cols);
  }

  /** The recursive expansion along the first row, with its 1x1 and 2x2 shortcuts. */
  method CalcDeterminantNxN(nMat: array2<real>) returns (aDetValue: real)
    requires 0 < nMat.Length0 == nMat.Length1
    ensures aDetValue == SquareDet(Entries(nMat), nMat.Length0)
    decreases nMat.Length0
  {
    hide Mul, Entries, RemoveAt, Signed;
    var aSize := nMat.Length0;
    ghost var a, range := Entries(nMat), Range(aSize);
    if aSize == 1 {
      EntryAt(nMat, 0, 0);
      OneByOne(a, range, range);
      return nMat[0, 0];
    }
    if aSize == 2 {
      SmallDet(nMat);
      return Mul(nMat[0, 0], nMat[1, 1]) - Mul(nMat[0, 1], nMat[1, 0]);
    }
    aDetValue := 0.0;
    for i := 0 to aSize
      invariant aDetValue == FirstRowPrefix(a, range, range, i)
    {
      var aSubMat := CopyMinor(nMat, i);
      var aSubDet := CalcDeterminantNxN(aSubMat);
      SubMatrixDet(nMat, aSubMat, aSize, 0, i);
      EntryAt(nMat, 0, i);
      aDetValue := aDetValue + Signed(i, Mul(nMat[0, i], aSubDet));
    }
  }

  lemma SmallDet(m: array2<real>)
    requires m.Length0 == m.Length1 == 2
    ensures SquareDet(Entries(m), 2) == Mul(m[0, 0], m[1, 1]) - Mul(m[0, 1], m[1, 0])
  {
    hide Det, Entries;
    forall i, j | 0 <= i < 2 && 0 <= j < 2 ensures Entries(m)(i, j) == m[i, j] {
      EntryAt(m, i, j);
    }
    TwoByTwo(Entries(m), Range(2), Range(2));
  }

  /** The inner copying loops of the determinant: all rows but the first, all columns but i. */
  method CopyMinor(nMat: array2<real>, i: nat) returns (aSubMat: array2<real>)
    requires 0 < nMat.Length0 == nMat.Length1 && i < nMat.Length1
    ensures fresh(aSubMat) && aSubMat.Length0 == aSubMat.Length1 == nMat.Length0 - 1
    ensures forall p, q | 0 <= p < aSubMat.Length0 && 0 <= q < aSubMat.Length0 ::
              aSubMat[p, q] == nMat[Skip(0, p), Skip(i, q)]
  {
    var aSize := nMat.Length0;
    aSubMat := new real[aSize - 1, aSize - 1];
    for j := 1 to aSize
      invariant forall p, q | 0 <= p < j - 1 && 0 <= q < aSize - 1 :: aSubMat[p, q] == nMat[p + 1, Skip(i, q)]
    {
      var aColIndex := 0;
      for k := 0 to aSize
        invariant aColIndex == if k <= i then k else k - 1
        invariant forall p, q | 0 <= p < j - 1 && 0 <= q < aSize - 1 :: aSubMat[p, q] == nMat[p + 1, Skip(i, q)]
        invariant forall q | 0 <= q < aColIndex :: aSubMat[j - 1, q] == nMat[j, Skip(i, q)]
      {
        if k == i {
          continue;
        }
        aSubMat[j - 1, aColIndex] := nMat[j, k];
        aColIndex := aColIndex + 1;
      }
    }
  }

  /** The adjugate inverse. A nearly singular matrix yields a result of which only the
      dimensions are known: the storage is never written, whatever the warning says. */
  method Inverse(nMat: array2<real>) returns (aResult: array2<real>)
    requires 2 <= nMat.Length0 == nMat.Length1
    ensures fresh(aResult) && aResult.Length0 == aResult.Length1 == nMat.Length0
    ensures var det := SquareDet(Entries(nMat), nMat.Length0);
            (det >= SINGULAR_BOUND || det <= -SINGULAR_BOUND) ==>
              && IsRightInverse(Entries(nMat), Entries(aResult), nMat.Length0)
              && IsRightInverse(Entries(aResult), Entries(nMat), nMat.Length0)
  {
    hide Mul, Entries, RemoveAt, Signed, IsRightInverse, Det;
    var aDim := nMat.Length1;
    aResult := new real[aDim, aDim];
    var aDet := CalcDeterminantNxN(nMat);
    if -SINGULAR_BOUND < aDet < SINGULAR_BOUND {
      return;
    }
    ghost var a, range := Entries(nMat), Range(aDim);
    for i := 0 to aDim
      invariant forall p, q | 0 <= p < i && 0 <= q < aDim :: aResult[p, q] == AdjugateEntry(a, aDim, p, q) / aDet
    {
      for j := 0 to aDim
        invariant forall p, q | 0 <= p < i && 0 <= q < aDim :: aResult[p, q] == AdjugateEntry(a, aDim, p, q) / aDet
        invariant forall q | 0 <= q < j :: aResult[i, q] == AdjugateEntry(a, aDim, i, q) / aDet
      {
        var aAdjointMat := GetSubMatrix(nMat, j, i);
        var aMinor := CalcDeterminantNxN(aAdjointMat);
        SubMatrixDet(nMat, aAdjointMat, aDim, j, i);
        var aAdjointElement := Signed(i + j, aMinor);
        aResult[i, j] := aAdjointElement / aDet;
      }
    }
    forall i, j | 0 <= i < aDim && 0 <= j < aDim
      ensures Entries(aResult)(i, j) == AdjugateEntry(a, aDim, i, j) / aDet
    {
      EntryAt(aResult, i, j);
    }
    AdjugateInverts(a, Entries(aResult), aDim);
  }

  /** Entry (i, j) of the adjugate: the signed minor (j, i). */
  function AdjugateEntry(a: (int, int) -> real, n: nat, i: int, j: int): real {
    if i < 0 || j < 0 then 0.0
    else Signed(i + j, Det(a, RemoveAt(Range(n), j), RemoveAt(Range(n), i)))
  }

  /** The adjugate over the determinant inverts on both sides, for every size. */
  lemma AdjugateInverts(a: (int, int) -> real, b: (int, int) -> real, n: nat)
    requires SquareDet(a, n) != 0.0
    requires forall i, j | 0 <= i < n && 0 <= j < n :: b(i, j) == AdjugateEntry(a, n, i, j) / SquareDet(a, n)
    ensures IsRightInverse(a, b, n)
    ensures IsRightInverse(b, a, n)
  {
    hide Det, Mul, Signed, RemoveAt;
    forall i, k | 0 <= i < n && 0 <= k < n
      ensures ProductEntry(a, b, n, i, k) == if i == k then 1.0 else 0.0
      ensures ProductEntry(b, a, n, i, k) == if i == k then 1.0 else 0.0
    {
      RightEntry(a, b, n, i, k);
      LeftEntry(a, b, n, i, k);
    }
  }

  lemma RightEntry(a: (int, int) -> real, b: (int, int) -> real, n: nat, i: nat, k: nat)
    requires i < n && k < n && SquareDet(a, n) != 0.0
    requires forall i, j | 0 <= i < n && 0 <= j < n :: b(i, j) == AdjugateEntry(a, n, i, j) / SquareDet(a, n)
    ensures ProductEntry(a, b, n, i, k) == if i == k then 1.0 else 0.0
  {
    hide Det, Mul, Signed, RemoveAt;
    var range, det := Range(n), SquareDet(a, n);
    var f := j => Mul(a(i, j), AdjugateEntry(a, n, j, k));
    var g := ProductTerm(a, b, i, k);
    forall j | 0 <= j < n
      ensures f(j) == Signed(k + j, Mul(a(range[i], range[j]), Det(a, RemoveAt(range, k), RemoveAt(range, j))))
      ensures g(j) == Mul(1.0 / det, f(j))
    {
      SignedMul(k + j, a(i, j), Det(a, RemoveAt(range, k), RemoveAt(range, j)));
      Quotient(a(i, j), AdjugateEntry(a, n, j, k), det);
    }
    AdjugateIdentity(a, range, range, i, k, f);
    SumScale(n, 1.0 / det, f, g);
    Reciprocal(det);
  }

  lemma LeftEntry(a: (int, int) -> real, b: (int, int) -> real, n: nat, i: nat, k: nat)
    requires i < n && k < n && SquareDet(a, n) != 0.0
    requires forall i, j | 0 <= i < n && 0 <= j < n :: b(i, j) == AdjugateEntry(a, n, i, j) / SquareDet(a, n)
    ensures ProductEntry(b, a, n, i, k) == if i == k then 1.0 else 0.0
  {
    hide Det, Mul, Signed, RemoveAt;
    var range, det := Range(n), SquareDet(a, n);
    var f := j => Mul(a(j, k), AdjugateEntry(a, n, i, j));
    var g := ProductTerm(b, a, i, k);
    forall j | 0 <= j < n
      ensures f(j) == Signed(j + i, Mul(a(range[j], range[k]), Det(a, RemoveAt(range, j), RemoveAt(range, i))))
      ensures g(j) == Mul(1.0 / det, f(j))
    {
      SignedMul(j + i, a(j, k), Det(a, RemoveAt(range, j), RemoveAt(range, i)));
      Quotient(a(j, k), AdjugateEntry(a, n, i, j), det);
      MulLaws(b(i, j), a(j, k), 0.0);
    }
    AdjugateColumnIdentity(a, range, range, i, k, f);
    SumScale(n, 1.0 / det, f, g);
    Reciprocal(det);
  }

  lemma SignedMul(k: int, x: real, y: real)
    ensures Mul(x, Signed(k, y)) == Signed(k, Mul(x, y))
  {
    MulLaws(x, y, 0.0);
  }

  lemma Quotient(x: real, y: real, d: real)
    requires d != 0.0
    ensures Mul(x, y / d) == Mul(1.0 / d, Mul(x, y))
  {
    assert y / d == (1.0 / d) * y;
  }

  lemma Reciprocal(d: real)
    requires d != 0.0
    ensures Mul(1.0 / d, d) == 1.0 && Mul(1.0 / d, 0.0) == 0.0
  {}
}
