/** Determinants as the Laplace expansion along the first row defines them, and
    the theorems the adjugate inverse rests on. A submatrix is named by the
    sequences of row and column indices it keeps, so that a minor is the removal
    of one index from each. */
module Determinant {
  import opened RealSums

  function RemoveAt(s: seq<int>, k: nat): (r: seq<int>)
    ensures k < |s| ==> |r| == |s| - 1
  {
    if k < |s| then s[..k] + s[k + 1..] else s
  }

  lemma RemoveAtIndex(s: seq<int>, k: nat, i: nat)
    requires k < |s| && i < |s| - 1
    ensures RemoveAt(s, k)[i] == s[Skip(k, i)]
  {}

  function At(s: seq<int>, k: int): int {
    if 0 <= k < |s| then s[k] else 0
  }

  /** (-1)^k * x. */
  function Signed(k: int, x: real): real {
    if k % 2 == 0 then x else -x
  }

  /** The determinant of the submatrix of a with the given rows and columns. */
  function Det(a: (int, int) -> real, rows: seq<int>, cols: seq<int>): real
    decreases |rows|, |cols| + 1
  {
    if |rows| == 0 then 1.0 else FirstRowPrefix(a, rows, cols, |cols|)
  }

  /** The first n terms of the expansion along the first row. */
  function FirstRowPrefix(a: (int, int) -> real, rows: seq<int>, cols: seq<int>, n: nat): real
    requires 0 < |rows| && n <= |cols|
    decreases |rows|, n
  {
    if n == 0 then 0.0
    else FirstRowPrefix(a, rows, cols, n - 1)
         + Signed(n - 1, Mul(a(rows[0], cols[n - 1]), Det(a, RemoveAt(rows, 0), RemoveAt(cols, n - 1))))
  }

  function Minor(a: (int, int) -> real, rows: seq<int>, cols: seq<int>, k: nat, j: int): real {
    if j < 0 then 0.0 else Det(a, RemoveAt(rows, k), RemoveAt(cols, j))
  }

  /** The terms of the expansion along row k: signed entry times minor. */
  function LaplaceTerm(a: (int, int) -> real, rows: seq<int>, cols: seq<int>, k: nat): int -> real {
    j => Signed(k + j, Mul(a(At(rows, k), At(cols, j)), Minor(a, rows, cols, k, j)))
  }

  lemma LaplaceTermIs(a: (int, int) -> real, rows: seq<int>, cols: seq<int>, k: nat, j: nat)
    requires k < |rows| && j < |cols|
    ensures LaplaceTerm(a, rows, cols, k)(j)
         == Signed(k + j, Mul(a(rows[k], cols[j]), Det(a, RemoveAt(rows, k), RemoveAt(cols, j))))
  {
    hide Mul, Det, Signed, RemoveAt;
    assert At(rows, k) == rows[k] && At(cols, j) == cols[j];
  }

  lemma {:induction false} PrefixIsSum(a: (int, int) -> real, rows: seq<int>, cols: seq<int>, n: nat)
    requires 0 < |rows| && n <= |cols|
    ensures FirstRowPrefix(a, rows, cols, n) == Sum(n, LaplaceTerm(a, rows, cols, 0))
  {
    hide Mul, Signed, RemoveAt, LaplaceTerm;
    if n != 0 {
      PrefixIsSum(a, rows, cols, n - 1);
      LaplaceTermIs(a, rows, cols, 0, n - 1);
    }
  }

  lemma DetIsSum(a: (int, int) -> real, rows: seq<int>, cols: seq<int>)
    requires 0 < |rows|
    ensures Det(a, rows, cols) == Sum(|cols|, LaplaceTerm(a, rows, cols, 0))
  {
    PrefixIsSum(a, rows, cols, |cols|);
  }

  lemma SignedProduct(p: int, q: int, e: real, y: real)
    ensures Signed(p, Mul(e, Signed(q, y))) == Signed(p + q, Mul(e, y))
  {
    assert (p + q) % 2 == (p % 2 + q % 2) % 2;
    MulLaws(e, y, 0.0);
  }

  lemma SignedPeriod(k: int, x: real)
    ensures Signed(k, x) == Signed(k + 2, x)
  {}

  lemma {:induction false} SumSigned(n: nat, k: int, f: int -> real, g: int -> real)
    requires forall i | 0 <= i < n :: g(i) == Signed(k, f(i))
    ensures Sum(n, g) == Signed(k, Sum(n, f))
  {
    if n != 0 {
      SumSigned(n - 1, k, f, g);
    }
  }

  /** Signed(k, e * sum), re-indexed over one more term of which the skipped one is zero. */
  lemma SumSignedSkip(n: nat, k: nat, s: int, e: real, f: int -> real, g: int -> real)
    requires k <= n
    requires forall i | 0 <= i < n :: Signed(s, Mul(e, f(i))) == g(Skip(k, i))
    requires g(k) == 0.0
    ensures Signed(s, Mul(e, Sum(n, f))) == Sum(n + 1, g)
  {
    hide Mul;
    var h := i => Signed(s, g(i));
    forall i | 0 <= i < n ensures Mul(e, f(i)) == h(Skip(k, i)) {
      assert Signed(s, Signed(s, Mul(e, f(i)))) == Mul(e, f(i));
    }
    SumSkip(n, k, e, f, h);
    SumSigned(n + 1, s, h, g);
  }

  /** The columns other than j (given up by row 0) and m (given up by row k). */
  function RemoveTwo(cols: seq<int>, j: nat, m: nat): seq<int> {
    if m < j then RemoveAt(RemoveAt(cols, j), m) else RemoveAt(RemoveAt(cols, m), j)
  }

  /** The term of the double expansion along rows 0 and k in which row 0 takes
      column j and row k takes column m. */
  function PairTerm(a: (int, int) -> real, rows: seq<int>, cols: seq<int>, k: nat, j: int, m: int): real
  {
    if j == m || j < 0 || m < 0 then 0.0
    else Signed(if m < j then k + j + m - 1 else k + j + m,
                Mul(a(At(rows, 0), At(cols, j)),
                    Mul(a(At(rows, k), At(cols, m)),
                        Det(a, RemoveAt(RemoveAt(rows, k), 0), RemoveTwo(cols, j, m)))))
  }

  lemma PairTermDiagonal(a: (int, int) -> real, rows: seq<int>, cols: seq<int>, k: nat, j: int)
    ensures PairTerm(a, rows, cols, k, j, j) == 0.0
  {}

  lemma RemoveTwice(cols: seq<int>, j: nat, l: nat)
    requires j < |cols| && l < |cols| - 1
    ensures RemoveAt(RemoveAt(cols, j), l) == RemoveTwo(cols, j, Skip(j, l))
    ensures RemoveAt(RemoveAt(cols, j), l) == RemoveTwo(cols, Skip(j, l), j)
  {
    var m := Skip(j, l);
    if m > j {
      assert RemoveAt(RemoveAt(cols, j), m - 1) == RemoveAt(RemoveAt(cols, m), j);
    }
  }

  lemma PairTermIs(a: (int, int) -> real, rows: seq<int>, cols: seq<int>, k: nat, j: nat, m: nat)
    requires 0 < k < |rows| && j < |cols| && m < |cols| && j != m
    ensures PairTerm(a, rows, cols, k, j, m)
         == Signed(if m < j then k + j + m - 1 else k + j + m,
                   Mul(a(rows[0], cols[j]),
                       Mul(a(rows[k], cols[m]), Det(a, RemoveAt(RemoveAt(rows, k), 0), RemoveTwo(cols, j, m)))))
  {
    hide Mul, Det, Signed, RemoveAt, RemoveTwo;
  }

  lemma RemoveFirstThen(rows: seq<int>, k: nat)
    requires 0 < k < |rows|
    ensures RemoveAt(RemoveAt(rows, 0), k - 1) == RemoveAt(RemoveAt(rows, k), 0)
  {}

  /** Row 0 gives up column j, then row k gives up column Skip(j, l). */
  lemma FirstThenKTerm(a: (int, int) -> real, rows: seq<int>, cols: seq<int>, k: nat, j: nat, l: nat)
    requires |rows| == |cols| && 0 < k < |rows| && j < |cols| && l < |cols| - 1
    ensures Signed(j, Mul(a(rows[0], cols[j]), LaplaceTerm(a, RemoveAt(rows, 0), RemoveAt(cols, j), k - 1)(l)))
         == PairTerm(a, rows, cols, k, j, Skip(j, l))
  {
    hide Mul, Det, Signed, PairTerm, LaplaceTerm, RemoveAt, RemoveTwo;
    var m := Skip(j, l);
    var r0, cj := RemoveAt(rows, 0), RemoveAt(cols, j);
    LaplaceTermIs(a, r0, cj, k - 1, l);
    RemoveAtIndex(rows, 0, k - 1);
    RemoveAtIndex(cols, j, l);
    RemoveFirstThen(rows, k);
    RemoveTwice(cols, j, l);
    var e, y := a(rows[0], cols[j]), Mul(a(rows[k], cols[m]), Det(a, RemoveAt(RemoveAt(rows, k), 0), RemoveTwo(cols, j, m)));
    SignedProduct(j, k - 1 + l, e, y);
    SignedPeriod(j + (k - 1 + l), Mul(e, y));
    PairTermIs(a, rows, cols, k, j, m);
  }

  lemma FirstThenKSum(a: (int, int) -> real, rows: seq<int>, cols: seq<int>, k: nat, j: nat, g: int -> real)
    requires |rows| == |cols| && 0 < k < |rows| && j < |cols|
    requires forall m | 0 <= m < |cols| :: g(m) == PairTerm(a, rows, cols, k, j, m)
    ensures Signed(j, Mul(a(rows[0], cols[j]),
                          Sum(|cols| - 1, LaplaceTerm(a, RemoveAt(rows, 0), RemoveAt(cols, j), k - 1))))
         == Sum(|cols|, g)
  {
    hide Mul, Det, Signed, PairTerm, LaplaceTerm, RemoveAt, Sum;
    PairTermDiagonal(a, rows, cols, k, j);
    var n := |cols| - 1;
    var f := LaplaceTerm(a, RemoveAt(rows, 0), RemoveAt(cols, j), k - 1);
    var e := a(rows[0], cols[j]);
    forall l | 0 <= l < n ensures Signed(j, Mul(e, f(l))) == g(Skip(j, l)) {
      FirstThenKTerm(a, rows, cols, k, j, l);
    }
    SumSignedSkip(n, j, j, e, f, g);
  }

  /** Expanding the minor of (0, j) along row k: the j-th term of the first-row expansion. */
  lemma FirstThenK(a: (int, int) -> real, rows: seq<int>, cols: seq<int>, k: nat, j: nat, g: int -> real)
    requires |rows| == |cols| && 0 < k < |rows| && j < |cols|
    requires Det(a, RemoveAt(rows, 0), RemoveAt(cols, j))
          == Sum(|cols| - 1, LaplaceTerm(a, RemoveAt(rows, 0), RemoveAt(cols, j), k - 1))
    requires forall m | 0 <= m < |cols| :: g(m) == PairTerm(a, rows, cols, k, j, m)
    ensures LaplaceTerm(a, rows, cols, 0)(j) == Sum(|cols|, g)
  {
    hide *;
    FirstThenKSum(a, rows, cols, k, j, g);
    LaplaceTermIs(a, rows, cols, 0, j);
  }

  /** Row k gives up column m, then row 0 gives up column Skip(m, p). */
  lemma KThenFirstTerm(a: (int, int) -> real, rows: seq<int>, cols: seq<int>, k: nat, m: nat, p: nat)
    requires |rows| == |cols| && 0 < k < |rows| && m < |cols| && p < |cols| - 1
    ensures Signed(k + m, Mul(a(rows[k], cols[m]), LaplaceTerm(a, RemoveAt(rows, k), RemoveAt(cols, m), 0)(p)))
         == PairTerm(a, rows, cols, k, Skip(m, p), m)
  {
    hide Mul, Det, Signed, PairTerm, LaplaceTerm, RemoveAt, RemoveTwo;
    var j := Skip(m, p);
    var rk, cm := RemoveAt(rows, k), RemoveAt(cols, m);
    LaplaceTermIs(a, rk, cm, 0, p);
    RemoveAtIndex(rows, k, 0);
    RemoveAtIndex(cols, m, p);
    RemoveTwice(cols, m, p);
    var e, x, d := a(rows[k], cols[m]), a(rows[0], cols[j]), Det(a, RemoveAt(rk, 0), RemoveTwo(cols, j, m));
    SignedProduct(k + m, 0 + p, e, Mul(x, d));
    MulLaws(e, x, d);
    MulLaws(x, e, d);
    PairTermIs(a, rows, cols, k, j, m);
  }

  lemma KThenFirstSum(a: (int, int) -> real, rows: seq<int>, cols: seq<int>, k: nat, m: nat, g: int -> real)
    requires |rows| == |cols| && 0 < k < |rows| && m < |cols|
    requires forall j | 0 <= j < |cols| :: g(j) == PairTerm(a, rows, cols, k, j, m)
    ensures Signed(k + m, Mul(a(rows[k], cols[m]),
                              Sum(|cols| - 1, LaplaceTerm(a, RemoveAt(rows, k), RemoveAt(cols, m), 0))))
         == Sum(|cols|, g)
  {
    hide Mul, Det, Signed, PairTerm, LaplaceTerm, RemoveAt, Sum;
    PairTermDiagonal(a, rows, cols, k, m);
    var n := |cols| - 1;
    var f := LaplaceTerm(a, RemoveAt(rows, k), RemoveAt(cols, m), 0);
    var e := a(rows[k], cols[m]);
    forall p | 0 <= p < n ensures Signed(k + m, Mul(e, f(p))) == g(Skip(m, p)) {
      KThenFirstTerm(a, rows, cols, k, m, p);
    }
    SumSignedSkip(n, m, k + m, e, f, g);
  }

  /** Expanding the minor of (k, m) along its first row: the m-th term of the row-k expansion. */
  lemma KThenFirst(a: (int, int) -> real, rows: seq<int>, cols: seq<int>, k: nat, m: nat, g: int -> real)
    requires |rows| == |cols| && 0 < k < |rows| && m < |cols|
    requires forall j | 0 <= j < |cols| :: g(j) == PairTerm(a, rows, cols, k, j, m)
    ensures LaplaceTerm(a, rows, cols, k)(m) == Sum(|cols|, g)
  {
    hide *;
    KThenFirstSum(a, rows, cols, k, m, g);
    DetIsSum(a, RemoveAt(rows, k), RemoveAt(cols, m));
    LaplaceTermIs(a, rows, cols, k, m);
  }

  /** The determinant may be expanded along any row. */
  lemma {:induction false} RowExpansion(a: (int, int) -> real, rows: seq<int>, cols: seq<int>, k: nat)
    requires |rows| == |cols| && k < |rows|
    ensures Det(a, rows, cols) == Sum(|cols|, LaplaceTerm(a, rows, cols, k))
    decreases |rows|
  {
    hide *;
    DetIsSum(a, rows, cols);
    if k != 0 {
      var n := |cols|;
      var byRow := (j: int) => (m: int) => PairTerm(a, rows, cols, k, j, m);
      var byCol := (m: int) => (j: int) => PairTerm(a, rows, cols, k, j, m);
      forall j | 0 <= j < n ensures LaplaceTerm(a, rows, cols, 0)(j) == Sum(n, byRow(j)) {
        RowExpansion(a, RemoveAt(rows, 0), RemoveAt(cols, j), k - 1);
        FirstThenK(a, rows, cols, k, j, byRow(j));
      }
      forall m | 0 <= m < n ensures LaplaceTerm(a, rows, cols, k)(m) == Sum(n, byCol(m)) {
        KThenFirst(a, rows, cols, k, m, byCol(m));
      }
      SumSwap(n, n, byRow, byCol, LaplaceTerm(a, rows, cols, 0), LaplaceTerm(a, rows, cols, k));
    }
  }

  lemma ZeroTerm(a: (int, int) -> real, rows: seq<int>, cols: seq<int>, k: nat, j: nat)
    requires k < |rows| && j < |cols|
    requires Det(a, RemoveAt(rows, k), RemoveAt(cols, j)) == 0.0
    ensures LaplaceTerm(a, rows, cols, k)(j) == 0.0
  {
    hide Det, RemoveAt, LaplaceTerm;
    LaplaceTermIs(a, rows, cols, k, j);
    assert Mul(a(rows[k], cols[j]), 0.0) == 0.0;
  }

  /** Two equal rows make the determinant vanish. */
  lemma {:induction false} EqualRows(a: (int, int) -> real, rows: seq<int>, cols: seq<int>, r: nat, s: nat)
    requires |rows| == |cols| && r < s < |rows|
    requires rows[r] == rows[s]
    ensures Det(a, rows, cols) == 0.0
    decreases |rows|
  {
    hide *;
    if |rows| == 2 {
      TwoByTwo(a, rows, cols);
      assert r == 0 && s == 1;
    } else {
      var t := if r != 0 then 0 else if s != 1 then 1 else 2;
      var r', s' := if r < t then r else r - 1, if s < t then s else s - 1;
      RowExpansion(a, rows, cols, t);
      RemoveAtBeside(rows, t, r);
      RemoveAtBeside(rows, t, s);
      forall j | 0 <= j < |cols| ensures LaplaceTerm(a, rows, cols, t)(j) == 0.0 {
        EqualRows(a, RemoveAt(rows, t), RemoveAt(cols, j), r', s');
        ZeroTerm(a, rows, cols, t, j);
      }
      SumZero(|cols|, LaplaceTerm(a, rows, cols, t));
    }
  }

  lemma RemoveAtBeside(s: seq<int>, k: nat, i: nat)
    requires k < |s| && i < |s| && i != k
    ensures RemoveAt(s, k)[if i < k then i else i - 1] == s[i]
  {}

  /** Multiplying row i into the cofactors of row k gives the determinant when
      i is k and zero otherwise: the adjugate identity. */
  lemma AdjugateIdentity(a: (int, int) -> real, rows: seq<int>, cols: seq<int>, i: nat, k: nat, g: int -> real)
    requires |rows| == |cols| && i < |rows| && k < |rows|
    requires forall j | 0 <= j < |cols| ::
               g(j) == Signed(k + j, Mul(a(rows[i], cols[j]), Det(a, RemoveAt(rows, k), RemoveAt(cols, j))))
    ensures Sum(|cols|, g) == if i == k then Det(a, rows, cols) else 0.0
  {
    hide Mul, Det, Signed, LaplaceTerm, RemoveAt;
    var replaced := rows[k := rows[i]];
    assert RemoveAt(replaced, k) == RemoveAt(rows, k) by { RemoveReplaced(rows, k, rows[i]); }
    var f := LaplaceTerm(a, replaced, cols, k);
    forall j | 0 <= j < |cols| ensures f(j) == g(j) {
      LaplaceTermIs(a, replaced, cols, k, j);
    }
    SumEq(|cols|, f, g);
    RowExpansion(a, replaced, cols, k);
    if i == k {
      assert replaced == rows;
    } else {
      EqualRows(a, replaced, cols, if i < k then i else k, if i < k then k else i);
    }
  }

  lemma RemoveReplaced(s: seq<int>, k: nat, x: int)
    requires k < |s|
    ensures RemoveAt(s[k := x], k) == RemoveAt(s, k)
  {}

  lemma TwoByTwo(a: (int, int) -> real, rows: seq<int>, cols: seq<int>)
    requires |rows| == |cols| == 2
    ensures Det(a, rows, cols)
         == a(rows[0], cols[0]) * a(rows[1], cols[1]) - a(rows[0], cols[1]) * a(rows[1], cols[0])
  {
    forall j | 0 <= j < 2 ensures Det(a, RemoveAt(rows, 0), RemoveAt(cols, j)) == a(rows[1], cols[1 - j]) {
      OneByOne(a, RemoveAt(rows, 0), RemoveAt(cols, j));
    }
    assert FirstRowPrefix(a, rows, cols, 2) == FirstRowPrefix(a, rows, cols, 1)
        + Signed(1, a(rows[0], cols[1]) * a(rows[1], cols[0]));
    assert FirstRowPrefix(a, rows, cols, 1) == Signed(0, a(rows[0], cols[0]) * a(rows[1], cols[1]));
  }

  lemma OneByOne(a: (int, int) -> real, rows: seq<int>, cols: seq<int>)
    requires |rows| == |cols| == 1
    ensures Det(a, rows, cols) == a(rows[0], cols[0])
  {
    assert FirstRowPrefix(a, rows, cols, 1)
        == Signed(0, a(rows[0], cols[0]) * Det(a, RemoveAt(rows, 0), RemoveAt(cols, 0)));
  }

  /** The determinant depends only on the entries selected. */
  lemma {:induction false} DetEntries(a: (int, int) -> real, rows: seq<int>, cols: seq<int>,
                                      a': (int, int) -> real, rows': seq<int>, cols': seq<int>)
    requires |rows| == |rows'| && |cols| == |cols'| && |rows| == |cols|
    requires forall i, j | 0 <= i < |rows| && 0 <= j < |cols| :: a(rows[i], cols[j]) == a'(rows'[i], cols'[j])
    ensures Det(a, rows, cols) == Det(a', rows', cols')
    decreases |rows|, 1
  {
    hide *;
    if |rows| == 0 {
      assert rows == [] && rows' == [];
      EmptyDet(a, rows, cols);
      EmptyDet(a', rows', cols');
    } else {
      DetIsSum(a, rows, cols);
      DetIsSum(a', rows', cols');
      var f, f' := LaplaceTerm(a, rows, cols, 0), LaplaceTerm(a', rows', cols', 0);
      forall j | 0 <= j < |cols| ensures f(j) == f'(j) {
        LaplaceTermIs(a, rows, cols, 0, j);
        LaplaceTermIs(a', rows', cols', 0, j);
        MinorEntries(a, rows, cols, a', rows', cols', j);
      }
      SumEq(|cols|, f, f');
    }
  }

  lemma {:induction false} MinorEntries(a: (int, int) -> real, rows: seq<int>, cols: seq<int>,
                                        a': (int, int) -> real, rows': seq<int>, cols': seq<int>, j: nat)
    requires |rows| == |rows'| && |cols| == |cols'| && |rows| == |cols| && j < |cols|
    requires forall i, j | 0 <= i < |rows| && 0 <= j < |cols| :: a(rows[i], cols[j]) == a'(rows'[i], cols'[j])
    ensures Det(a, RemoveAt(rows, 0), RemoveAt(cols, j)) == Det(a', RemoveAt(rows', 0), RemoveAt(cols', j))
    decreases |rows|, 0
  {
    hide *;
    var r, c, r', c' := RemoveAt(rows, 0), RemoveAt(cols, j), RemoveAt(rows', 0), RemoveAt(cols', j);
    forall p, q | 0 <= p < |r| && 0 <= q < |c| ensures a(r[p], c[q]) == a'(r'[p], c'[q]) {
      RemoveAtIndex(rows, 0, p);
      RemoveAtIndex(rows', 0, p);
      RemoveAtIndex(cols, j, q);
      RemoveAtIndex(cols', j, q);
      SkipRange(0, p);
      SkipRange(j, q);
    }
    DetEntries(a, r, c, a', r', c');
  }

  lemma SkipRange(k: int, i: int)
    ensures i <= Skip(k, i) <= i + 1
  {}

  lemma EmptyDet(a: (int, int) -> real, rows: seq<int>, cols: seq<int>)
    requires |rows| == 0
    ensures Det(a, rows, cols) == 1.0
  {}

  /** The terms of the expansion along column c. */
  function ColumnTerm(a: (int, int) -> real, rows: seq<int>, cols: seq<int>, c: int): int -> real {
    i => if i < 0 then 0.0 else LaplaceTerm(a, rows, cols, i)(c)
  }

  /** Row 0 gives up column j, and the minor is expanded along what was column c. */
  lemma FirstThenColumn(a: (int, int) -> real, rows: seq<int>, cols: seq<int>, j: nat, c: nat, g: int -> real)
    requires |rows| == |cols| && j < |cols| && c < |cols| && j != c
    requires Det(a, RemoveAt(rows, 0), RemoveAt(cols, j))
          == Sum(|rows| - 1, ColumnTerm(a, RemoveAt(rows, 0), RemoveAt(cols, j), if c < j then c else c - 1))
    requires forall l | 0 <= l < |rows| - 1 :: g(l) == PairTerm(a, rows, cols, l + 1, j, c)
    ensures LaplaceTerm(a, rows, cols, 0)(j) == Sum(|rows| - 1, g)
  {
    hide Mul, Det, Signed, PairTerm, LaplaceTerm, RemoveAt, Sum;
    var n := |rows| - 1;
    var c' := if c < j then c else c - 1;
    var e := a(rows[0], cols[j]);
    var f := ColumnTerm(a, RemoveAt(rows, 0), RemoveAt(cols, j), c');
    var h := l => Mul(e, f(l));
    forall l | 0 <= l < n ensures g(l) == Signed(j, h(l)) {
      FirstThenKTerm(a, rows, cols, l + 1, j, c');
    }
    SumScale(n, e, f, h);
    SumSigned(n, j, h, g);
    LaplaceTermIs(a, rows, cols, 0, j);
  }

  /** The determinant may be expanded along any column. */
  lemma {:induction false} ColumnExpansion(a: (int, int) -> real, rows: seq<int>, cols: seq<int>, c: nat)
    requires |rows| == |cols| && c < |cols|
    ensures Det(a, rows, cols) == Sum(|rows|, ColumnTerm(a, rows, cols, c))
    decreases |rows|
  {
    hide Mul, Det, Signed, PairTerm, LaplaceTerm, RemoveAt, Sum;
    var n := |rows|;
    DetIsSum(a, rows, cols);
    var byRow := (j: int) => (l: int) => if j == c || l < 0 then 0.0 else PairTerm(a, rows, cols, l + 1, j, c);
    var byCol := (l: int) => (j: int) => if j == c || l < 0 then 0.0 else PairTerm(a, rows, cols, l + 1, j, c);
    var first := LaplaceTerm(a, rows, cols, 0);
    var rest := j => if j == c then 0.0 else first(j);
    var colRest := l => ColumnTerm(a, rows, cols, c)(l + 1);
    forall j | 0 <= j < n ensures rest(j) == Sum(n - 1, byRow(j)) {
      if j == c {
        SumZero(n - 1, byRow(j));
      } else {
        ColumnExpansion(a, RemoveAt(rows, 0), RemoveAt(cols, j), if c < j then c else c - 1);
        FirstThenColumn(a, rows, cols, j, c, byRow(j));
      }
    }
    forall l | 0 <= l < n - 1 ensures colRest(l) == Sum(n, byCol(l)) {
      PairTermDiagonal(a, rows, cols, l + 1, c);
      KThenFirst(a, rows, cols, l + 1, c, byCol(l));
      ColumnTermIs(a, rows, cols, c, l + 1);
    }
    SumSwap(n, n - 1, byRow, byCol, rest, colRest);
    var only := j => if j == c then first(j) else 0.0;
    SumSingle(n, c, only);
    SumAdd(n, rest, only, first);
    SumShift(n - 1, ColumnTerm(a, rows, cols, c), colRest);
  }

  /** Two equal columns make the determinant vanish. */
  lemma {:induction false} EqualColumns(a: (int, int) -> real, rows: seq<int>, cols: seq<int>, r: nat, s: nat)
    requires |rows| == |cols| && r < s < |cols|
    requires cols[r] == cols[s]
    ensures Det(a, rows, cols) == 0.0
    decreases |cols|
  {
    hide *;
    if |cols| == 2 {
      TwoByTwo(a, rows, cols);
      assert r == 0 && s == 1;
    } else {
      var t := if r != 0 then 0 else if s != 1 then 1 else 2;
      var r', s' := if r < t then r else r - 1, if s < t then s else s - 1;
      ColumnExpansion(a, rows, cols, t);
      RemoveAtBeside(cols, t, r);
      RemoveAtBeside(cols, t, s);
      forall i | 0 <= i < |rows| ensures ColumnTerm(a, rows, cols, t)(i) == 0.0 {
        EqualColumns(a, RemoveAt(rows, i), RemoveAt(cols, t), r', s');
        ZeroTerm(a, rows, cols, i, t);
        ColumnTermIs(a, rows, cols, t, i);
      }
      SumZero(|rows|, ColumnTerm(a, rows, cols, t));
    }
  }

  lemma ColumnTermIs(a: (int, int) -> real, rows: seq<int>, cols: seq<int>, c: int, i: nat)
    ensures ColumnTerm(a, rows, cols, c)(i) == LaplaceTerm(a, rows, cols, i)(c)
  {}

  /** The adjugate identity on the other side: column j into the cofactors of column c. */
  lemma AdjugateColumnIdentity(a: (int, int) -> real, rows: seq<int>, cols: seq<int>, c: nat, j: nat, g: int -> real)
    requires |rows| == |cols| && c < |cols| && j < |cols|
    requires forall i | 0 <= i < |rows| ::
               g(i) == Signed(i + c, Mul(a(rows[i], cols[j]), Det(a, RemoveAt(rows, i), RemoveAt(cols, c))))
    ensures Sum(|rows|, g) == if c == j then Det(a, rows, cols) else 0.0
  {
    hide *;
    var replaced := cols[c := cols[j]];
    RemoveReplaced(cols, c, cols[j]);
    var f := ColumnTerm(a, rows, replaced, c);
    forall i | 0 <= i < |rows| ensures f(i) == g(i) {
      ColumnTermIs(a, rows, replaced, c, i);
      LaplaceTermIs(a, rows, replaced, i, c);
    }
    SumEq(|rows|, f, g);
    ColumnExpansion(a, rows, replaced, c);
    if c == j {
      assert replaced == cols;
    } else {
      EqualColumns(a, rows, replaced, if c < j then c else j, if c < j then j else c);
    }
  }
}
