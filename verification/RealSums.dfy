/** Finite sums of real-valued functions, the common language of the matrix
    and curve specifications. */
module RealSums {

  /** f(0) + f(1) + ... + f(n-1). */
  function Sum(n: nat, f: int -> real): real {
    if n == 0 then 0.0 else Sum(n - 1, f) + f(n - 1)
  }

  /** Multiplication by name: proofs that only move factors around hide its
      definition and use the laws below, which keeps them linear. */
  function Mul(x: real, y: real): real {
    x * y
  }

  /** Division by name, for the same reason. */
  function Div(x: real, y: real): real
    requires y != 0.0
  {
    x / y
  }

  lemma MulLaws(x: real, y: real, z: real)
    ensures Mul(x, y) == Mul(y, x)
    ensures Mul(x, Mul(y, z)) == Mul(Mul(x, y), z)
    ensures Mul(x, y + z) == Mul(x, y) + Mul(x, z)
    ensures Mul(x, -y) == -Mul(x, y)
  {}

  lemma MulCancel(g: real, x: real, y: real)
    requires g > 0.0
    ensures Mul(g, x) <= Mul(g, y) ==> x <= y
    ensures Mul(g, x) < Mul(g, y) ==> x < y
  {}

  /** The index map that jumps over k: 0, .., k-1, k+1, .. */
  function Skip(k: int, i: int): int {
    if i < k then i else i + 1
  }

  lemma {:induction false} SumEq(n: nat, f: int -> real, g: int -> real)
    requires forall i | 0 <= i < n :: f(i) == g(i)
    ensures Sum(n, f) == Sum(n, g)
  {
    if n != 0 {
      SumEq(n - 1, f, g);
    }
  }

  lemma {:induction false} SumZero(n: nat, f: int -> real)
    requires forall i | 0 <= i < n :: f(i) == 0.0
    ensures Sum(n, f) == 0.0
  {
    if n != 0 {
      SumZero(n - 1, f);
    }
  }

  lemma {:induction false} SumScale(n: nat, c: real, f: int -> real, g: int -> real)
    requires forall i | 0 <= i < n :: g(i) == Mul(c, f(i))
    ensures Sum(n, g) == Mul(c, Sum(n, f))
  {
    if n != 0 {
      hide Mul;
      SumScale(n - 1, c, f, g);
      MulLaws(c, Sum(n - 1, f), f(n - 1));
    }
  }

  lemma {:induction false} SumAdd(n: nat, f: int -> real, g: int -> real, h: int -> real)
    requires forall i | 0 <= i < n :: h(i) == f(i) + g(i)
    ensures Sum(n, h) == Sum(n, f) + Sum(n, g)
  {
    if n != 0 {
      SumAdd(n - 1, f, g, h);
    }
  }

  /** A sum with a single non-zero term. */
  lemma {:induction false} SumSingle(n: nat, k: nat, f: int -> real)
    requires k < n
    requires forall i | 0 <= i < n && i != k :: f(i) == 0.0
    ensures Sum(n, f) == f(k)
  {
    if k == n - 1 {
      SumZero(n - 1, f);
    } else {
      SumSingle(n - 1, k, f);
    }
  }

  /** Scaling a sum of n terms and re-indexing it over n+1 terms of which the k-th is zero. */
  lemma {:induction false} SumSkip(n: nat, k: nat, c: real, f: int -> real, g: int -> real)
    requires k <= n
    requires forall i | 0 <= i < n :: Mul(c, f(i)) == g(Skip(k, i))
    requires g(k) == 0.0
    ensures Mul(c, Sum(n, f)) == Sum(n + 1, g)
    decreases n
  {
    hide Mul;
    if k == n {
      forall i | 0 <= i < n ensures g(i) == Mul(c, f(i)) {
        assert g(Skip(k, i)) == g(i);
      }
      SumScale(n, c, f, g);
    } else {
      SumSkip(n - 1, k, c, f, g);
      assert g(Skip(k, n - 1)) == Mul(c, f(n - 1));
      MulLaws(c, Sum(n - 1, f), f(n - 1));
    }
  }

  /** Exchanging the order of a double sum. */
  lemma {:induction false} SumSwap(n: nat, m: nat, byRow: int -> int -> real, byCol: int -> int -> real,
                                   rowSum: int -> real, colSum: int -> real)
    requires forall i, j | 0 <= i < n && 0 <= j < m :: byRow(i)(j) == byCol(j)(i)
    requires forall i | 0 <= i < n :: rowSum(i) == Sum(m, byRow(i))
    requires forall j | 0 <= j < m :: colSum(j) == Sum(n, byCol(j))
    ensures Sum(n, rowSum) == Sum(m, colSum)
    decreases n
  {
    if n == 0 {
      SumZero(m, colSum);
    } else {
      var rest := j => Sum(n - 1, byCol(j));
      SumSwap(n - 1, m, byRow, byCol, rowSum, rest);
      SumAdd(m, rest, byRow(n - 1), colSum);
    }
  }

  lemma {:induction false} SumShift(n: nat, f: int -> real, g: int -> real)
    requires forall i | 0 <= i < n :: g(i) == f(i + 1)
    ensures Sum(n + 1, f) == f(0) + Sum(n, g)
  {
    if n != 0 {
      SumShift(n - 1, f, g);
    }
  }
}
