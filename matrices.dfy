/**
 * Dense real matrices and vectors: the Kronecker product, sum, product and
 * matrix-vector product that the register engine takes from its linear
 * algebra library. A column vector is a sequence of its entries.
 */
module Matrices {

  type Matrix = seq<seq<real>>
  type Vector = seq<real>

  /** A 2 x 2 operator on one qubit, given row by row. */
  datatype Op = Op(m00: real, m01: real, m10: real, m11: real)
  {
    /** Entry (i, j), for i, j in {0, 1}. */
    function At(i: nat, j: nat): real
    {
      if i == 0 then (if j == 0 then m00 else m01) else (if j == 0 then m10 else m11)
    }

    /** The operator as a 2 x 2 matrix. */
    function AsMatrix(): (M: Matrix)
      ensures IsSquare(M, 2)
      ensures forall i, j :: 0 <= i < 2 && 0 <= j < 2 ==> M[i][j] == At(i, j)
    {
      [[m00, m01], [m10, m11]]
    }
  }

  /** Basis vector of dimension d: 1 at index b, 0 elsewhere. */
  function Basis(d: nat, b: int): (v: Vector)
    ensures |v| == d && forall k :: 0 <= k < d ==> v[k] == if k == b then 1.0 else 0.0
  {
    seq(d, k => if k == b then 1.0 else 0.0)
  }

  /** Every row of M is as long as M has rows. */
  ghost predicate Square(M: Matrix)
  {
    forall r :: 0 <= r < |M| ==> |M[r]| == |M|
  }

  /** M is a d x d matrix. */
  ghost predicate IsSquare(M: Matrix, d: nat)
  {
    |M| == d && Square(M)
  }

  /**
   * Kronecker (tensor) product A (x) F of a square matrix with a one-qubit
   * operator, the only shape in which the engine forms it: block
   * (r / 2, c / 2) of the result is A[r / 2][c / 2] times F.
   */
  function Kron(A: Matrix, F: Op): (K: Matrix)
    requires Square(A)
    ensures IsSquare(K, 2 * |A|)
  {
    seq(2 * |A|, r => seq(2 * |A|, c => KronAt(A, F, r, c)))
  }

  /** Entry (r, c) of A (x) F, and 0 outside the product. */
  function KronAt(A: Matrix, F: Op, r: int, c: int): real
    requires Square(A)
  {
    if 0 <= r < 2 * |A| && 0 <= c < 2 * |A| then A[r / 2][c / 2] * F.At(r % 2, c % 2) else 0.0
  }

  /** Entry (r, c) of A (x) F: the entry of A in block (r / 2, c / 2) times an entry of F. */
  lemma KronEntry(A: Matrix, F: Op, r: nat, c: nat)
    requires Square(A) && r < 2 * |A| && c < 2 * |A|
    ensures r / 2 < |A| && c / 2 < |A|
    ensures Kron(A, F)[r][c] == A[r / 2][c / 2] * F.At(r % 2, c % 2)
  {
  }

  /** Kronecker product u (x) w of a column vector with a one-qubit column vector. */
  function KronVec(u: Vector, w0: real, w1: real): (k: Vector)
    ensures |k| == 2 * |u|
    ensures forall i :: 0 <= i < 2 * |u| ==> k[i] == u[i / 2] * (if i % 2 == 0 then w0 else w1)
  {
    seq(2 * |u|, i => if 0 <= i < 2 * |u| then u[i / 2] * (if i % 2 == 0 then w0 else w1) else 0.0)
  }

  /** Elementwise sum of two d x d matrices. */
  function Add(A: Matrix, B: Matrix): (S: Matrix)
    requires Square(A) && IsSquare(B, |A|)
    ensures IsSquare(S, |A|)
    ensures forall r, c :: 0 <= r < |A| && 0 <= c < |A| ==> S[r][c] == A[r][c] + B[r][c]
  {
    seq(|A|, r => seq(|A|, c => AddAt(A, B, r, c)))
  }

  /** Entry (r, c) of A + B, and 0 outside the sum. */
  function AddAt(A: Matrix, B: Matrix, r: int, c: int): real
    requires Square(A) && IsSquare(B, |A|)
  {
    if 0 <= r < |A| && 0 <= c < |A| then A[r][c] + B[r][c] else 0.0
  }

  /** Sum of the products of corresponding entries. */
  function Dot(u: Vector, w: Vector): real
    requires |u| == |w|
  {
    if |u| == 0 then 0.0 else u[0] * w[0] + Dot(u[1..], w[1..])
  }

  /** Column c of a square matrix. */
  function Column(B: Matrix, c: nat): (col: Vector)
    requires Square(B) && c < |B|
    ensures |col| == |B|
    ensures forall k :: 0 <= k < |B| ==> col[k] == B[k][c]
  {
    seq(|B|, k => if 0 <= k < |B| then B[k][c] else 0.0)
  }

  /** Matrix product of two d x d matrices. */
  function Mul(A: Matrix, B: Matrix): (P: Matrix)
    requires Square(A) && IsSquare(B, |A|)
    ensures IsSquare(P, |A|)
  {
    seq(|A|, r => seq(|A|, c => MulAt(A, B, r, c)))
  }

  /** Entry (r, c) of A B: row r of A against column c of B, and 0 outside the product. */
  function MulAt(A: Matrix, B: Matrix, r: int, c: int): real
    requires Square(A) && IsSquare(B, |A|)
  {
    if 0 <= r < |A| && 0 <= c < |A| then Dot(A[r], Column(B, c)) else 0.0
  }

  /** Left-multiplication of a column vector by a matrix. */
  function MatVec(M: Matrix, v: Vector): (w: Vector)
    requires IsSquare(M, |v|)
    ensures |w| == |v|
  {
    seq(|v|, r => if 0 <= r < |v| then Dot(M[r], v) else 0.0)
  }

  /** Row u has its only possible non-zero entry, w, in column t. */
  ghost predicate SingleEntry(u: Vector, t: nat, w: real)
  {
    t < |u| && forall c :: 0 <= c < |u| ==> u[c] == if c == t then w else 0.0
  }

  /** A row with a single entry w at column t picks w times the t-th component. */
  lemma {:induction false} DotSingle(u: Vector, x: Vector, t: nat, w: real)
    requires |u| == |x| && SingleEntry(u, t, w)
    ensures Dot(u, x) == w * x[t]
    decreases |u|
  {
    if t == 0 {
      DotZero(u[1..], x[1..]);
    } else {
      assert SingleEntry(u[1..], t - 1, w) by {
        forall c | 0 <= c < |u| - 1 ensures u[1..][c] == if c == t - 1 then w else 0.0 {
          assert u[1..][c] == u[c + 1];
        }
      }
      DotSingle(u[1..], x[1..], t - 1, w);
    }
  }

  /** A zero row gives 0 against any vector. */
  lemma {:induction false} DotZero(u: Vector, x: Vector)
    requires |u| == |x| && forall c :: 0 <= c < |u| ==> u[c] == 0.0
    ensures Dot(u, x) == 0.0
    decreases |u|
  {
    if |u| > 0 {
      assert forall c :: 0 <= c < |u| - 1 ==> u[1..][c] == u[c + 1];
      DotZero(u[1..], x[1..]);
    }
  }

  /** Row r of M has a single entry w at t: row r of M v is w times v[t]. */
  lemma {:induction false} MatVecSingle(M: Matrix, v: Vector, r: nat, t: nat, w: real)
    requires IsSquare(M, |v|) && r < |v| && SingleEntry(M[r], t, w)
    ensures MatVec(M, v)[r] == w * v[t]
  {
    DotSingle(M[r], v, t, w);
  }

  /** A row with entries w1 at t1 and w2 at t2, and 0 elsewhere, picks w1 x[t1] + w2 x[t2]. */
  lemma {:induction false} DotPair(u: Vector, x: Vector, t1: nat, t2: nat, w1: real, w2: real)
    requires |u| == |x| && t1 < |u| && t2 < |u| && t1 != t2
    requires forall c :: 0 <= c < |u| ==> u[c] == if c == t1 then w1 else if c == t2 then w2 else 0.0
    ensures Dot(u, x) == w1 * x[t1] + w2 * x[t2]
    decreases |u|
  {
    assert forall c :: 0 <= c < |u| - 1 ==> u[1..][c] == u[c + 1];
    if t1 == 0 {
      DotSingle(u[1..], x[1..], t2 - 1, w2);
    } else if t2 == 0 {
      DotSingle(u[1..], x[1..], t1 - 1, w1);
    } else {
      DotPair(u[1..], x[1..], t1 - 1, t2 - 1, w1, w2);
    }
  }

  /** Row r of M has entries w1 at t1 and w2 at t2 only: row r of M v is w1 v[t1] + w2 v[t2]. */
  lemma MatVecPair(M: Matrix, v: Vector, r: nat, t1: nat, t2: nat, w1: real, w2: real)
    requires IsSquare(M, |v|) && r < |v| && t1 < |v| && t2 < |v| && t1 != t2
    requires forall c :: 0 <= c < |v| ==> M[r][c] == if c == t1 then w1 else if c == t2 then w2 else 0.0
    ensures MatVec(M, v)[r] == w1 * v[t1] + w2 * v[t2]
  {
    DotPair(M[r], v, t1, t2, w1, w2);
  }

  /** Row r of A has a single entry w at t: row r of A B is w times row t of B. */
  lemma {:induction false} MulSingle(A: Matrix, B: Matrix, r: nat, t: nat, w: real)
    requires Square(A) && IsSquare(B, |A|) && r < |A| && SingleEntry(A[r], t, w)
    ensures forall c :: 0 <= c < |A| ==> Mul(A, B)[r][c] == w * B[t][c]
  {
    forall c | 0 <= c < |A| ensures Mul(A, B)[r][c] == w * B[t][c] {
      DotSingle(A[r], Column(B, c), t, w);
    }
  }
}
