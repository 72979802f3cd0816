/**
 * The n-qubit register: a state vector of 2^n real amplitudes that every gate
 * replaces by the product of the gate's matrix with it. Besides the matrix
 * form, each gate is given by what it does to the amplitudes (a permutation of
 * basis indices, a sign change, or the Hadamard mix), and the two are proved
 * to agree.
 */
module Registers {
  import opened Bits
  import opened Matrices
  import opened Operators
  import opened Gates
  import opened Measurement

  // ---------------------------------------------------------------------------
  // What each gate does to the amplitudes

  /** Amplitude at index t, and 0 outside the state. */
  function Amp(v: Vector, t: int): real
  {
    if 0 <= t < |v| then v[t] else 0.0
  }

  /** NOT on qubit i: index b receives the amplitude of b with qubit i inverted. */
  function NotState(v: Vector, i: int, n: nat): (w: Vector)
    requires 1 <= i <= n
    ensures |w| == |v|
  {
    seq(|v|, b => if 0 <= b then Amp(v, Flip(b, i, n)) else 0.0)
  }

  /** Z on qubit i: the amplitudes of the indices whose qubit i is 1 change sign. */
  function ZState(v: Vector, i: int, n: nat): (w: Vector)
    requires 1 <= i <= n
    ensures |w| == |v|
  {
    seq(|v|, b => if 0 <= b < |v| then (if Bit(b, i, n) == 1 then -v[b] else v[b]) else 0.0)
  }

  /**
   * Hadamard on qubit i, before the snap: with a0 and a1 the amplitudes of the
   * pair of indices that differ only in qubit i, the index with qubit i = 0
   * receives (a0 + a1) / sqrt 2 and the other (a0 - a1) / sqrt 2.
   */
  function HadamardState(v: Vector, i: int, n: nat): (w: Vector)
    requires 1 <= i <= n
    ensures |w| == |v|
  {
    seq(|v|, b => if 0 <= b < |v| then HadamardAmp(v, b, i, n) else 0.0)
  }

  /** Entry b of HadamardState. */
  function HadamardAmp(v: Vector, b: nat, i: int, n: nat): real
    requires 1 <= i <= n && b < |v|
  {
    if Bit(b, i, n) == 0 then OneOverSqrt2 * v[b] + OneOverSqrt2 * Amp(v, Flip(b, i, n))
    else -OneOverSqrt2 * v[b] + OneOverSqrt2 * Amp(v, Flip(b, i, n))
  }

  /** An amplitude within ErrThresh of 1 is rounded to 1. */
  function SnapAmp(a: real): real
  {
    if -ErrThresh < 1.0 - a < ErrThresh then 1.0 else a
  }

  /** The rounding the engine applies after a Hadamard, entry by entry. */
  function Snap(v: Vector): (w: Vector)
    ensures |w| == |v|
  {
    seq(|v|, k => if 0 <= k < |v| then SnapAmp(v[k]) else 0.0)
  }

  /** CNOT: index b receives the amplitude of its CNOT image. */
  function CnotState(v: Vector, i: int, j: int, n: nat): (w: Vector)
    requires 1 <= i <= n && 1 <= j <= n
    ensures |w| == |v|
  {
    seq(|v|, b => if 0 <= b then Amp(v, CnotTarget(b, i, j, n)) else 0.0)
  }

  /** SWAP: index b receives the amplitude of b with qubits i and j exchanged. */
  function SwapState(v: Vector, i: int, j: int, n: nat): (w: Vector)
    requires 1 <= i <= n && 1 <= j <= n
    ensures |w| == |v|
  {
    seq(|v|, b => if 0 <= b then Amp(v, SwapBits(b, i, j, n)) else 0.0)
  }

  /** Toffoli: index b receives the amplitude of its Toffoli image. */
  function CcnotState(v: Vector, i: int, j: int, k: int, n: nat): (w: Vector)
    requires 1 <= i <= n && 1 <= j <= n && 1 <= k <= n
    ensures |w| == |v|
  {
    seq(|v|, b => if 0 <= b then Amp(v, CcnotTarget(b, i, j, k, n)) else 0.0)
  }

  /** Fredkin: index b receives the amplitude of its Fredkin image. */
  function CswapState(v: Vector, i: int, j: int, k: int, n: nat): (w: Vector)
    requires 1 <= i <= n && 1 <= j <= n && 1 <= k <= n
    ensures |w| == |v|
  {
    seq(|v|, b => if 0 <= b then Amp(v, CswapTarget(b, i, j, k, n)) else 0.0)
  }

  // ---------------------------------------------------------------------------
  // The matrices act as described

  /** A row whose only entry is a 1 in column t copies amplitude t. */
  lemma PermutationRow(M: Matrix, v: Vector, r: nat, t: nat)
    requires IsSquare(M, |v|) && r < |v| && t < |v|
    requires forall c :: 0 <= c < |v| ==> M[r][c] == if c == t then 1.0 else 0.0
    ensures MatVec(M, v)[r] == v[t]
  {
    MatVecSingle(M, v, r, t, 1.0);
  }

  /** A gate on a qubit outside 1..n multiplies by the identity. */
  lemma OutOfRangeAction(op: Op, i: int, n: nat, v: Vector)
    requires n >= 1 && (i < 1 || n < i) && |v| == Pow2(n)
    ensures MatVec(PlacedOp(op, i, n), v) == v
  {
    var M := PlacedOp(op, i, n);
    forall r | 0 <= r < |v| ensures MatVec(M, v)[r] == v[r] {
      forall c | 0 <= c < |v| ensures M[r][c] == if c == r then 1.0 else 0.0 {
        PlacedOpOutside(op, i, n, r, c);
      }
      PermutationRow(M, v, r, r);
    }
  }

  /** X on qubit i moves each amplitude to the index with qubit i inverted. */
  lemma NotAction(v: Vector, i: int, n: nat)
    requires 1 <= i <= n && |v| == Pow2(n)
    ensures MatVec(PlacedOp(PauliX, i, n), v) == NotState(v, i, n)
  {
    var M := PlacedOp(PauliX, i, n);
    forall r | 0 <= r < |v| ensures MatVec(M, v)[r] == NotState(v, i, n)[r] {
      FlipBits(r, i, n);
      forall c | 0 <= c < |v| ensures M[r][c] == if c == Flip(r, i, n) then 1.0 else 0.0 {
        NotMatrixEntry(i, n, r, c);
      }
      PermutationRow(M, v, r, Flip(r, i, n));
    }
  }

  /** Z on qubit i negates the amplitudes whose qubit i is 1. */
  lemma ZAction(v: Vector, i: int, n: nat)
    requires 1 <= i <= n && |v| == Pow2(n)
    ensures MatVec(PlacedOp(PauliZ, i, n), v) == ZState(v, i, n)
  {
    var M := PlacedOp(PauliZ, i, n);
    forall r | 0 <= r < |v| ensures MatVec(M, v)[r] == ZState(v, i, n)[r] {
      var w := if Bit(r, i, n) == 1 then -1.0 else 1.0;
      forall c | 0 <= c < |v| ensures M[r][c] == if c == r then w else 0.0 {
        ZMatrixEntry(i, n, r, c);
      }
      MatVecSingle(M, v, r, r, w);
    }
  }

  /** H on qubit i mixes each pair of amplitudes that differ only in qubit i. */
  lemma HadamardAction(v: Vector, i: int, n: nat)
    requires 1 <= i <= n && |v| == Pow2(n)
    ensures MatVec(PlacedOp(HadamardGate, i, n), v) == HadamardState(v, i, n)
  {
    var M := PlacedOp(HadamardGate, i, n);
    forall r | 0 <= r < |v| ensures MatVec(M, v)[r] == HadamardState(v, i, n)[r] {
      FlipBits(r, i, n);
      var f := Flip(r, i, n);
      var w := if Bit(r, i, n) == 1 then -OneOverSqrt2 else OneOverSqrt2;
      forall c | 0 <= c < |v| ensures M[r][c] == if c == r then w else if c == f then OneOverSqrt2 else 0.0 {
        HadamardMatrixEntry(i, n, r, c);
      }
      MatVecPair(M, v, r, r, f, w, OneOverSqrt2);
    }
  }

  /** The projected X operation is CNOT: it flips qubit j of the indices whose qubit i is 1. */
  lemma CnotAction(v: Vector, i: int, j: int, n: nat)
    requires 1 <= i <= n && 1 <= j <= n && i != j && |v| == Pow2(n)
    ensures MatVec(ProjectedOp(i, j, PauliX, n), v) == CnotState(v, i, j, n)
  {
    var M := ProjectedOp(i, j, PauliX, n);
    forall r | 0 <= r < |v| ensures MatVec(M, v)[r] == CnotState(v, i, j, n)[r] {
      CnotBits(r, i, j, n);
      var t := CnotTarget(r, i, j, n);
      forall c | 0 <= c < |v| ensures M[r][c] == if c == t then 1.0 else 0.0 {
        CnotMatrixEntry(i, j, n, r, c);
      }
      PermutationRow(M, v, r, t);
    }
  }

  /** The Toffoli matrix flips qubit k of the indices whose qubits i and j are both 1. */
  lemma CcnotAction(v: Vector, i: int, j: int, k: int, n: nat)
    requires 1 <= i <= n && 1 <= j <= n && 1 <= k <= n && i != j && i != k && j != k
    requires |v| == Pow2(n)
    ensures MatVec(CcnotOp(i, j, k, n), v) == CcnotState(v, i, j, k, n)
  {
    var M := CcnotOp(i, j, k, n);
    forall r | 0 <= r < |v| ensures MatVec(M, v)[r] == CcnotState(v, i, j, k, n)[r] {
      CcnotBits(r, i, j, k, n);
      var t := CcnotTarget(r, i, j, k, n);
      forall c | 0 <= c < |v| ensures M[r][c] == if c == t then 1.0 else 0.0 {
        CcnotOpEntry(i, j, k, n, r, c);
      }
      PermutationRow(M, v, r, t);
    }
  }

  /** The Fredkin matrix exchanges qubits j and k of the indices whose qubit i is 1. */
  lemma CswapAction(v: Vector, i: int, j: int, k: int, n: nat)
    requires 1 <= i <= n && 1 <= j <= n && 1 <= k <= n && i != j && i != k && j != k
    requires |v| == Pow2(n)
    ensures MatVec(CswapOp(i, j, k, n), v) == CswapState(v, i, j, k, n)
  {
    var M := CswapOp(i, j, k, n);
    forall r | 0 <= r < |v| ensures MatVec(M, v)[r] == CswapState(v, i, j, k, n)[r] {
      CswapBits(r, i, j, k, n);
      var t := CswapTarget(r, i, j, k, n);
      forall c | 0 <= c < |v| ensures M[r][c] == if c == t then 1.0 else 0.0 {
        CswapOpEntry(i, j, k, n, r, c);
      }
      PermutationRow(M, v, r, t);
    }
  }

  // ---------------------------------------------------------------------------
  // Properties of the gates

  /** NOT twice restores the state exactly. */
  lemma NotTwice(v: Vector, i: int, n: nat)
    requires 1 <= i <= n && |v| == Pow2(n)
    ensures NotState(NotState(v, i, n), i, n) == v
  {
    forall b | 0 <= b < |v| ensures NotState(NotState(v, i, n), i, n)[b] == v[b] {
      FlipBits(b, i, n);
      FlipInvolutive(b, i, n);
    }
  }

  /** Z twice restores the state exactly. */
  lemma ZTwice(v: Vector, i: int, n: nat)
    requires 1 <= i <= n
    ensures ZState(ZState(v, i, n), i, n) == v
  {
  }

  /** Z changes only signs, so it keeps the squared norm. */
  lemma {:induction false} ZKeepsNorm(v: Vector, i: int, n: nat, k: nat)
    requires 1 <= i <= n && k <= |v|
    ensures SquaresUpTo(ZState(v, i, n), k) == SquaresUpTo(v, k)
  {
    if k > 0 {
      ZKeepsNorm(v, i, n, k - 1);
    }
  }

  /** NOT on qubit i only reorders the amplitudes, so it keeps the squared norm. */
  lemma NotKeepsNorm(v: Vector, i: int, n: nat)
    requires 1 <= i <= n && |v| == Pow2(n)
    ensures SquaredNorm(NotState(v, i, n)) == SquaredNorm(v)
  {
    var w := NotState(v, i, n);
    var s: int -> int := b => if 0 <= b then Flip(b, i, n) else b;
    forall b | 0 <= b < |v| ensures 0 <= s(b) < |v| && s(s(b)) == b && w[b] == v[s(b)] {
      FlipBits(b, i, n);
      FlipInvolutive(b, i, n);
    }
    InvolutionIsPermutation(s, |v|);
    PermutationKeepsNorm(v, w, s);
  }

  /** CNOT only reorders the amplitudes, so it keeps the squared norm. */
  lemma CnotKeepsNorm(v: Vector, i: int, j: int, n: nat)
    requires 1 <= i <= n && 1 <= j <= n && i != j && |v| == Pow2(n)
    ensures SquaredNorm(CnotState(v, i, j, n)) == SquaredNorm(v)
  {
    var w := CnotState(v, i, j, n);
    var s: int -> int := b => if 0 <= b then CnotTarget(b, i, j, n) else b;
    forall b | 0 <= b < |v| ensures 0 <= s(b) < |v| && s(s(b)) == b && w[b] == v[s(b)] {
      CnotBits(b, i, j, n);
      CnotInvolutive(b, i, j, n);
    }
    InvolutionIsPermutation(s, |v|);
    PermutationKeepsNorm(v, w, s);
  }

  /** SWAP only reorders the amplitudes, so it keeps the squared norm. */
  lemma SwapKeepsNorm(v: Vector, i: int, j: int, n: nat)
    requires 1 <= i <= n && 1 <= j <= n && i != j && |v| == Pow2(n)
    ensures SquaredNorm(SwapState(v, i, j, n)) == SquaredNorm(v)
  {
    var w := SwapState(v, i, j, n);
    var s: int -> int := b => if 0 <= b then SwapBits(b, i, j, n) else b;
    forall b | 0 <= b < |v| ensures 0 <= s(b) < |v| && s(s(b)) == b && w[b] == v[s(b)] {
      SwapBitsBits(b, i, j, n);
      SwapBitsInvolutive(b, i, j, n);
    }
    InvolutionIsPermutation(s, |v|);
    PermutationKeepsNorm(v, w, s);
  }

  /** Toffoli only reorders the amplitudes, so it keeps the squared norm. */
  lemma CcnotKeepsNorm(v: Vector, i: int, j: int, k: int, n: nat)
    requires 1 <= i <= n && 1 <= j <= n && 1 <= k <= n && i != k && j != k && |v| == Pow2(n)
    ensures SquaredNorm(CcnotState(v, i, j, k, n)) == SquaredNorm(v)
  {
    var w := CcnotState(v, i, j, k, n);
    var s: int -> int := b => if 0 <= b then CcnotTarget(b, i, j, k, n) else b;
    forall b | 0 <= b < |v| ensures 0 <= s(b) < |v| && s(s(b)) == b && w[b] == v[s(b)] {
      CcnotBits(b, i, j, k, n);
      CcnotInvolutive(b, i, j, k, n);
    }
    InvolutionIsPermutation(s, |v|);
    PermutationKeepsNorm(v, w, s);
  }

  /** Fredkin only reorders the amplitudes, so it keeps the squared norm. */
  lemma CswapKeepsNorm(v: Vector, i: int, j: int, k: int, n: nat)
    requires 1 <= i <= n && 1 <= j <= n && 1 <= k <= n && i != j && i != k && j != k
    requires |v| == Pow2(n)
    ensures SquaredNorm(CswapState(v, i, j, k, n)) == SquaredNorm(v)
  {
    var w := CswapState(v, i, j, k, n);
    var s: int -> int := b => if 0 <= b then CswapTarget(b, i, j, k, n) else b;
    forall b | 0 <= b < |v| ensures 0 <= s(b) < |v| && s(s(b)) == b && w[b] == v[s(b)] {
      CswapBits(b, i, j, k, n);
      CswapInvolutive(b, i, j, k, n);
    }
    InvolutionIsPermutation(s, |v|);
    PermutationKeepsNorm(v, w, s);
  }

  /** CNOT twice restores the state exactly. */
  lemma CnotTwice(v: Vector, i: int, j: int, n: nat)
    requires 1 <= i <= n && 1 <= j <= n && i != j && |v| == Pow2(n)
    ensures CnotState(CnotState(v, i, j, n), i, j, n) == v
  {
    forall b | 0 <= b < |v| ensures CnotState(CnotState(v, i, j, n), i, j, n)[b] == v[b] {
      CnotBits(b, i, j, n);
      CnotInvolutive(b, i, j, n);
    }
  }

  /** Three CNOTs, on (i, j), (j, i), (i, j) in turn, exchange qubits i and j. */
  lemma ThreeCnotsAreSwap(v: Vector, i: int, j: int, n: nat)
    requires 1 <= i <= n && 1 <= j <= n && i != j && |v| == Pow2(n)
    ensures CnotState(CnotState(CnotState(v, i, j, n), j, i, n), i, j, n) == SwapState(v, i, j, n)
  {
    var w1 := CnotState(v, i, j, n);
    var w2 := CnotState(w1, j, i, n);
    forall b | 0 <= b < |v| ensures CnotState(w2, i, j, n)[b] == SwapState(v, i, j, n)[b] {
      CnotBits(b, i, j, n);
      var t1 := CnotTarget(b, i, j, n);
      CnotBits(t1, j, i, n);
      var t2 := CnotTarget(t1, j, i, n);
      CnotBits(t2, i, j, n);
      ThreeCnotsSwap(b, i, j, n);
    }
  }

  /** SWAP twice restores the state exactly. */
  lemma SwapTwice(v: Vector, i: int, j: int, n: nat)
    requires 1 <= i <= n && 1 <= j <= n && i != j && |v| == Pow2(n)
    ensures SwapState(SwapState(v, i, j, n), i, j, n) == v
  {
    forall b | 0 <= b < |v| ensures SwapState(SwapState(v, i, j, n), i, j, n)[b] == v[b] {
      SwapBitsBits(b, i, j, n);
      SwapBitsInvolutive(b, i, j, n);
    }
  }

  /** Toffoli twice restores the state exactly. */
  lemma CcnotTwice(v: Vector, i: int, j: int, k: int, n: nat)
    requires 1 <= i <= n && 1 <= j <= n && 1 <= k <= n && i != k && j != k && |v| == Pow2(n)
    ensures CcnotState(CcnotState(v, i, j, k, n), i, j, k, n) == v
  {
    forall b | 0 <= b < |v| ensures CcnotState(CcnotState(v, i, j, k, n), i, j, k, n)[b] == v[b] {
      CcnotBits(b, i, j, k, n);
      CcnotInvolutive(b, i, j, k, n);
    }
  }

  /** Fredkin twice restores the state exactly. */
  lemma CswapTwice(v: Vector, i: int, j: int, k: int, n: nat)
    requires 1 <= i <= n && 1 <= j <= n && 1 <= k <= n && i != j && i != k && j != k
    requires |v| == Pow2(n)
    ensures CswapState(CswapState(v, i, j, k, n), i, j, k, n) == v
  {
    forall b | 0 <= b < |v| ensures CswapState(CswapState(v, i, j, k, n), i, j, k, n)[b] == v[b] {
      CswapBits(b, i, j, k, n);
      CswapInvolutive(b, i, j, k, n);
    }
  }

  /** The snap moves no amplitude by ErrThresh or more, and only those near 1. */
  lemma SnapIsClose(v: Vector)
    ensures forall k :: 0 <= k < |v| ==>
      -ErrThresh < Snap(v)[k] - v[k] < ErrThresh && (Snap(v)[k] == v[k] || Snap(v)[k] == 1.0)
  {
  }

  // ---------------------------------------------------------------------------
  // Basis states

  /** NOT on qubit i takes basis state |b> to |b with qubit i inverted>. */
  lemma NotBasis(b: nat, i: int, n: nat)
    requires 1 <= i <= n && b < Pow2(n)
    ensures NotState(Basis(Pow2(n), b), i, n) == Basis(Pow2(n), Flip(b, i, n))
  {
    forall c | 0 <= c < Pow2(n) ensures NotState(Basis(Pow2(n), b), i, n)[c] == Basis(Pow2(n), Flip(b, i, n))[c] {
      FlipBits(c, i, n);
      FlipInvolutive(c, i, n);
      FlipInvolutive(b, i, n);
    }
  }

  /** CNOT takes basis state |b> to |CnotTarget(b)>. */
  lemma CnotBasis(b: nat, i: int, j: int, n: nat)
    requires 1 <= i <= n && 1 <= j <= n && i != j && b < Pow2(n)
    ensures CnotState(Basis(Pow2(n), b), i, j, n) == Basis(Pow2(n), CnotTarget(b, i, j, n))
  {
    forall c | 0 <= c < Pow2(n)
      ensures CnotState(Basis(Pow2(n), b), i, j, n)[c] == Basis(Pow2(n), CnotTarget(b, i, j, n))[c]
    {
      CnotBits(c, i, j, n);
      CnotInvolutive(c, i, j, n);
      CnotInvolutive(b, i, j, n);
    }
  }

  /** SWAP takes basis state |b> to |b with qubits i and j exchanged>. */
  lemma SwapBasis(b: nat, i: int, j: int, n: nat)
    requires 1 <= i <= n && 1 <= j <= n && i != j && b < Pow2(n)
    ensures SwapState(Basis(Pow2(n), b), i, j, n) == Basis(Pow2(n), SwapBits(b, i, j, n))
  {
    forall c | 0 <= c < Pow2(n)
      ensures SwapState(Basis(Pow2(n), b), i, j, n)[c] == Basis(Pow2(n), SwapBits(b, i, j, n))[c]
    {
      SwapBitsBits(c, i, j, n);
      SwapBitsInvolutive(c, i, j, n);
      SwapBitsInvolutive(b, i, j, n);
    }
  }

  /** Toffoli takes basis state |b> to |CcnotTarget(b)>. */
  lemma CcnotBasis(b: nat, i: int, j: int, k: int, n: nat)
    requires 1 <= i <= n && 1 <= j <= n && 1 <= k <= n && i != k && j != k && b < Pow2(n)
    ensures CcnotState(Basis(Pow2(n), b), i, j, k, n) == Basis(Pow2(n), CcnotTarget(b, i, j, k, n))
  {
    forall c | 0 <= c < Pow2(n)
      ensures CcnotState(Basis(Pow2(n), b), i, j, k, n)[c] == Basis(Pow2(n), CcnotTarget(b, i, j, k, n))[c]
    {
      CcnotBits(c, i, j, k, n);
      CcnotInvolutive(c, i, j, k, n);
      CcnotInvolutive(b, i, j, k, n);
    }
  }

  /** Fredkin takes basis state |b> to |CswapTarget(b)>. */
  lemma CswapBasis(b: nat, i: int, j: int, k: int, n: nat)
    requires 1 <= i <= n && 1 <= j <= n && 1 <= k <= n && i != j && i != k && j != k
    requires b < Pow2(n)
    ensures CswapState(Basis(Pow2(n), b), i, j, k, n) == Basis(Pow2(n), CswapTarget(b, i, j, k, n))
  {
    forall c | 0 <= c < Pow2(n)
      ensures CswapState(Basis(Pow2(n), b), i, j, k, n)[c] == Basis(Pow2(n), CswapTarget(b, i, j, k, n))[c]
    {
      CswapBits(c, i, j, k, n);
      CswapInvolutive(c, i, j, k, n);
      CswapInvolutive(b, i, j, k, n);
    }
  }

  /** Hadamard twice on one qubit in |0>, with the snap after each, gives |0> back. */
  lemma HadamardTwiceOnZero()
    ensures Snap(HadamardState([1.0, 0.0], 1, 1)) == [OneOverSqrt2, OneOverSqrt2]
    ensures Snap(HadamardState(Snap(HadamardState([1.0, 0.0], 1, 1)), 1, 1)) == [1.0, 0.0]
  {
    assert Bit(0, 1, 1) == 0 && Bit(1, 1, 1) == 1;
    assert Flip(0, 1, 1) == 1 && Flip(1, 1, 1) == 0;
    var s := [OneOverSqrt2, OneOverSqrt2];
    assert Snap(HadamardState([1.0, 0.0], 1, 1)) == s;
    assert HadamardState(s, 1, 1)[1] == 0.0;
  }

  /** Extending |0...0> by one more qubit in |0> gives |0...0> again. */
  lemma KronZero(d: nat)
    ensures KronVec(Basis(d, 0), 1.0, 0.0) == Basis(2 * d, 0)
  {
    var k := KronVec(Basis(d, 0), 1.0, 0.0);
    forall t | 0 <= t < 2 * d ensures k[t] == Basis(2 * d, 0)[t] {
      assert t == 0 <==> t / 2 == 0 && t % 2 == 0;
    }
  }

  // ---------------------------------------------------------------------------
  // The register

  class Register {
    /** Number of qubits. */
    const n: nat
    /** The state: 2^n amplitudes, index b for the basis state |b>. */
    var phi: Vector

    ghost predicate Valid()
      reads this
    {
      n >= 1 && |phi| == Pow2(n)
    }

    /** n qubits, all in |0>. */
    constructor(n: nat)
      requires n >= 1
      ensures Valid() && this.n == n
      ensures phi == Basis(Pow2(n), 0)
    {
      this.n := n;
      var p: Vector := [1.0, 0.0];
      var k := 1;
      while k < n
        invariant 1 <= k <= n
        invariant p == Basis(Pow2(k), 0)
      {
        KronZero(Pow2(k));
        p := KronVec(p, 1.0, 0.0);
        k := k + 1;
      }
      phi := p;
    }

    /** Pauli X on qubit i. */
    method Not(i: int)
      requires Valid()
      modifies this
      ensures Valid()
      ensures phi == MatVec(PlacedOp(PauliX, i, n), old(phi))
      ensures 1 <= i <= n ==> phi == NotState(old(phi), i, n)
      ensures !(1 <= i <= n) ==> phi == old(phi)
    {
      var M := PermutationMatrix(PauliX, i, n);
      phi := MatVec(M, phi);
      if 1 <= i <= n {
        NotAction(old(phi), i, n);
      } else {
        OutOfRangeAction(PauliX, i, n, old(phi));
      }
    }

    /** Pauli Z on qubit i. */
    method Z(i: int)
      requires Valid()
      modifies this
      ensures Valid()
      ensures phi == MatVec(PlacedOp(PauliZ, i, n), old(phi))
      ensures 1 <= i <= n ==> phi == ZState(old(phi), i, n)
      ensures !(1 <= i <= n) ==> phi == old(phi)
    {
      var M := PermutationMatrix(PauliZ, i, n);
      phi := MatVec(M, phi);
      if 1 <= i <= n {
        ZAction(old(phi), i, n);
      } else {
        OutOfRangeAction(PauliZ, i, n, old(phi));
      }
    }

    /** Hadamard on qubit i, then every amplitude within ErrThresh of 1 set to 1. */
    method Hadamard(i: int)
      requires Valid()
      modifies this
      ensures Valid()
      ensures phi == Snap(MatVec(PlacedOp(HadamardGate, i, n), old(phi)))
      ensures 1 <= i <= n ==> phi == Snap(HadamardState(old(phi), i, n))
      ensures !(1 <= i <= n) ==> phi == Snap(old(phi))
    {
      var M := PermutationMatrix(HadamardGate, i, n);
      phi := Snap(MatVec(M, phi));
      if 1 <= i <= n {
        HadamardAction(old(phi), i, n);
      } else {
        OutOfRangeAction(HadamardGate, i, n, old(phi));
      }
    }

    /** Controlled NOT of qubit j, conditioned on qubit i. */
    method Cnot(i: int, j: int)
      requires Valid()
      modifies this
      ensures Valid()
      ensures phi == MatVec(ProjectedOp(i, j, PauliX, n), old(phi))
      ensures 1 <= i <= n && 1 <= j <= n && i != j ==> phi == CnotState(old(phi), i, j, n)
    {
      var M := ProjectedOperation(i, j, PauliX, n);
      phi := MatVec(M, phi);
      if 1 <= i <= n && 1 <= j <= n && i != j {
        CnotAction(old(phi), i, j, n);
      }
    }

    /** Exchange of qubits i and j, as three controlled NOTs. */
    method Swap(i: int, j: int)
      requires Valid()
      modifies this
      ensures Valid()
      ensures phi == MatVec(ProjectedOp(i, j, PauliX, n),
                       MatVec(ProjectedOp(j, i, PauliX, n),
                         MatVec(ProjectedOp(i, j, PauliX, n), old(phi))))
      ensures 1 <= i <= n && 1 <= j <= n && i != j ==> phi == SwapState(old(phi), i, j, n)
    {
      Cnot(i, j);
      Cnot(j, i);
      Cnot(i, j);
      if 1 <= i <= n && 1 <= j <= n && i != j {
        ThreeCnotsAreSwap(old(phi), i, j, n);
      }
    }

    /** Controlled-controlled NOT (Toffoli) of qubit k, conditioned on qubits i and j. */
    method Ccnot(i: int, j: int, k: int)
      requires Valid()
      modifies this
      ensures Valid()
      ensures phi == MatVec(CcnotOp(i, j, k, n), old(phi))
      ensures 1 <= i <= n && 1 <= j <= n && 1 <= k <= n && i != j && i != k && j != k ==>
        phi == CcnotState(old(phi), i, j, k, n)
    {
      var M := CcnotMatrix(i, j, k, n);
      phi := MatVec(M, phi);
      if 1 <= i <= n && 1 <= j <= n && 1 <= k <= n && i != j && i != k && j != k {
        CcnotAction(old(phi), i, j, k, n);
      }
    }

    /** Controlled swap (Fredkin) of qubits j and k, conditioned on qubit i. */
    method Cswap(i: int, j: int, k: int)
      requires Valid()
      modifies this
      ensures Valid()
      ensures phi == MatVec(CswapOp(i, j, k, n), old(phi))
      ensures 1 <= i <= n && 1 <= j <= n && 1 <= k <= n && i != j && i != k && j != k ==>
        phi == CswapState(old(phi), i, j, k, n)
    {
      var M := CswapMatrix(i, j, k, n);
      phi := MatVec(M, phi);
      if 1 <= i <= n && 1 <= j <= n && 1 <= k <= n && i != j && i != k && j != k {
        CswapAction(old(phi), i, j, k, n);
      }
    }

    /** Measurement with the draw r. */
    method Measure(r: real)
      requires Valid()
      modifies this
      ensures Valid()
      ensures phi == Collapse(old(phi), r)
    {
      phi := CollapseScan(phi, r);
    }
  }
}
