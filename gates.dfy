/**
 * The gate matrices of the register engine, built from the three Kronecker
 * builders by sums and products, and their meaning on basis states: every
 * one of them sends basis state c to basis state r exactly when entry (r, c)
 * is 1, so each lemma below names the row's only non-zero column.
 *
 * Row r of a gate matrix is read as "which amplitude ends up at index r", so
 * the column named in row r is the source index of that amplitude; for the
 * permutation gates here the map is an involution, so source and target
 * coincide.
 */
module Gates {
  import opened Bits
  import opened Matrices
  import opened Operators

  // ---------------------------------------------------------------------------
  // Specification functions

  /** |0><0| on qubit i, plus the controlled term that applies U on qubit j when qubit i is 1. */
  function ProjectedOp(i: int, j: int, u: Op, n: nat): (M: Matrix)
    requires n >= 1
    ensures IsSquare(M, Pow2(n))
  {
    Add(PlacedOp(Ket0Projector, i, n), ControlledTerm(i, j, u, n))
  }

  /** The off term, the on-off term and the on-on term of the Toffoli gate, summed. */
  function CcnotOp(i: int, j: int, k: int, n: nat): (M: Matrix)
    requires n >= 1
    ensures IsSquare(M, Pow2(n))
  {
    Add(Add(PlacedOp(Ket0Projector, i, n), ControlledTerm(i, j, Ket0Projector, n)),
        DoubleControlledTerm(i, j, k, PauliX, n))
  }

  /** When qubit i is 1: a controlled not from qubit j to qubit k; otherwise zero. */
  function ControlledCnotOp(i: int, j: int, k: int, n: nat): (M: Matrix)
    requires n >= 1
    ensures IsSquare(M, Pow2(n))
  {
    Add(ControlledTerm(i, j, Ket0Projector, n), DoubleControlledTerm(i, j, k, PauliX, n))
  }

  /** The on term of the Fredkin gate: three controlled nots, each conditioned on qubit i. */
  function CswapOnOp(i: int, j: int, k: int, n: nat): (M: Matrix)
    requires n >= 1
    ensures IsSquare(M, Pow2(n))
  {
    var factor13 := ControlledCnotOp(i, j, k, n);
    Mul(Mul(factor13, ControlledCnotOp(i, k, j, n)), factor13)
  }

  /** The off term plus the on term of the Fredkin gate. */
  function CswapOp(i: int, j: int, k: int, n: nat): (M: Matrix)
    requires n >= 1
    ensures IsSquare(M, Pow2(n))
  {
    Add(PlacedOp(Ket0Projector, i, n), CswapOnOp(i, j, k, n))
  }

  // ---------------------------------------------------------------------------
  // Builders

  /** An operation U on qubit j conditioned on qubit i. */
  method ProjectedOperation(i: int, j: int, u: Op, n: nat) returns (M: Matrix)
    requires n >= 1
    ensures M == ProjectedOp(i, j, u, n)
    ensures 1 <= i <= n && 1 <= j <= n && i != j ==>
      forall r, c :: 0 <= r < Pow2(n) && 0 <= c < Pow2(n) && Bit(r, i, n) == 0 ==>
        M[r][c] == if c == r then 1.0 else 0.0
    ensures 1 <= i <= n && 1 <= j <= n && i != j ==>
      forall r, c :: 0 <= r < Pow2(n) && 0 <= c < Pow2(n) && Bit(r, i, n) == 1 ==>
        M[r][c] == if SameBitsExcept(r, c, n, j) then u.At(Bit(r, j, n), Bit(c, j, n)) else 0.0
  {
    var off := PermutationMatrix(Ket0Projector, i, n);
    var on := SecondTerm(i, j, u, n);
    M := Add(off, on);
    if 1 <= i <= n && 1 <= j <= n && i != j {
      forall r, c | 0 <= r < Pow2(n) && 0 <= c < Pow2(n) && Bit(r, i, n) == 0
        ensures M[r][c] == if c == r then 1.0 else 0.0
      {
        ProjectedOpEntry(i, j, u, n, r, c);
      }
      forall r, c | 0 <= r < Pow2(n) && 0 <= c < Pow2(n) {
        ProjectedOpEntry(i, j, u, n, r, c);
      }
    }
  }

  /** The Toffoli matrix: qubit k inverted when qubits i and j are both 1. */
  method CcnotMatrix(i: int, j: int, k: int, n: nat) returns (M: Matrix)
    requires n >= 1
    ensures M == CcnotOp(i, j, k, n)
    ensures 1 <= i <= n && 1 <= j <= n && 1 <= k <= n && i != j && i != k && j != k ==>
      forall r, c :: 0 <= r < Pow2(n) && 0 <= c < Pow2(n) ==>
        M[r][c] == if c == CcnotTarget(r, i, j, k, n) then 1.0 else 0.0
  {
    var off := PermutationMatrix(Ket0Projector, i, n);
    var onOff := SecondTerm(i, j, Ket0Projector, n);
    var onOn := ThirdTerm(i, j, k, PauliX, n);
    M := Add(Add(off, onOff), onOn);
    if 1 <= i <= n && 1 <= j <= n && 1 <= k <= n && i != j && i != k && j != k {
      forall r, c | 0 <= r < Pow2(n) && 0 <= c < Pow2(n) {
        CcnotOpEntry(i, j, k, n, r, c);
      }
    }
  }

  /** The on term of the Fredkin gate. */
  method CswapOnTerm(i: int, j: int, k: int, n: nat) returns (M: Matrix)
    requires n >= 1
    ensures M == CswapOnOp(i, j, k, n)
    ensures 1 <= i <= n && 1 <= j <= n && 1 <= k <= n && i != j && i != k && j != k ==>
      forall r, c :: 0 <= r < Pow2(n) && 0 <= c < Pow2(n) ==>
        M[r][c] == if c == SwapBits(r, j, k, n) && Bit(r, i, n) == 1 then 1.0 else 0.0
  {
    var a := SecondTerm(i, j, Ket0Projector, n);
    var b := ThirdTerm(i, j, k, PauliX, n);
    var factor13 := Add(a, b);
    var c := SecondTerm(i, k, Ket0Projector, n);
    var d := ThirdTerm(i, k, j, PauliX, n);
    M := Mul(Mul(factor13, Add(c, d)), factor13);
    if 1 <= i <= n && 1 <= j <= n && 1 <= k <= n && i != j && i != k && j != k {
      forall r, c | 0 <= r < Pow2(n) && 0 <= c < Pow2(n)
        ensures M[r][c] == if c == SwapBits(r, j, k, n) && Bit(r, i, n) == 1 then 1.0 else 0.0
      {
        CswapOnRow(i, j, k, n, r);
      }
    }
  }

  /** The Fredkin matrix: qubits j and k exchanged when qubit i is 1. */
  method CswapMatrix(i: int, j: int, k: int, n: nat) returns (M: Matrix)
    requires n >= 1
    ensures M == CswapOp(i, j, k, n)
    ensures 1 <= i <= n && 1 <= j <= n && 1 <= k <= n && i != j && i != k && j != k ==>
      forall r, c :: 0 <= r < Pow2(n) && 0 <= c < Pow2(n) ==>
        M[r][c] == if c == CswapTarget(r, i, j, k, n) then 1.0 else 0.0
  {
    var off := PermutationMatrix(Ket0Projector, i, n);
    var on := CswapOnTerm(i, j, k, n);
    M := Add(off, on);
    if 1 <= i <= n && 1 <= j <= n && 1 <= k <= n && i != j && i != k && j != k {
      forall r, c | 0 <= r < Pow2(n) && 0 <= c < Pow2(n) {
        CswapOpEntry(i, j, k, n, r, c);
      }
    }
  }

  // ---------------------------------------------------------------------------
  // Entries

  /** |0><0| on qubit i keeps the rows whose qubit i is 0 and zeroes the others. */
  lemma Ket0ProjectorEntry(i: int, n: nat, r: nat, c: nat)
    requires 1 <= i <= n && r < Pow2(n) && c < Pow2(n)
    ensures PlacedOp(Ket0Projector, i, n)[r][c] == if Bit(r, i, n) == 0 && c == r then 1.0 else 0.0
  {
    PlacedOpEntry(Ket0Projector, i, n, r, c);
    SameIff(r, c, n, i);
  }

  /** X on qubit i: row r has its 1 in the column with qubit i inverted. */
  lemma NotMatrixEntry(i: int, n: nat, r: nat, c: nat)
    requires 1 <= i <= n && r < Pow2(n) && c < Pow2(n)
    ensures PlacedOp(PauliX, i, n)[r][c] == if c == Flip(r, i, n) then 1.0 else 0.0
  {
    PlacedOpEntry(PauliX, i, n, r, c);
    FlipIff(r, c, i, n);
  }

  /** Z on qubit i: diagonal, -1 where qubit i is 1 and 1 where it is 0. */
  lemma ZMatrixEntry(i: int, n: nat, r: nat, c: nat)
    requires 1 <= i <= n && r < Pow2(n) && c < Pow2(n)
    ensures PlacedOp(PauliZ, i, n)[r][c]
         == if c == r then (if Bit(r, i, n) == 1 then -1.0 else 1.0) else 0.0
  {
    PlacedOpEntry(PauliZ, i, n, r, c);
    SameIff(r, c, n, i);
  }

  /**
   * H on qubit i: row r has the diagonal entry +-1/sqrt 2 (negative when qubit
   * i of r is 1) and 1/sqrt 2 in the column with qubit i inverted.
   */
  lemma HadamardMatrixEntry(i: int, n: nat, r: nat, c: nat)
    requires 1 <= i <= n && r < Pow2(n) && c < Pow2(n)
    ensures PlacedOp(HadamardGate, i, n)[r][c]
         == if c == r then (if Bit(r, i, n) == 1 then -OneOverSqrt2 else OneOverSqrt2)
            else if c == Flip(r, i, n) then OneOverSqrt2 else 0.0
  {
    PlacedOpEntry(HadamardGate, i, n, r, c);
    SameIff(r, c, n, i);
    FlipIff(r, c, i, n);
  }

  /**
   * The projected operation leaves the rows whose qubit i is 0 as the
   * identity and applies U on qubit j to the rows whose qubit i is 1.
   */
  lemma ProjectedOpEntry(i: int, j: int, u: Op, n: nat, r: nat, c: nat)
    requires 1 <= i <= n && 1 <= j <= n && i != j && r < Pow2(n) && c < Pow2(n)
    ensures ProjectedOp(i, j, u, n)[r][c]
         == if Bit(r, i, n) == 0 then (if c == r then 1.0 else 0.0)
            else if SameBitsExcept(r, c, n, j) then u.At(Bit(r, j, n), Bit(c, j, n)) else 0.0
  {
    Ket0ProjectorEntry(i, n, r, c);
    ControlledTermEntry(i, j, u, n, r, c);
  }

  /** The controlled not matrix: row r has its 1 in the column CnotTarget(r). */
  lemma CnotMatrixEntry(i: int, j: int, n: nat, r: nat, c: nat)
    requires 1 <= i <= n && 1 <= j <= n && i != j && r < Pow2(n) && c < Pow2(n)
    ensures ProjectedOp(i, j, PauliX, n)[r][c] == if c == CnotTarget(r, i, j, n) then 1.0 else 0.0
  {
    ProjectedOpEntry(i, j, PauliX, n, r, c);
    FlipIff(r, c, j, n);
  }

  /** The Toffoli matrix: row r has its 1 in the column CcnotTarget(r). */
  lemma CcnotOpEntry(i: int, j: int, k: int, n: nat, r: nat, c: nat)
    requires 1 <= i <= n && 1 <= j <= n && 1 <= k <= n && i != j && i != k && j != k
    requires r < Pow2(n) && c < Pow2(n)
    ensures CcnotOp(i, j, k, n)[r][c] == if c == CcnotTarget(r, i, j, k, n) then 1.0 else 0.0
  {
    Ket0ProjectorEntry(i, n, r, c);
    ControlledTermEntry(i, j, Ket0Projector, n, r, c);
    DoubleControlledTermEntry(i, j, k, PauliX, n, r, c);
    SameIff(r, c, n, j);
    FlipIff(r, c, k, n);
  }

  /** Rows whose qubit i is 1 carry a controlled not from j to k; other rows are zero. */
  lemma ControlledCnotEntry(i: int, j: int, k: int, n: nat, r: nat, c: nat)
    requires 1 <= i <= n && 1 <= j <= n && 1 <= k <= n && i != j && i != k && j != k
    requires r < Pow2(n) && c < Pow2(n)
    ensures ControlledCnotOp(i, j, k, n)[r][c]
         == if Bit(r, i, n) == 1 && c == CnotTarget(r, j, k, n) then 1.0 else 0.0
  {
    ControlledTermEntry(i, j, Ket0Projector, n, r, c);
    DoubleControlledTermEntry(i, j, k, PauliX, n, r, c);
    SameIff(r, c, n, j);
    FlipIff(r, c, k, n);
  }

  /** Row r of the controlled not conditioned on qubit i, as a single-entry row. */
  lemma ControlledCnotRow(i: int, j: int, k: int, n: nat, r: nat)
    requires 1 <= i <= n && 1 <= j <= n && 1 <= k <= n && i != j && i != k && j != k
    requires r < Pow2(n)
    ensures CnotTarget(r, j, k, n) < Pow2(n)
    ensures SingleEntry(ControlledCnotOp(i, j, k, n)[r], CnotTarget(r, j, k, n),
                        if Bit(r, i, n) == 1 then 1.0 else 0.0)
  {
    CnotBits(r, j, k, n);
    forall c | 0 <= c < Pow2(n) {
      ControlledCnotEntry(i, j, k, n, r, c);
    }
  }

  /** Row r of the on term of the Fredkin gate has its only entry at SwapBits(r, j, k), 1 when qubit i of r is 1. */
  lemma CswapOnRow(i: int, j: int, k: int, n: nat, r: nat)
    requires 1 <= i <= n && 1 <= j <= n && 1 <= k <= n && i != j && i != k && j != k
    requires r < Pow2(n)
    ensures SwapBits(r, j, k, n) < Pow2(n)
    ensures SingleEntry(CswapOnOp(i, j, k, n)[r], SwapBits(r, j, k, n),
                        if Bit(r, i, n) == 1 then 1.0 else 0.0)
  {
    var F13 := ControlledCnotOp(i, j, k, n);
    var F2 := ControlledCnotOp(i, k, j, n);
    var w := if Bit(r, i, n) == 1 then 1.0 else 0.0;
    // first product: row r of F13, then row t1 of F2
    var t1 := CnotTarget(r, j, k, n);
    ControlledCnotRow(i, j, k, n, r);
    CnotBits(r, j, k, n);
    var t2 := CnotTarget(t1, k, j, n);
    ControlledCnotRow(i, k, j, n, t1);
    CnotBits(t1, k, j, n);
    MulSingle(F13, F2, r, t1, w);
    var P := Mul(F13, F2);
    assert SingleEntry(P[r], t2, w) by {
      forall c | 0 <= c < Pow2(n) ensures P[r][c] == if c == t2 then w else 0.0 {
        assert P[r][c] == w * F2[t1][c];
      }
    }
    // second product: row t2 of F13
    var t3 := CnotTarget(t2, j, k, n);
    ControlledCnotRow(i, j, k, n, t2);
    CnotBits(t2, j, k, n);
    MulSingle(P, F13, r, t2, w);
    ThreeCnotsSwap(r, j, k, n);
    SwapBitsBits(r, j, k, n);
    forall c | 0 <= c < Pow2(n) ensures CswapOnOp(i, j, k, n)[r][c] == if c == t3 then w else 0.0 {
      assert Mul(P, F13)[r][c] == w * F13[t2][c];
    }
  }

  /** The Fredkin matrix: row r has its 1 in the column CswapTarget(r). */
  lemma CswapOpEntry(i: int, j: int, k: int, n: nat, r: nat, c: nat)
    requires 1 <= i <= n && 1 <= j <= n && 1 <= k <= n && i != j && i != k && j != k
    requires r < Pow2(n) && c < Pow2(n)
    ensures CswapOp(i, j, k, n)[r][c] == if c == CswapTarget(r, i, j, k, n) then 1.0 else 0.0
  {
    Ket0ProjectorEntry(i, n, r, c);
    CswapOnRow(i, j, k, n, r);
  }
}
