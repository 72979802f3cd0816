/**
 * The one-qubit constants of the register engine and the three builders that
 * lift them to 2^n x 2^n operators by a chain of Kronecker products, one
 * factor per qubit in the order 1..n:
 *
 *   - `PermutationMatrix(op, i, n)`: op on qubit i, the identity elsewhere;
 *   - `SecondTerm(i, j, U, n)`: |1><1| on qubit i, U on qubit j;
 *   - `ThirdTerm(i, j, k, U, n)`: |1><1| on qubits i and j, U on qubit k.
 *
 * Each builder is a loop proved equal to a specification function
 * (`PlacedOp`, `ControlledTerm`, `DoubleControlledTerm`), and the entries of
 * those functions are given in closed form by the lemmas at the end.
 */
module Operators {
  import opened Bits
  import opened Matrices
  import opened Kronecker

  /** Identity on one qubit. */
  const Identity := Op(1.0, 0.0, 0.0, 1.0)

  /** Pauli X (not). */
  const PauliX := Op(0.0, 1.0, 1.0, 0.0)

  /** Pauli Z (phase flip). */
  const PauliZ := Op(1.0, 0.0, 0.0, -1.0)

  /** |0><0|, the Kronecker product of |0> with its transpose. */
  const Ket0Projector := Op(1.0, 0.0, 0.0, 0.0)

  /** |1><1|, the Kronecker product of |1> with its transpose. */
  const Ket1Projector := Op(0.0, 0.0, 0.0, 1.0)

  /** 1.0 / sqrt(2) as the engine computes it: the double nearest to 1/sqrt 2, written out exactly. */
  const OneOverSqrt2: real := 0.707106781186547461715008466853760182857513427734375

  /** Hadamard, with entries +-OneOverSqrt2. */
  const HadamardGate := Op(OneOverSqrt2, OneOverSqrt2, OneOverSqrt2, -OneOverSqrt2)

  /** 1e-14 as the engine holds it: the double nearest to 1e-14, written out exactly. */
  const ErrThresh: real := 0.000000000000009999999999999999988193093545598986971343290729163921781719182035885751247406005859375

  // ---------------------------------------------------------------------------
  // Factors, qubit by qubit

  /** Factor of qubit q in the placement of op on qubit i. */
  function PlaceFactor(op: Op, i: int, q: int): Op
  {
    if q == i then op else Identity
  }

  /** Factor of qubit q in the controlled term: U on j wins over |1><1| on i. */
  function ControlledFactor(i: int, j: int, u: Op, q: int): Op
  {
    if q == j then u else if q == i then Ket1Projector else Identity
  }

  /** Factor of qubit q in the doubly controlled term: U on k wins over |1><1| on i and j. */
  function DoubleControlledFactor(i: int, j: int, k: int, u: Op, q: int): Op
  {
    if q == k then u else if q == i || q == j then Ket1Projector else Identity
  }

  function PlaceFactors(op: Op, i: int, n: nat): (fs: seq<Op>)
    ensures |fs| == n && forall q :: 1 <= q <= n ==> fs[q - 1] == PlaceFactor(op, i, q)
  {
    seq(n, p => PlaceFactor(op, i, p + 1))
  }

  function ControlledFactors(i: int, j: int, u: Op, n: nat): (fs: seq<Op>)
    ensures |fs| == n && forall q :: 1 <= q <= n ==> fs[q - 1] == ControlledFactor(i, j, u, q)
  {
    seq(n, p => ControlledFactor(i, j, u, p + 1))
  }

  function DoubleControlledFactors(i: int, j: int, k: int, u: Op, n: nat): (fs: seq<Op>)
    ensures |fs| == n && forall q :: 1 <= q <= n ==> fs[q - 1] == DoubleControlledFactor(i, j, k, u, q)
  {
    seq(n, p => DoubleControlledFactor(i, j, k, u, p + 1))
  }

  // ---------------------------------------------------------------------------
  // Specification functions

  /** op on qubit i of an n-qubit register, the identity on every other qubit. */
  function PlacedOp(op: Op, i: int, n: nat): (M: Matrix)
    requires n >= 1
    ensures IsSquare(M, Pow2(n))
  {
    KronChain(PlaceFactors(op, i, n))
  }

  /** |1><1| on qubit i and U on qubit j. */
  function ControlledTerm(i: int, j: int, u: Op, n: nat): (M: Matrix)
    requires n >= 1
    ensures IsSquare(M, Pow2(n))
  {
    KronChain(ControlledFactors(i, j, u, n))
  }

  /** |1><1| on qubits i and j and U on qubit k. */
  function DoubleControlledTerm(i: int, j: int, k: int, u: Op, n: nat): (M: Matrix)
    requires n >= 1
    ensures IsSquare(M, Pow2(n))
  {
    KronChain(DoubleControlledFactors(i, j, k, u, n))
  }

  // ---------------------------------------------------------------------------
  // Builders

  /** Kronecker product, qubit by qubit, of op on qubit i and the identity elsewhere. */
  method PermutationMatrix(op: Op, i: int, n: nat) returns (p: Matrix)
    requires n >= 1
    ensures p == PlacedOp(op, i, n)
  {
    ghost var fs := PlaceFactors(op, i, n);
    p := (if i == 1 then op else Identity).AsMatrix();
    var j := 2;
    while j <= n
      invariant 2 <= j <= n + 1
      invariant p == Chain(fs, j - 1)
    {
      p := Kron(p, if i == j then op else Identity);
      j := j + 1;
    }
  }

  /** Kronecker product, qubit by qubit, of |1><1| on qubit i and U on qubit j. */
  method SecondTerm(i: int, j: int, u: Op, n: nat) returns (p: Matrix)
    requires n >= 1
    ensures p == ControlledTerm(i, j, u, n)
  {
    ghost var fs := ControlledFactors(i, j, u, n);
    var first := if i == 1 then Ket1Projector else Identity;
    first := if j == 1 then u else first;
    p := first.AsMatrix();
    var k := 2;
    while k <= n
      invariant 2 <= k <= n + 1
      invariant p == Chain(fs, k - 1)
    {
      var next := if i == k then Ket1Projector else Identity;
      next := if j == k then u else next;
      p := Kron(p, next);
      k := k + 1;
    }
  }

  /** Kronecker product, qubit by qubit, of |1><1| on qubits i and j and U on qubit k. */
  method ThirdTerm(i: int, j: int, k: int, u: Op, n: nat) returns (p: Matrix)
    requires n >= 1
    ensures p == DoubleControlledTerm(i, j, k, u, n)
  {
    ghost var fs := DoubleControlledFactors(i, j, k, u, n);
    var first := if i == 1 || j == 1 then Ket1Projector else Identity;
    first := if k == 1 then u else first;
    p := first.AsMatrix();
    var m := 2;
    while m <= n
      invariant 2 <= m <= n + 1
      invariant p == Chain(fs, m - 1)
    {
      var next := if i == m || j == m then Ket1Projector else Identity;
      next := if k == m then u else next;
      p := Kron(p, next);
      m := m + 1;
    }
  }

  // ---------------------------------------------------------------------------
  // Entries in closed form

  /**
   * A chain whose factors are all the identity but the one of qubit q: entry
   * (r, c) is the entry of that factor at the bits of qubit q, provided r and
   * c agree on every other qubit, and 0 otherwise.
   */
  lemma {:induction false} OneFactorEntry(fs: seq<Op>, n: nat, q: int, r: nat, c: nat)
    requires 1 <= q <= n == |fs| && r < Pow2(n) && c < Pow2(n)
    requires forall p :: 0 <= p < n && p != q - 1 ==> fs[p] == Identity
    ensures KronChain(fs)[r][c]
         == if SameBitsExcept(r, c, n, q) then fs[q - 1].At(Bit(r, q, n), Bit(c, q, n)) else 0.0
  {
    ChainEntry(fs, n, r, c);
    if SameBitsExcept(r, c, n, q) {
      forall p | 1 <= p <= n && p != q ensures FactorEntry(fs, r, c, p, n) == 1.0 {
        assert Bit(r, p, n) == Bit(c, p, n) && fs[p - 1] == Identity;
      }
      ProductOnlyAt(fs, r, c, n, n, q);
    } else {
      var p :| 1 <= p <= n && p != q && Bit(r, p, n) != Bit(c, p, n);
      assert fs[p - 1] == Identity;
      assert FactorEntry(fs, r, c, p, n) == 0.0;
      ProductZero(fs, r, c, n, n, p);
    }
  }

  /**
   * Replacing the identity on qubit s by |1><1| keeps the product when qubit
   * s of the row is 1 and makes it 0 otherwise.
   */
  lemma {:induction false} ProjectorProduct(fs: seq<Op>, gs: seq<Op>, s: int, r: nat, c: nat, m: nat, n: nat)
    requires m <= n == |fs| == |gs| && 1 <= s <= n
    requires fs[s - 1] == Ket1Projector && gs[s - 1] == Identity
    requires forall p :: 0 <= p < n && p != s - 1 ==> fs[p] == gs[p]
    ensures EntryProduct(fs, r, c, m, n)
         == if s <= m && Bit(r, s, n) == 0 then 0.0 else EntryProduct(gs, r, c, m, n)
  {
    if m > 0 {
      ProjectorProduct(fs, gs, s, r, c, m - 1, n);
      var e, f := EntryProduct(fs, r, c, m - 1, n), EntryProduct(gs, r, c, m - 1, n);
      assert EntryProduct(fs, r, c, m, n) == e * FactorEntry(fs, r, c, m, n);
      assert EntryProduct(gs, r, c, m, n) == f * FactorEntry(gs, r, c, m, n);
      if m == s {
        if Bit(r, s, n) == 0 {
          assert FactorEntry(fs, r, c, m, n) == 0.0;
        } else {
          assert FactorEntry(fs, r, c, m, n) == FactorEntry(gs, r, c, m, n);
        }
      } else {
        assert FactorEntry(fs, r, c, m, n) == FactorEntry(gs, r, c, m, n);
      }
    }
  }

  /** The chain form of `ProjectorProduct`. */
  lemma {:induction false} ProjectorEntry(fs: seq<Op>, gs: seq<Op>, s: int, r: nat, c: nat)
    requires 1 <= |fs| == |gs| && 1 <= s <= |fs| && r < Pow2(|fs|) && c < Pow2(|fs|)
    requires fs[s - 1] == Ket1Projector && gs[s - 1] == Identity
    requires forall p :: 0 <= p < |fs| && p != s - 1 ==> fs[p] == gs[p]
    ensures KronChain(fs)[r][c] == if Bit(r, s, |fs|) == 0 then 0.0 else KronChain(gs)[r][c]
  {
    var n := |fs|;
    ChainEntry(fs, n, r, c);
    ChainEntry(gs, n, r, c);
    ProjectorProduct(fs, gs, s, r, c, n, n);
  }

  /** Entries of op placed on qubit i: op acts on qubit i, every other qubit is kept. */
  lemma PlacedOpEntry(op: Op, i: int, n: nat, r: nat, c: nat)
    requires 1 <= i <= n && r < Pow2(n) && c < Pow2(n)
    ensures PlacedOp(op, i, n)[r][c]
         == if SameBitsExcept(r, c, n, i) then op.At(Bit(r, i, n), Bit(c, i, n)) else 0.0
  {
    OneFactorEntry(PlaceFactors(op, i, n), n, i, r, c);
  }

  /**
   * On one qubit the placed operator is op itself; on two qubits it is
   * op (x) I for qubit 1 and I (x) op for qubit 2.
   */
  lemma PlacedOpSmall(op: Op)
    ensures PlacedOp(op, 1, 1) == op.AsMatrix()
    ensures PlacedOp(op, 1, 2) == Kron(op.AsMatrix(), Identity)
    ensures PlacedOp(op, 2, 2) == Kron(Identity.AsMatrix(), op)
  {
    assert PlaceFactors(op, 1, 1) == [op];
    var fs, gs := PlaceFactors(op, 1, 2), PlaceFactors(op, 2, 2);
    assert fs == [op, Identity] && gs == [Identity, op];
    assert Chain(fs, 1) == op.AsMatrix() && Chain(gs, 1) == Identity.AsMatrix();
    assert KronChain(fs) == Kron(Chain(fs, 1), Identity);
    assert KronChain(gs) == Kron(Chain(gs, 1), op);
  }

  /** A qubit index outside 1..n places nothing: the result is the identity matrix. */
  lemma PlacedOpOutside(op: Op, i: int, n: nat, r: nat, c: nat)
    requires n >= 1 && (i < 1 || n < i) && r < Pow2(n) && c < Pow2(n)
    ensures PlacedOp(op, i, n)[r][c] == if r == c then 1.0 else 0.0
  {
    OneFactorEntry(PlaceFactors(op, i, n), n, 1, r, c);
    SameIff(r, c, n, 1);
  }

  /**
   * Entries of the controlled term: U acts on qubit j of the rows whose qubit
   * i is 1, every other qubit is kept, and rows whose qubit i is 0 are zero.
   */
  lemma ControlledTermEntry(i: int, j: int, u: Op, n: nat, r: nat, c: nat)
    requires 1 <= i <= n && 1 <= j <= n && i != j && r < Pow2(n) && c < Pow2(n)
    ensures ControlledTerm(i, j, u, n)[r][c]
         == if Bit(r, i, n) == 1 && SameBitsExcept(r, c, n, j)
            then u.At(Bit(r, j, n), Bit(c, j, n)) else 0.0
  {
    var fs := ControlledFactors(i, j, u, n);
    var gs := PlaceFactors(u, j, n);
    ProjectorEntry(fs, gs, i, r, c);
    PlacedOpEntry(u, j, n, r, c);
  }

  /**
   * Entries of the doubly controlled term: U acts on qubit k of the rows whose
   * qubits i and j are 1, every other qubit is kept, and other rows are zero.
   */
  lemma DoubleControlledTermEntry(i: int, j: int, k: int, u: Op, n: nat, r: nat, c: nat)
    requires 1 <= i <= n && 1 <= j <= n && 1 <= k <= n && i != j && i != k && j != k
    requires r < Pow2(n) && c < Pow2(n)
    ensures DoubleControlledTerm(i, j, k, u, n)[r][c]
         == if Bit(r, i, n) == 1 && Bit(r, j, n) == 1 && SameBitsExcept(r, c, n, k)
            then u.At(Bit(r, k, n), Bit(c, k, n)) else 0.0
  {
    var fs := DoubleControlledFactors(i, j, k, u, n);
    var gs := ControlledFactors(j, k, u, n);
    ProjectorEntry(fs, gs, i, r, c);
    ControlledTermEntry(j, k, u, n, r, c);
  }
}
