/**
 * The driver's own examples, worked through on the model: small circuits on a
 * five-qubit register starting in |00000>, each taken one line at a time.
 */
module Scenarios {
  import opened Bits
  import opened Matrices
  import opened Operators
  import opened Measurement
  import opened Registers
  import opened Text
  import opened Readout
  import opened App

  /** A circuit of one line. */
  lemma RunOne(v: Vector, a: Instruction, r: real, n: nat)
    requires n >= 1 && |v| == Pow2(n)
    ensures Runnable([a], [r])
    ensures Run(v, [a], [r], n) == Step(v, a, r, n)
  {
    assert [a][..0] == [] && [r][..0] == [];
  }

  /** A circuit of three lines. */
  lemma RunThree(v: Vector, a: Instruction, b: Instruction, c: Instruction, r1: real, r2: real, r3: real, n: nat)
    requires n >= 1 && |v| == Pow2(n)
    ensures Runnable([a, b, c], [r1, r2, r3])
    ensures Run(v, [a, b, c], [r1, r2, r3], n) == Step(Step(Step(v, a, r1, n), b, r2, n), c, r3, n)
  {
    assert [a, b, c][..2] == [a, b] && [r1, r2, r3][..2] == [r1, r2];
    RunTwo(v, a, b, r1, r2, n);
  }

  // ---------------------------------------------------------------------------
  // Five qubits

  /** Qubits 1 and 2 of |00000>, and the indices with them inverted. */
  lemma IndicesOfZero()
    ensures Pow2(5) == 32
    ensures Bit(0, 1, 5) == 0 && Flip(0, 1, 5) == 16 && Bit(0, 2, 5) == 0 && Flip(0, 2, 5) == 8
  {
    BitIsPositional(0, 1, 5);
    FlipIsXor(0, 1, 5);
    BitIsPositional(0, 2, 5);
    FlipIsXor(0, 2, 5);
  }

  /** Qubits 1, 2 and 3 of |10000>, and the indices with them inverted. */
  lemma IndicesOfSixteen()
    ensures Bit(16, 1, 5) == 1 && Bit(16, 2, 5) == 0 && Bit(16, 3, 5) == 0
    ensures Flip(16, 1, 5) == 0 && Flip(16, 2, 5) == 24 && Flip(16, 3, 5) == 20
  {
    BitIsPositional(16, 1, 5);
    FlipIsXor(16, 1, 5);
    BitIsPositional(16, 2, 5);
    FlipIsXor(16, 2, 5);
    BitIsPositional(16, 3, 5);
    FlipIsXor(16, 3, 5);
  }

  /** Qubits 1, 2 and 3 of |11000>, and the indices with 2 or 3 inverted. */
  lemma IndicesOfTwentyFour()
    ensures Bit(24, 1, 5) == 1 && Bit(24, 2, 5) == 1 && Bit(24, 3, 5) == 0
    ensures Flip(24, 2, 5) == 16 && Flip(24, 3, 5) == 28
    ensures CcnotTarget(24, 1, 2, 3, 5) == 28 && CswapTarget(24, 1, 2, 3, 5) == 20
  {
    IndicesOfSixteen();
    BitIsPositional(24, 1, 5);
    BitIsPositional(24, 2, 5);
    FlipIsXor(24, 2, 5);
    BitIsPositional(24, 3, 5);
    FlipIsXor(24, 3, 5);
  }

  /** "not 1" (in either case) on |00000> gives |10000>. */
  lemma NotFirstStep(op: string, r: real)
    requires Lower(op) == "not"
    ensures Step(Basis(32, 0), [op, "1"], r, 5) == Basis(32, 16)
  {
    IndicesOfZero();
    OperandDecimal(1);
    assert Pow2(5) == 32 && Pow2(4) == 16;
    StepOnBasis(0, [op, "1"], r, 5);
  }

  /** "not 2" on |10000> gives |11000>. */
  lemma NotSecondStep(r: real)
    ensures Step(Basis(32, 16), ["not", "2"], r, 5) == Basis(32, 24)
  {
    IndicesOfSixteen();
    OperandDecimal(2);
    assert Lower("not") == "not";
    assert Pow2(5) == 32 && Pow2(3) == 8;
    StepOnBasis(16, ["not", "2"], r, 5);
  }

  /** "NOT 1" on |00000> gives |10000>. */
  lemma NotExample(r: real)
    ensures Runnable([["NOT", "1"]], [r])
    ensures Run(Basis(32, 0), [["NOT", "1"]], [r], 5) == Basis(32, 16)
  {
    assert Lower("NOT") == "not" && Pow2(5) == 32;
    RunOne(Basis(32, 0), ["NOT", "1"], r, 5);
    NotFirstStep("NOT", r);
  }

  /** "NOT 1" then "Z 1" on |00000> gives -|10000>. */
  lemma ZExample(r1: real, r2: real)
    ensures Runnable([["NOT", "1"], ["Z", "1"]], [r1, r2])
    ensures Run(Basis(32, 0), [["NOT", "1"], ["Z", "1"]], [r1, r2], 5)
         == seq(32, k => if k == 16 then -1.0 else 0.0)
  {
    assert Lower("NOT") == "not" && Pow2(5) == 32;
    var a, b := ["NOT", "1"], ["Z", "1"];
    RunTwo(Basis(32, 0), a, b, r1, r2, 5);
    NotFirstStep("NOT", r1);
    ZOnSixteen(r2);
  }

  /** "Z 1" on |10000> gives -|10000>. */
  lemma ZOnSixteen(r: real)
    ensures Step(Basis(32, 16), ["Z", "1"], r, 5) == seq(32, k => if k == 16 then -1.0 else 0.0)
  {
    IndicesOfSixteen();
    OperandDecimal(1);
    assert Lower("Z") == "z" && Pow2(5) == 32 && Pow2(4) == 16;
    var v := Basis(32, 16);
    StepOneQubit(v, ["Z", "1"], r, 5);
    var w := ZState(v, 1, 5);
    forall k | 0 <= k < 32 ensures w[k] == if k == 16 then -1.0 else 0.0 {
      if k != 16 {
        assert v[k] == 0.0;
      }
    }
  }

  /** "hadamard 5" on |00000> gives 1/sqrt 2 (|00000> + |00001>). */
  lemma HadamardExample(r: real)
    ensures Runnable([["hadamard", "5"]], [r])
    ensures Run(Basis(32, 0), [["hadamard", "5"]], [r], 5)
         == seq(32, k => if k == 0 || k == 1 then OneOverSqrt2 else 0.0)
  {
    var a := ["hadamard", "5"];
    var v := Basis(32, 0);
    assert Pow2(5) == 32;
    RunOne(v, a, r, 5);
    HadamardLastStep(r);
  }

  /** "hadamard 5" on |00000>, one line. */
  lemma HadamardLastStep(r: real)
    ensures Step(Basis(32, 0), ["hadamard", "5"], r, 5) == seq(32, k => if k == 0 || k == 1 then OneOverSqrt2 else 0.0)
  {
    OperandDecimal(5);
    assert Lower("hadamard") == "hadamard" && Pow2(5) == 32;
    StepOneQubit(Basis(32, 0), ["hadamard", "5"], r, 5);
    HadamardLastQubit();
  }

  /** Hadamard on qubit 5 of |00000>, snapped. */
  lemma HadamardLastQubit()
    ensures Snap(HadamardState(Basis(32, 0), 5, 5)) == seq(32, k => if k == 0 || k == 1 then OneOverSqrt2 else 0.0)
  {
    assert Pow2(5) == 32;
    var v := Basis(32, 0);
    var h := HadamardState(v, 5, 5);
    forall k | 0 <= k < 32 ensures h[k] == if k == 0 || k == 1 then OneOverSqrt2 else 0.0 {
      assert Flip(k, 5, 5) == if k % 2 == 0 then k + 1 else k - 1;
      assert Bit(k, 5, 5) == k % 2;
    }
    assert Snap(h) == h;
  }

  /** "not 1" then "cNot 1 2" on |00000> gives |11000>. */
  lemma CnotExample(r1: real, r2: real)
    ensures Runnable([["not", "1"], ["cNot", "1", "2"]], [r1, r2])
    ensures Run(Basis(32, 0), [["not", "1"], ["cNot", "1", "2"]], [r1, r2], 5) == Basis(32, 24)
  {
    assert Lower("not") == "not" && Pow2(5) == 32;
    var a, b := ["not", "1"], ["cNot", "1", "2"];
    RunTwo(Basis(32, 0), a, b, r1, r2, 5);
    NotFirstStep("not", r1);
    CnotStep(r2);
  }

  /** "cNot 1 2" on |10000> gives |11000>. */
  lemma CnotStep(r: real)
    ensures Step(Basis(32, 16), ["cNot", "1", "2"], r, 5) == Basis(32, 24)
  {
    IndicesOfSixteen();
    OperandDecimal(1);
    OperandDecimal(2);
    assert Lower("cNot") == "cnot" && Pow2(5) == 32 && Pow2(3) == 8;
    assert CnotTarget(16, 1, 2, 5) == 24;
    StepOnBasis(16, ["cNot", "1", "2"], r, 5);
  }

  /** "not 1" then "swap 1 2" on |00000> gives |01000>. */
  lemma SwapExample(r1: real, r2: real)
    ensures Runnable([["not", "1"], ["swap", "1", "2"]], [r1, r2])
    ensures Run(Basis(32, 0), [["not", "1"], ["swap", "1", "2"]], [r1, r2], 5) == Basis(32, 8)
  {
    assert Lower("not") == "not" && Pow2(5) == 32;
    var a, b := ["not", "1"], ["swap", "1", "2"];
    RunTwo(Basis(32, 0), a, b, r1, r2, 5);
    NotFirstStep("not", r1);
    SwapStep(r2);
  }

  /** "swap 1 2" on |10000> gives |01000>. */
  lemma SwapStep(r: real)
    ensures Step(Basis(32, 16), ["swap", "1", "2"], r, 5) == Basis(32, 8)
  {
    IndicesOfZero();
    IndicesOfSixteen();
    OperandDecimal(1);
    OperandDecimal(2);
    assert Lower("swap") == "swap" && Pow2(5) == 32 && Pow2(4) == 16 && Pow2(3) == 8;
    assert SwapBits(16, 1, 2, 5) == Flip(Flip(16, 1, 5), 2, 5) == 8;
    StepOnBasis(16, ["swap", "1", "2"], r, 5);
  }

  /** "not 1", "not 2", "ccnot 1 2 3" on |00000> gives |11100>. */
  lemma CcnotExample(r1: real, r2: real, r3: real)
    ensures Runnable([["not", "1"], ["not", "2"], ["ccnot", "1", "2", "3"]], [r1, r2, r3])
    ensures Run(Basis(32, 0), [["not", "1"], ["not", "2"], ["ccnot", "1", "2", "3"]], [r1, r2, r3], 5)
         == Basis(32, 28)
  {
    assert Lower("not") == "not" && Pow2(5) == 32;
    var a, b, c := ["not", "1"], ["not", "2"], ["ccnot", "1", "2", "3"];
    RunThree(Basis(32, 0), a, b, c, r1, r2, r3, 5);
    NotFirstStep("not", r1);
    NotSecondStep(r2);
    CcnotStep(r3);
  }

  /** "ccnot 1 2 3" on |11000> gives |11100>. */
  lemma CcnotStep(r: real)
    ensures Step(Basis(32, 24), ["ccnot", "1", "2", "3"], r, 5) == Basis(32, 28)
  {
    IndicesOfTwentyFour();
    OperandDecimal(1);
    OperandDecimal(2);
    OperandDecimal(3);
    assert Lower("ccnot") == "ccnot" && Pow2(5) == 32 && Pow2(2) == 4;
    StepOnBasis(24, ["ccnot", "1", "2", "3"], r, 5);
  }

  /** "not 1", "not 2", "cswap 1 2 3" on |00000> gives |10100>. */
  lemma CswapExample(r1: real, r2: real, r3: real)
    ensures Runnable([["not", "1"], ["not", "2"], ["cswap", "1", "2", "3"]], [r1, r2, r3])
    ensures Run(Basis(32, 0), [["not", "1"], ["not", "2"], ["cswap", "1", "2", "3"]], [r1, r2, r3], 5)
         == Basis(32, 20)
  {
    assert Lower("not") == "not" && Pow2(5) == 32;
    var a, b, c := ["not", "1"], ["not", "2"], ["cswap", "1", "2", "3"];
    RunThree(Basis(32, 0), a, b, c, r1, r2, r3, 5);
    NotFirstStep("not", r1);
    NotSecondStep(r2);
    CswapStep(r3);
  }

  /** "cswap 1 2 3" on |11000> gives |10100>. */
  lemma CswapStep(r: real)
    ensures Step(Basis(32, 24), ["cswap", "1", "2", "3"], r, 5) == Basis(32, 20)
  {
    IndicesOfTwentyFour();
    OperandDecimal(1);
    OperandDecimal(2);
    OperandDecimal(3);
    assert Lower("cswap") == "cswap" && Pow2(5) == 32 && Pow2(3) == 8 && Pow2(2) == 4;
    StepOnBasis(24, ["cswap", "1", "2", "3"], r, 5);
  }
}
