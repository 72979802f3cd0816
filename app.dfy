/**
 * The circuit driver: a circuit is text, one instruction per line, each line a
 * space-separated opcode followed by its operands (qubit positions counted
 * from 1). Simulating it applies, line by line, the register operation the
 * opcode names, matched without regard to the case of ASCII letters; a line
 * whose opcode names no operation leaves the register as it is.
 */
module App {
  import opened Bits
  import opened Matrices
  import opened Operators
  import opened Gates
  import opened Measurement
  import opened Registers
  import opened Text
  import Readout

  /** One line of a circuit: the opcode, then the operands; splitting a line always gives a token. */
  type Instruction = s: seq<string> | |s| >= 1 witness [""]
  type Circuit = seq<Instruction>

  datatype Option<T> = None | Some(value: T)

  // ---------------------------------------------------------------------------
  // Reading a circuit

  /** The text cut into lines at '\n', and every line cut into tokens at ' '. */
  function Tokenize(text: string): (c: Circuit)
    ensures |c| >= 1
  {
    var lines := Split(text, '\n');
    seq(|lines|, k => if 0 <= k < |lines| then Split(lines[k], ' ') else [""])
  }

  /** The inverse of Tokenize: tokens joined by ' ', lines joined by '\n'. */
  function Untokenize(c: Circuit): string
  {
    Join(seq(|c|, k => if 0 <= k < |c| then Join(c[k], " ") else ""), "\n")
  }

  /** A circuit has a line, and no token holds ' ' or '\n'. */
  predicate WellFormed(c: Circuit)
  {
    |c| >= 1 &&
    forall k :: 0 <= k < |c| ==>
      forall t :: 0 <= t < |c[k]| ==> ' ' !in c[k][t] && '\n' !in c[k][t]
  }

  /** Reading a circuit loses nothing: putting the tokens back together gives the text. */
  lemma TokenizeRoundTrip(text: string)
    ensures Untokenize(Tokenize(text)) == text
  {
    var lines := Split(text, '\n');
    var c := Tokenize(text);
    var joined := seq(|c|, k => if 0 <= k < |c| then Join(c[k], " ") else "");
    forall k | 0 <= k < |lines| ensures joined[k] == lines[k] {
      JoinSplit(lines[k], ' ');
      assert [' '] == " ";
    }
    assert joined == lines;
    JoinSplit(text, '\n');
    assert ['\n'] == "\n";
  }

  /** Every tokenized text is well formed. */
  lemma TokenizeWellFormed(text: string)
    ensures WellFormed(Tokenize(text))
  {
    var lines := Split(text, '\n');
    var c := Tokenize(text);
    SplitAvoidsSeparator(text, '\n');
    forall k | 0 <= k < |c| ensures forall t :: 0 <= t < |c[k]| ==> ' ' !in c[k][t] && '\n' !in c[k][t] {
      SplitAvoidsSeparator(lines[k], ' ');
      forall t | 0 <= t < |c[k]| ensures '\n' !in c[k][t] {
        SplitPieceAvoids(lines[k], ' ', '\n', t);
      }
    }
  }

  /** A character absent from s is absent from every piece of its split. */
  lemma {:induction false} SplitPieceAvoids(s: string, sep: char, x: char, t: nat)
    requires x !in s && t < |Split(s, sep)|
    ensures x !in Split(s, sep)[t]
    decreases |s|
  {
    if |s| > 0 {
      var rest := Split(s[1..], sep);
      assert forall m :: 0 <= m < |s| - 1 ==> s[1..][m] == s[m + 1];
      if s[0] == sep {
        if t > 0 {
          SplitPieceAvoids(s[1..], sep, x, t - 1);
        }
      } else if t == 0 {
        SplitPieceAvoids(s[1..], sep, x, 0);
        assert s[0] in s;
      } else {
        SplitPieceAvoids(s[1..], sep, x, t);
      }
    }
  }

  /** A character in neither the parts nor the separator is not in their join. */
  lemma {:induction false} JoinAvoids(parts: seq<string>, sep: string, x: char)
    requires x !in sep && forall t :: 0 <= t < |parts| ==> x !in parts[t]
    ensures x !in Join(parts, sep)
    decreases |parts|
  {
    if |parts| > 1 {
      JoinAvoids(parts[1..], sep, x);
    }
  }

  /** Writing out a well-formed circuit and reading it back gives the same circuit. */
  lemma UntokenizeRoundTrip(c: Circuit)
    requires WellFormed(c)
    ensures Tokenize(Untokenize(c)) == c
  {
    var joined := seq(|c|, k => if 0 <= k < |c| then Join(c[k], " ") else "");
    forall k | 0 <= k < |c| ensures '\n' !in joined[k] {
      JoinAvoids(c[k], " ", '\n');
    }
    assert ['\n'] == "\n" && [' '] == " ";
    SplitJoin(joined, '\n');
    var d := Tokenize(Untokenize(c));
    forall k | 0 <= k < |c| ensures d[k] == c[k] {
      SplitJoin(c[k], ' ');
    }
  }

  /** The example of the driver's own tests: three lines, of two, one and three tokens. */
  lemma TokenizeExample()
    ensures Tokenize("some pile\nof\ntokens to parse") == [["some", "pile"], ["of"], ["tokens", "to", "parse"]]
  {
    var c := [["some", "pile"], ["of"], ["tokens", "to", "parse"]];
    assert WellFormed(c) by {
      assert forall t :: 0 <= t < |c[0]| ==> ' ' !in c[0][t] && '\n' !in c[0][t];
      assert forall t :: 0 <= t < |c[2]| ==> ' ' !in c[2][t] && '\n' !in c[2][t];
    }
    UntokenizeRoundTrip(c);
    ExampleText();
  }

  /** The example circuit written out. */
  lemma ExampleText()
    ensures Untokenize([["some", "pile"], ["of"], ["tokens", "to", "parse"]]) == "some pile\nof\ntokens to parse"
  {
    var c := [["some", "pile"], ["of"], ["tokens", "to", "parse"]];
    ExampleLines();
    var joined := seq(|c|, k => if 0 <= k < |c| then Join(c[k], " ") else "");
    assert joined == ["some pile", "of", "tokens to parse"];
    JoinThree("some pile", "of", "tokens to parse", "\n");
    ExampleJoined();
  }

  /** The lines of the example, each written out. */
  lemma ExampleLines()
    ensures Join(["some", "pile"], " ") == "some pile"
    ensures Join(["of"], " ") == "of"
    ensures Join(["tokens", "to", "parse"], " ") == "tokens to parse"
  {
    JoinTwo("some", "pile", " ");
    JoinThree("tokens", "to", "parse", " ");
    assert "some" + " " + "pile" == "some pile";
    assert "tokens" + (" " + ("to" + (" " + "parse"))) == "tokens to parse";
  }

  lemma ExampleJoined()
    ensures "some pile" + ("\n" + ("of" + ("\n" + "tokens to parse"))) == "some pile\nof\ntokens to parse"
  {
  }

  lemma JoinTwo(a: string, b: string, sep: string)
    ensures Join([a, b], sep) == a + sep + b
  {
    assert [a, b][1..] == [b];
  }

  lemma JoinThree(a: string, b: string, c: string, sep: string)
    ensures Join([a, b, c], sep) == a + (sep + (b + (sep + c)))
  {
    assert [a, b, c][1..] == [b, c] && [b, c][1..] == [c];
    assert Join([b, c], sep) == b + sep + c == b + (sep + c);
    assert Join([a, b, c], sep) == a + sep + Join([b, c], sep);
  }

  // ---------------------------------------------------------------------------
  // One instruction

  /** The opcode, with its ASCII capitals made small. */
  function Opcode(instr: Instruction): string
  {
    Lower(instr[0])
  }

  /** Operand k as a qubit position; a missing operand matches no qubit. */
  function Arg(instr: Instruction, k: nat): int
  {
    if k < |instr| then Operand(instr[k]) else 0
  }

  /**
   * The register state after one instruction, with r the draw a measurement
   * takes. Every gate is the product of its matrix with the state; swap is
   * three controlled NOTs; Hadamard snaps amplitudes near 1 to 1.
   */
  function Step(v: Vector, instr: Instruction, r: real, n: nat): (w: Vector)
    requires n >= 1 && |v| == Pow2(n)
    ensures |w| == |v|
  {
    var op, i, j, k := Opcode(instr), Arg(instr, 1), Arg(instr, 2), Arg(instr, 3);
    if op == "not" then MatVec(PlacedOp(PauliX, i, n), v)
    else if op == "z" then MatVec(PlacedOp(PauliZ, i, n), v)
    else if op == "hadamard" then Snap(MatVec(PlacedOp(HadamardGate, i, n), v))
    else if op == "cnot" then MatVec(ProjectedOp(i, j, PauliX, n), v)
    else if op == "swap" then
      MatVec(ProjectedOp(i, j, PauliX, n), MatVec(ProjectedOp(j, i, PauliX, n), MatVec(ProjectedOp(i, j, PauliX, n), v)))
    else if op == "ccnot" then MatVec(CcnotOp(i, j, k, n), v)
    else if op == "cswap" then MatVec(CswapOp(i, j, k, n), v)
    else if op == "measure" then Collapse(v, r)
    else v
  }

  /** The opcodes the driver knows. */
  const Opcodes: set<string> := {"not", "z", "hadamard", "cnot", "swap", "ccnot", "cswap", "measure"}

  /** A line whose opcode the driver does not know, an empty line among them, changes nothing. */
  lemma UnknownOpcode(v: Vector, instr: Instruction, r: real, n: nat)
    requires n >= 1 && |v| == Pow2(n) && Opcode(instr) !in Opcodes
    ensures Step(v, instr, r, n) == v
  {
  }

  /** Only a measurement uses the draw. */
  lemma DrawOnlyMeasures(v: Vector, instr: Instruction, r1: real, r2: real, n: nat)
    requires n >= 1 && |v| == Pow2(n) && Opcode(instr) != "measure"
    ensures Step(v, instr, r1, n) == Step(v, instr, r2, n)
  {
  }

  /** Opcodes are matched whatever the case of their letters. */
  lemma CaseInsensitive(v: Vector, instr: Instruction, r: real, n: nat)
    requires n >= 1 && |v| == Pow2(n)
    ensures Step(v, [Lower(instr[0])] + instr[1..], r, n) == Step(v, instr, r, n)
  {
    var lowered := [Lower(instr[0])] + instr[1..];
    LowerIsLower(instr[0]);
    assert Opcode(lowered) == Opcode(instr);
    assert forall k :: 1 <= k < |instr| ==> lowered[k] == instr[k];
    assert Arg(lowered, 1) == Arg(instr, 1) && Arg(lowered, 2) == Arg(instr, 2) && Arg(lowered, 3) == Arg(instr, 3);
  }

  /**
   * What each known instruction does to the amplitudes, for operands that are
   * distinct qubit positions of the register.
   */
  lemma StepOneQubit(v: Vector, instr: Instruction, r: real, n: nat)
    requires n >= 1 && |v| == Pow2(n)
    ensures var op, i := Opcode(instr), Arg(instr, 1);
      1 <= i <= n ==>
        (op == "not" ==> Step(v, instr, r, n) == NotState(v, i, n)) &&
        (op == "z" ==> Step(v, instr, r, n) == ZState(v, i, n)) &&
        (op == "hadamard" ==> Step(v, instr, r, n) == Snap(HadamardState(v, i, n)))
    ensures Opcode(instr) == "measure" ==> Step(v, instr, r, n) == Collapse(v, r)
  {
    var op, i := Opcode(instr), Arg(instr, 1);
    if 1 <= i <= n {
      if op == "not" {
        NotAction(v, i, n);
      } else if op == "z" {
        ZAction(v, i, n);
      } else if op == "hadamard" {
        HadamardAction(v, i, n);
      }
    }
  }

  /** An operand that is no qubit position makes a one-qubit gate leave the state as it is. */
  lemma StepOutOfRange(v: Vector, instr: Instruction, r: real, n: nat)
    requires n >= 1 && |v| == Pow2(n)
    requires !(1 <= Arg(instr, 1) <= n)
    ensures Opcode(instr) in {"not", "z"} ==> Step(v, instr, r, n) == v
    ensures Opcode(instr) == "hadamard" ==> Step(v, instr, r, n) == Snap(v)
  {
    var op, i := Opcode(instr), Arg(instr, 1);
    if op == "not" {
      OutOfRangeAction(PauliX, i, n, v);
    } else if op == "z" {
      OutOfRangeAction(PauliZ, i, n, v);
    } else if op == "hadamard" {
      OutOfRangeAction(HadamardGate, i, n, v);
    }
  }

  /** Two-qubit instructions on distinct qubit positions. */
  lemma StepTwoQubits(v: Vector, instr: Instruction, r: real, n: nat)
    requires n >= 1 && |v| == Pow2(n)
    ensures var op, i, j := Opcode(instr), Arg(instr, 1), Arg(instr, 2);
      1 <= i <= n && 1 <= j <= n && i != j ==>
        (op == "cnot" ==> Step(v, instr, r, n) == CnotState(v, i, j, n)) &&
        (op == "swap" ==> Step(v, instr, r, n) == SwapState(v, i, j, n))
  {
    var op, i, j := Opcode(instr), Arg(instr, 1), Arg(instr, 2);
    if 1 <= i <= n && 1 <= j <= n && i != j {
      if op == "cnot" {
        CnotAction(v, i, j, n);
      } else if op == "swap" {
        var w1 := MatVec(ProjectedOp(i, j, PauliX, n), v);
        CnotAction(v, i, j, n);
        var w2 := MatVec(ProjectedOp(j, i, PauliX, n), w1);
        CnotAction(w1, j, i, n);
        CnotAction(w2, i, j, n);
        ThreeCnotsAreSwap(v, i, j, n);
      }
    }
  }

  /** Three-qubit instructions on distinct qubit positions. */
  lemma StepThreeQubits(v: Vector, instr: Instruction, r: real, n: nat)
    requires n >= 1 && |v| == Pow2(n)
    ensures var op, i, j, k := Opcode(instr), Arg(instr, 1), Arg(instr, 2), Arg(instr, 3);
      1 <= i <= n && 1 <= j <= n && 1 <= k <= n && i != j && i != k && j != k ==>
        (op == "ccnot" ==> Step(v, instr, r, n) == CcnotState(v, i, j, k, n)) &&
        (op == "cswap" ==> Step(v, instr, r, n) == CswapState(v, i, j, k, n))
  {
    var op, i, j, k := Opcode(instr), Arg(instr, 1), Arg(instr, 2), Arg(instr, 3);
    if 1 <= i <= n && 1 <= j <= n && 1 <= k <= n && i != j && i != k && j != k {
      if op == "ccnot" {
        CcnotAction(v, i, j, k, n);
      } else if op == "cswap" {
        CswapAction(v, i, j, k, n);
      }
    }
  }

  /**
   * On a basis state, every permutation gate with distinct in-range operands
   * gives the basis state of the permuted index.
   */
  lemma StepOnBasis(b: nat, instr: Instruction, r: real, n: nat)
    requires n >= 1 && b < Pow2(n)
    ensures var op, i, j, k, v := Opcode(instr), Arg(instr, 1), Arg(instr, 2), Arg(instr, 3), Basis(Pow2(n), b);
      (op == "not" && 1 <= i <= n ==> Step(v, instr, r, n) == Basis(Pow2(n), Flip(b, i, n))) &&
      (op in {"cnot", "swap"} && 1 <= i <= n && 1 <= j <= n && i != j ==>
        Step(v, instr, r, n) == Basis(Pow2(n), if op == "cnot" then CnotTarget(b, i, j, n) else SwapBits(b, i, j, n))) &&
      (op in {"ccnot", "cswap"} && 1 <= i <= n && 1 <= j <= n && 1 <= k <= n && i != j && i != k && j != k ==>
        Step(v, instr, r, n) == Basis(Pow2(n), if op == "ccnot" then CcnotTarget(b, i, j, k, n) else CswapTarget(b, i, j, k, n)))
  {
    var op, i, j, k, v := Opcode(instr), Arg(instr, 1), Arg(instr, 2), Arg(instr, 3), Basis(Pow2(n), b);
    if op == "not" && 1 <= i <= n {
      StepOneQubit(v, instr, r, n);
      NotBasis(b, i, n);
    } else if op in {"cnot", "swap"} && 1 <= i <= n && 1 <= j <= n && i != j {
      StepTwoQubits(v, instr, r, n);
      if op == "cnot" {
        CnotBasis(b, i, j, n);
      } else {
        SwapBasis(b, i, j, n);
      }
    } else if op in {"ccnot", "cswap"} && 1 <= i <= n && 1 <= j <= n && 1 <= k <= n && i != j && i != k && j != k {
      StepThreeQubits(v, instr, r, n);
      if op == "ccnot" {
        CcnotBasis(b, i, j, k, n);
      } else {
        CswapBasis(b, i, j, k, n);
      }
    }
  }

  // ---------------------------------------------------------------------------
  // A whole circuit

  /** Every line of the circuit comes with a draw. */
  predicate Runnable(circuit: Circuit, draws: seq<real>)
  {
    |draws| == |circuit|
  }

  /** The state after the instructions of the circuit, in order, line k taking draw k. */
  function Run(v: Vector, circuit: Circuit, draws: seq<real>, n: nat): (w: Vector)
    requires n >= 1 && |v| == Pow2(n) && Runnable(circuit, draws)
    ensures |w| == |v|
    decreases |circuit|
  {
    if |circuit| == 0 then v
    else
      var m := |circuit| - 1;
      Step(Run(v, circuit[..m], draws[..m], n), circuit[m], draws[m], n)
  }

  /** Running two circuits one after the other is running them joined. */
  lemma {:induction false} RunAppend(v: Vector, c1: Circuit, c2: Circuit, d1: seq<real>, d2: seq<real>, n: nat)
    requires n >= 1 && |v| == Pow2(n) && Runnable(c1, d1) && Runnable(c2, d2)
    ensures Runnable(c1 + c2, d1 + d2)
    ensures Run(v, c1 + c2, d1 + d2, n) == Run(Run(v, c1, d1, n), c2, d2, n)
    decreases |c2|
  {
    if |c2| == 0 {
      assert c1 + c2 == c1 && d1 + d2 == d1;
    } else {
      var m := |c2| - 1;
      assert Runnable(c2[..m], d2[..m]);
      RunAppend(v, c1, c2[..m], d1, d2[..m], n);
      assert c2 == c2[..m] + [c2[m]] && d2 == d2[..m] + [d2[m]];
      assert c1 + c2 == (c1 + c2[..m]) + [c2[m]] && d1 + d2 == (d1 + d2[..m]) + [d2[m]];
      RunSnoc(v, c1 + c2[..m], d1 + d2[..m], c2[m], d2[m], n);
      RunSnoc(Run(v, c1, d1, n), c2[..m], d2[..m], c2[m], d2[m], n);
    }
  }

  /** One more line runs on the state the circuit before it leaves. */
  lemma RunSnoc(v: Vector, c: Circuit, d: seq<real>, line: Instruction, r: real, n: nat)
    requires n >= 1 && |v| == Pow2(n) && Runnable(c, d)
    ensures Runnable(c + [line], d + [r])
    ensures Run(v, c + [line], d + [r], n) == Step(Run(v, c, d, n), line, r, n)
  {
    assert (c + [line])[..|c|] == c && (d + [r])[..|d|] == d;
  }

  /** A closing "measure" line collapses the state the circuit before it leaves. */
  lemma MeasureLast(v: Vector, c: Circuit, d: seq<real>, r: real, n: nat)
    requires n >= 1 && |v| == Pow2(n) && Runnable(c, d)
    ensures Runnable(c + [["measure"]], d + [r])
    ensures Run(v, c + [["measure"]], d + [r], n) == Collapse(Run(v, c, d, n), r)
  {
    RunSnoc(v, c, d, ["measure"], r, n);
    assert Lower("measure") == "measure";
  }

  /** Lines the driver does not know can be dropped from a circuit. */
  lemma {:induction false} UnknownLinesDrop(v: Vector, c1: Circuit, line: Instruction, c2: Circuit,
                                           d1: seq<real>, r: real, d2: seq<real>, n: nat)
    requires n >= 1 && |v| == Pow2(n) && Runnable(c1, d1) && Runnable(c2, d2)
    requires |line| >= 1 && Opcode(line) !in Opcodes
    ensures Runnable(c1 + [line] + c2, d1 + [r] + d2) && Runnable(c1 + c2, d1 + d2)
    ensures Run(v, c1 + [line] + c2, d1 + [r] + d2, n) == Run(v, c1 + c2, d1 + d2, n)
  {
    assert Runnable([line], [r]);
    RunAppend(v, c1, [line], d1, [r], n);
    var u := Run(v, c1, d1, n);
    assert [line][..0] == [] && [r][..0] == [];
    assert Run(u, [line], [r], n) == Step(u, line, r, n) == u;
    RunAppend(v, c1 + [line], c2, d1 + [r], d2, n);
    RunAppend(v, c1, c2, d1, d2, n);
  }

  /** A circuit that starts with NOT on a qubit twice leaves the state as it was. */
  lemma NotNotIsIdentity(v: Vector, instr: Instruction, r1: real, r2: real, n: nat)
    requires n >= 1 && |v| == Pow2(n)
    requires Opcode(instr) == "not" && 1 <= Arg(instr, 1) <= n
    ensures Run(v, [instr, instr], [r1, r2], n) == v
  {
    var i := Arg(instr, 1);
    RunTwo(v, instr, instr, r1, r2, n);
    StepOneQubit(v, instr, r1, n);
    var w := NotState(v, i, n);
    StepOneQubit(w, instr, r2, n);
    NotTwice(v, i, n);
  }

  /** A circuit of two lines. */
  lemma RunTwo(v: Vector, a: Instruction, b: Instruction, r1: real, r2: real, n: nat)
    requires n >= 1 && |v| == Pow2(n)
    ensures Runnable([a, b], [r1, r2])
    ensures Run(v, [a, b], [r1, r2], n) == Step(Step(v, a, r1, n), b, r2, n)
  {
    assert [a, b][..1] == [a] && [r1, r2][..1] == [r1];
    assert [a][..0] == [] && [r1][..0] == [];
    assert Run(v, [a], [r1], n) == Step(v, a, r1, n);
  }

  // ---------------------------------------------------------------------------
  // The driver

  class AppWrapper {
    /** Number of qubits of the register. */
    const n: nat
    const register: Register
    /** The circuit last read, if any. */
    var circuit: Option<Circuit>

    ghost predicate Valid()
      reads this, register
    {
      register.Valid() && register.n == n
    }

    /** A driver over a fresh register of n qubits, all in |0>, with no circuit read yet. */
    constructor(n: nat)
      requires n >= 1
      ensures Valid() && this.n == n && fresh(register)
      ensures register.phi == Basis(Pow2(n), 0) && circuit == None
    {
      this.n := n;
      register := new Register(n);
      circuit := None;
    }

    /** Reads a circuit from the text of a circuit file. */
    method ReadCircuit(text: string)
      modifies this
      ensures circuit == Some(Tokenize(text))
    {
      var lines := Split(text, '\n');
      var c: Circuit := [];
      var k := 0;
      while k < |lines|
        invariant 0 <= k <= |lines|
        invariant c == Tokenize(text)[..k]
      {
        c := c + [Split(lines[k], ' ')];
        k := k + 1;
      }
      assert |Tokenize(text)| == |lines| && Tokenize(text)[..k] == Tokenize(text);
      circuit := Some(c);
    }

    /**
     * Applies the lines of the circuit in order; draws[k] is the number a
     * measurement on line k takes.
     */
    method Simulate(draws: seq<real>)
      requires Valid() && circuit.Some? && |draws| == |circuit.value|
      modifies register
      ensures Valid()
      ensures register.phi == Run(old(register.phi), circuit.value, draws, n)
    {
      var c := circuit.value;
      var t := 0;
      while t < |c|
        invariant 0 <= t <= |c| && Valid()
        invariant Runnable(c[..t], draws[..t])
        invariant register.phi == Run(old(register.phi), c[..t], draws[..t], n)
      {
        Execute(c[t], draws[t]);
        assert c[..t + 1] == c[..t] + [c[t]] && draws[..t + 1] == draws[..t] + [draws[t]];
        RunSnoc(old(register.phi), c[..t], draws[..t], c[t], draws[t], n);
        t := t + 1;
      }
      assert c[..t] == c && draws[..t] == draws;
    }

    /** One line of the circuit: the register method its lowercased opcode names, if any. */
    method Execute(instr: Instruction, r: real)
      requires Valid()
      modifies register
      ensures Valid()
      ensures register.phi == Step(old(register.phi), instr, r, n)
    {
      var op, i, j, k := Lower(instr[0]), Arg(instr, 1), Arg(instr, 2), Arg(instr, 3);
      if op == "not" {
        register.Not(i);
      } else if op == "z" {
        register.Z(i);
      } else if op == "hadamard" {
        register.Hadamard(i);
      } else if op == "cnot" {
        register.Cnot(i, j);
      } else if op == "swap" {
        register.Swap(i, j);
      } else if op == "ccnot" {
        register.Ccnot(i, j, k);
      } else if op == "cswap" {
        register.Cswap(i, j, k);
      } else if op == "measure" {
        register.Measure(r);
      }
    }

    /** The readout of the register: its non-zero amplitudes with their kets. */
    method PrintRegister(show: real -> string) returns (s: string)
      requires Valid()
      ensures s == Readout.PrintRegister(register.phi, n, show)
      ensures forall b :: 0 <= b < Pow2(n) && register.phi == Basis(Pow2(n), b) ==>
        s == "|" + Readout.AsBinary(b, n) + ">"
    {
      s := Readout.PrintRegister(register.phi, n, show);
      forall b | 0 <= b < Pow2(n) && register.phi == Basis(Pow2(n), b)
        ensures s == "|" + Readout.AsBinary(b, n) + ">"
      {
        Readout.BasisReadout(b, n, show);
      }
    }
  }
}
