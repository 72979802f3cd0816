/**
 * The readouts of the driver's examples on one and two qubits: the initial
 * states, a NOT, a Hadamard, the four-gate circuit of the lecture notes that
 * yields (|00> + |01> - |10> + |11>) / 2, and that circuit followed by a
 * measurement with the draws 0.2 and 0.6.
 */
module Lecture {
  import opened Bits
  import opened Matrices
  import opened Operators
  import opened Measurement
  import opened Registers
  import opened Text
  import opened Readout
  import opened App
  import opened Scenarios

  /** 1/sqrt 2 squared: the magnitude of every amplitude the lecture circuit leaves. */
  const Half: real := OneOverSqrt2 * OneOverSqrt2

  /** The lecture circuit. */
  const LectureCircuit: Circuit := [["hadamard", "1"], ["cnot", "1", "2"], ["not", "2"], ["hadamard", "1"]]

  /** The state the lecture circuit leaves. */
  const LectureState: Vector := [Half, Half, -Half, Half]

  // ---------------------------------------------------------------------------
  // One and two qubits from |0...0>

  /** Qubit 1 of a two-qubit register: its value at each index, and each index with it inverted. */
  lemma FirstOfTwo()
    ensures Bit(0, 1, 2) == 0 && Bit(1, 1, 2) == 0 && Bit(2, 1, 2) == 1 && Bit(3, 1, 2) == 1
    ensures Flip(0, 1, 2) == 2 && Flip(1, 1, 2) == 3 && Flip(2, 1, 2) == 0 && Flip(3, 1, 2) == 1
  {
  }

  /** Qubit 2 of a two-qubit register: its value at each index, and each index with it inverted. */
  lemma SecondOfTwo()
    ensures Bit(0, 2, 2) == 0 && Bit(1, 2, 2) == 1 && Bit(2, 2, 2) == 0 && Bit(3, 2, 2) == 1
    ensures Flip(0, 2, 2) == 1 && Flip(1, 2, 2) == 0 && Flip(2, 2, 2) == 3 && Flip(3, 2, 2) == 2
  {
  }

  /** Fresh registers of one and two qubits read "|0>" and "|00>". */
  lemma InitialReadouts(show: real -> string)
    ensures PrintRegister(Basis(2, 0), 1, show) == "|0>"
    ensures PrintRegister(Basis(4, 0), 2, show) == "|00>"
  {
    InitialOneQubit(show);
    InitialTwoQubits(show);
  }

  /** A fresh register of one qubit reads "|0>". */
  lemma InitialOneQubit(show: real -> string)
    ensures PrintRegister(Basis(2, 0), 1, show) == "|0>"
  {
    assert Pow2(1) == 2;
    BasisReadout(0, 1, show);
    AsBinaryIsLowBits(0, 1);
  }

  /** A fresh register of two qubits reads "|00>". */
  lemma InitialTwoQubits(show: real -> string)
    ensures PrintRegister(Basis(4, 0), 2, show) == "|00>"
  {
    assert Pow2(2) == 4;
    BasisReadout(0, 2, show);
    AsBinaryIsLowBits(0, 2);
  }

  /** "not 1" makes one qubit |1>, read "|1>". */
  lemma NotOneQubit(r: real, show: real -> string)
    ensures Runnable([["not", "1"]], [r])
    ensures Run(Basis(2, 0), [["not", "1"]], [r], 1) == Basis(2, 1)
    ensures PrintRegister(Basis(2, 1), 1, show) == "|1>"
  {
    NotRun(r, 1, 1);
    OneReadout(show);
  }

  /** The basis state |1> of one qubit reads "|1>". */
  lemma OneReadout(show: real -> string)
    ensures PrintRegister(Basis(2, 1), 1, show) == "|1>"
  {
    assert Pow2(1) == 2;
    BasisReadout(1, 1, show);
    AsBinaryIsLowBits(1, 1);
  }

  /** "not 1" makes two qubits |10>, read "|10>". */
  lemma NotTwoQubits(r: real, show: real -> string)
    ensures Runnable([["not", "1"]], [r])
    ensures Run(Basis(4, 0), [["not", "1"]], [r], 2) == Basis(4, 2)
    ensures PrintRegister(Basis(4, 2), 2, show) == "|10>"
  {
    NotRun(r, 2, 2);
    TenReadout(show);
  }

  /** The basis state |10> of two qubits reads "|10>". */
  lemma TenReadout(show: real -> string)
    ensures PrintRegister(Basis(4, 2), 2, show) == "|10>"
  {
    assert Pow2(2) == 4;
    BasisReadout(2, 2, show);
    AsBinaryIsLowBits(2, 2);
  }

  /** "not 1" on |0...0> of one or two qubits. */
  lemma NotRun(r: real, n: nat, b: nat)
    requires 1 <= n <= 2 && b == Pow2(n - 1)
    ensures Runnable([["not", "1"]], [r])
    ensures Run(Basis(Pow2(n), 0), [["not", "1"]], [r], n) == Basis(Pow2(n), b)
    ensures Pow2(n) == 2 * b
  {
    OperandDecimal(1);
    assert Lower("not") == "not";
    var a := ["not", "1"];
    RunOne(Basis(Pow2(n), 0), a, r, n);
    StepOnBasis(0, a, r, n);
    FlipIsXor(0, 1, n);
    BitIsPositional(0, 1, n);
  }

  /** "hadamard 1" on one qubit gives 1/sqrt 2 (|0> + |1>), read "1/√2|0> + 1/√2|1>". */
  lemma HadamardReadout(r: real, show: real -> string)
    ensures Runnable([["hadamard", "1"]], [r])
    ensures Run(Basis(2, 0), [["hadamard", "1"]], [r], 1) == [OneOverSqrt2, OneOverSqrt2]
    ensures PrintRegister([OneOverSqrt2, OneOverSqrt2], 1, show) == "1/\U{221A}2|0> + 1/\U{221A}2|1>"
  {
    OperandDecimal(1);
    assert Lower("hadamard") == "hadamard";
    var a := ["hadamard", "1"];
    var v := Basis(2, 0);
    assert Pow2(1) == 2;
    RunOne(v, a, r, 1);
    StepOneQubit(v, a, r, 1);
    assert v == [1.0, 0.0];
    HadamardTwiceOnZero();
    SuperpositionReadout(show);
  }

  /** The readout of 1/sqrt 2 (|0> + |1>). */
  lemma SuperpositionReadout(show: real -> string)
    ensures PrintRegister([OneOverSqrt2, OneOverSqrt2], 1, show) == "1/\U{221A}2|0> + 1/\U{221A}2|1>"
  {
    SuperpositionMarked(show);
    SuperpositionUnchanged();
  }

  /** The marked terms of 1/sqrt 2 (|0> + |1>), joined. */
  lemma SuperpositionMarked(show: real -> string)
    ensures Join(MarkAll(Terms([OneOverSqrt2, OneOverSqrt2], 2, 1, show)), " + ")
         == "1/\U{221A}2|0> + 1/\U{221A}2|1>"
  {
    var c := "1/\U{221A}2";
    SuperpositionTerms(show);
    var t0, t1 := Term(false, c + "|0>"), Term(false, c + "|1>");
    assert Marked(t0) == c + "|0>" && Marked(t1) == c + "|1>";
    assert MarkAll([t0, t1]) == [c + "|0>", c + "|1>"];
    JoinTwo(c + "|0>", c + "|1>", " + ");
    SuperpositionText();
  }

  /** The readout of 1/sqrt 2 (|0> + |1>) holds no placeholder to replace. */
  lemma SuperpositionUnchanged()
    ensures ReplaceFirst("1/\U{221A}2|0> + 1/\U{221A}2|1>", "+ X", "- ") == "1/\U{221A}2|0> + 1/\U{221A}2|1>"
  {
    var s := "1/\U{221A}2|0> + 1/\U{221A}2|1>";
    AbsentCharNoOccurrence(s, "+ X", 2);
    ReplaceNone(s, "+ X", "- ");
  }

  /** The terms of 1/sqrt 2 (|0> + |1>). */
  lemma SuperpositionTerms(show: real -> string)
    ensures Terms([OneOverSqrt2, OneOverSqrt2], 2, 1, show)
         == [Term(false, "1/\U{221A}2" + "|0>"), Term(false, "1/\U{221A}2" + "|1>")]
  {
    SmallKets();
    var v := [OneOverSqrt2, OneOverSqrt2];
    var c := "1/\U{221A}2";
    assert FormatAmplitude(Abs(OneOverSqrt2)) == Label(c);
    var t0, t1 := Term(false, c + "|0>"), Term(false, c + "|1>");
    assert c + "|" + "0" + ">" == c + "|0>" && c + "|" + "1" + ">" == c + "|1>";
    assert MakeTerm(OneOverSqrt2, 0, 1, show) == t0 && MakeTerm(OneOverSqrt2, 1, 1, show) == t1;
    assert Terms(v, 1, 1, show) == [] + [t0] == [t0];
    assert Terms(v, 2, 1, show) == [t0] + [t1];
  }

  lemma SuperpositionText()
    ensures "1/\U{221A}2" + "|0>" + " + " + ("1/\U{221A}2" + "|1>") == "1/\U{221A}2|0> + 1/\U{221A}2|1>"
  {
  }

  // ---------------------------------------------------------------------------
  // The lecture circuit

  /** "hadamard 1" on |00>: 1/sqrt 2 (|00> + |10>). */
  lemma LectureFirst()
    ensures Snap(HadamardState(Basis(4, 0), 1, 2)) == [OneOverSqrt2, 0.0, OneOverSqrt2, 0.0]
  {
    FirstOfTwo();
    var v := Basis(4, 0);
    assert v == [1.0, 0.0, 0.0, 0.0];
    var h := HadamardState(v, 1, 2);
    assert h[0] == OneOverSqrt2 * 1.0 + OneOverSqrt2 * 0.0;
    assert h[1] == OneOverSqrt2 * 0.0 + OneOverSqrt2 * 0.0;
    assert h[2] == -OneOverSqrt2 * 0.0 + OneOverSqrt2 * 1.0;
    assert h[3] == -OneOverSqrt2 * 0.0 + OneOverSqrt2 * 0.0;
    assert h == [OneOverSqrt2, 0.0, OneOverSqrt2, 0.0];
  }

  /** "cnot 1 2": 1/sqrt 2 (|00> + |11>). */
  lemma LectureSecond()
    ensures CnotState([OneOverSqrt2, 0.0, OneOverSqrt2, 0.0], 1, 2, 2) == [OneOverSqrt2, 0.0, 0.0, OneOverSqrt2]
  {
    FirstOfTwo();
    SecondOfTwo();
    assert CnotTarget(0, 1, 2, 2) == 0 && CnotTarget(1, 1, 2, 2) == 1;
    assert CnotTarget(2, 1, 2, 2) == 3 && CnotTarget(3, 1, 2, 2) == 2;
  }

  /** "not 2": 1/sqrt 2 (|01> + |10>). */
  lemma LectureThird()
    ensures NotState([OneOverSqrt2, 0.0, 0.0, OneOverSqrt2], 2, 2) == [0.0, OneOverSqrt2, OneOverSqrt2, 0.0]
  {
    SecondOfTwo();
  }

  /** "hadamard 1": (|00> + |01> - |10> + |11>) / 2, with 1/2 as the square of 1/sqrt 2. */
  lemma LectureFourth()
    ensures Snap(HadamardState([0.0, OneOverSqrt2, OneOverSqrt2, 0.0], 1, 2)) == LectureState
  {
    FirstOfTwo();
    var v := [0.0, OneOverSqrt2, OneOverSqrt2, 0.0];
    var h := HadamardState(v, 1, 2);
    assert h[0] == OneOverSqrt2 * 0.0 + OneOverSqrt2 * OneOverSqrt2;
    assert h[1] == OneOverSqrt2 * OneOverSqrt2 + OneOverSqrt2 * 0.0;
    assert h[2] == -OneOverSqrt2 * OneOverSqrt2 + OneOverSqrt2 * 0.0;
    assert h[3] == -OneOverSqrt2 * 0.0 + OneOverSqrt2 * OneOverSqrt2;
    assert h == LectureState;
    assert 0.4999 < Half < 0.5;
  }

  /** A circuit of four lines. */
  lemma RunFour(v: Vector, c: Circuit, d: seq<real>, n: nat)
    requires n >= 1 && |v| == Pow2(n) && |c| == 4 && Runnable(c, d)
    ensures Run(v, c, d, n) == Step(Step(Step(Step(v, c[0], d[0], n), c[1], d[1], n), c[2], d[2], n), c[3], d[3], n)
  {
    assert c[..3] == [c[0], c[1], c[2]] && d[..3] == [d[0], d[1], d[2]];
    RunThree(v, c[0], c[1], c[2], d[0], d[1], d[2], n);
  }

  /** The lecture circuit on |00> leaves (|00> + |01> - |10> + |11>) / 2. */
  lemma LectureRun(draws: seq<real>)
    requires |draws| == 4
    ensures Runnable(LectureCircuit, draws)
    ensures Run(Basis(4, 0), LectureCircuit, draws, 2) == LectureState
  {
    var c := LectureCircuit;
    assert Pow2(2) == 4;
    RunFour(Basis(4, 0), c, draws, 2);
    LectureSteps(draws[0], draws[1], draws[2], draws[3]);
  }

  /** The four lines of the lecture circuit, one at a time. */
  lemma LectureSteps(r1: real, r2: real, r3: real, r4: real)
    ensures Pow2(2) == 4
    ensures Step(Basis(4, 0), ["hadamard", "1"], r1, 2) == [OneOverSqrt2, 0.0, OneOverSqrt2, 0.0]
    ensures Step([OneOverSqrt2, 0.0, OneOverSqrt2, 0.0], ["cnot", "1", "2"], r2, 2) == [OneOverSqrt2, 0.0, 0.0, OneOverSqrt2]
    ensures Step([OneOverSqrt2, 0.0, 0.0, OneOverSqrt2], ["not", "2"], r3, 2) == [0.0, OneOverSqrt2, OneOverSqrt2, 0.0]
    ensures Step([0.0, OneOverSqrt2, OneOverSqrt2, 0.0], ["hadamard", "1"], r4, 2) == LectureState
  {
    assert Pow2(2) == 4;
    LectureHadamard(Basis(4, 0), r1);
    LectureFirst();
    LectureCnot(r2);
    LectureNot(r3);
    LectureHadamard([0.0, OneOverSqrt2, OneOverSqrt2, 0.0], r4);
    LectureFourth();
  }

  /** "hadamard 1" on two qubits. */
  lemma LectureHadamard(v: Vector, r: real)
    requires |v| == 4
    ensures Step(v, ["hadamard", "1"], r, 2) == Snap(HadamardState(v, 1, 2))
  {
    OperandDecimal(1);
    assert Lower("hadamard") == "hadamard" && Pow2(2) == 4;
    StepOneQubit(v, ["hadamard", "1"], r, 2);
  }

  /** The second line of the lecture circuit. */
  lemma LectureCnot(r: real)
    ensures Step([OneOverSqrt2, 0.0, OneOverSqrt2, 0.0], ["cnot", "1", "2"], r, 2) == [OneOverSqrt2, 0.0, 0.0, OneOverSqrt2]
  {
    OperandDecimal(1);
    OperandDecimal(2);
    assert Lower("cnot") == "cnot" && Pow2(2) == 4;
    StepTwoQubits([OneOverSqrt2, 0.0, OneOverSqrt2, 0.0], ["cnot", "1", "2"], r, 2);
    LectureSecond();
  }

  /** The third line of the lecture circuit. */
  lemma LectureNot(r: real)
    ensures Step([OneOverSqrt2, 0.0, 0.0, OneOverSqrt2], ["not", "2"], r, 2) == [0.0, OneOverSqrt2, OneOverSqrt2, 0.0]
  {
    OperandDecimal(2);
    assert Lower("not") == "not" && Pow2(2) == 4;
    StepOneQubit([OneOverSqrt2, 0.0, 0.0, OneOverSqrt2], ["not", "2"], r, 2);
    LectureThird();
  }

  /** Every amplitude the lecture circuit leaves is labelled 1/2. */
  lemma HalfLabel()
    ensures FormatAmplitude(Abs(Half)) == Label("1/2") && FormatAmplitude(Abs(-Half)) == Label("1/2")
  {
    assert 0.49999 < Half < 0.5;
    assert Near(Half, 0.5);
  }

  /** The terms of the lecture state. */
  lemma LectureTerms(show: real -> string)
    ensures Terms(LectureState, 4, 2, show)
         == [Term(false, "1/2|00>"), Term(false, "1/2|01>"), Term(true, "1/2|10>"), Term(false, "1/2|11>")]
  {
    SmallKets();
    HalfLabel();
    var v := LectureState;
    assert 0.4999 < Half;
    assert "1/2" + "|" + "00" + ">" == "1/2|00>" && "1/2" + "|" + "01" + ">" == "1/2|01>";
    assert "1/2" + "|" + "10" + ">" == "1/2|10>" && "1/2" + "|" + "11" + ">" == "1/2|11>";
    var t0, t1, t2, t3 := Term(false, "1/2|00>"), Term(false, "1/2|01>"), Term(true, "1/2|10>"), Term(false, "1/2|11>");
    assert MakeTerm(Half, 0, 2, show) == t0;
    assert MakeTerm(Half, 1, 2, show) == t1;
    assert MakeTerm(-Half, 2, 2, show) == t2;
    assert MakeTerm(Half, 3, 2, show) == t3;
    assert Terms(v, 1, 2, show) == [] + [t0] == [t0];
    assert Terms(v, 2, 2, show) == [t0] + [t1] == [t0, t1];
    assert Terms(v, 3, 2, show) == [t0, t1] + [t2] == [t0, t1, t2];
    assert Terms(v, 4, 2, show) == [t0, t1, t2] + [t3];
  }

  /** The lecture state reads "1/2|00> + 1/2|01> - 1/2|10> + 1/2|11>": its one negative term is not the first. */
  lemma LectureReadout(show: real -> string)
    ensures PrintRegister(LectureState, 2, show) == "1/2|00> + 1/2|01> - 1/2|10> + 1/2|11>"
  {
    LectureTerms(show);
    LectureMarked(show);
    var a, b := "1/2|00> + 1/2|01> ", "1/2|10> + 1/2|11>";
    ReplaceAfter(a, "+ X", b, "- ", 2);
    LectureText();
  }

  /** The marked terms of the lecture state, joined. */
  lemma LectureMarked(show: real -> string)
    ensures Join(MarkAll([Term(false, "1/2|00>"), Term(false, "1/2|01>"), Term(true, "1/2|10>"), Term(false, "1/2|11>")]), " + ")
         == "1/2|00> + 1/2|01> " + "+ X" + "1/2|10> + 1/2|11>"
  {
    var ts := [Term(false, "1/2|00>"), Term(false, "1/2|01>"), Term(true, "1/2|10>"), Term(false, "1/2|11>")];
    var ms := ["1/2|00>", "1/2|01>", "X1/2|10>", "1/2|11>"];
    assert "X" + "1/2|10>" == "X1/2|10>";
    assert Marked(ts[0]) == ms[0] && Marked(ts[1]) == ms[1];
    assert Marked(ts[2]) == ms[2] && Marked(ts[3]) == ms[3];
    assert MarkAll(ts) == ms;
    JoinFour(ms[0], ms[1], ms[2], ms[3], " + ");
    LectureJoined();
  }

  lemma LectureJoined()
    ensures "1/2|00>" + (" + " + ("1/2|01>" + (" + " + ("X1/2|10>" + (" + " + "1/2|11>")))))
         == "1/2|00> + 1/2|01> " + "+ X" + "1/2|10> + 1/2|11>"
  {
  }

  lemma LectureText()
    ensures "1/2|00> + 1/2|01> " + "- " + "1/2|10> + 1/2|11>" == "1/2|00> + 1/2|01> - 1/2|10> + 1/2|11>"
  {
  }

  // ---------------------------------------------------------------------------
  // Measuring the lecture state

  /** With the draw 0.2 the lecture state collapses to |00>, with 0.6 to |10>. */
  lemma LectureCollapse()
    ensures Collapse(LectureState, 0.2) == Basis(4, 0)
    ensures Collapse(LectureState, 0.6) == Basis(4, 2)
  {
    var v := LectureState;
    assert 0.2499 < Half * Half < 0.25;
    assert InBucket(v, 0, 0.2);
    assert InBucket(v, 2, 0.6);
    CollapseOutcome(v, 0.2);
    CollapseOutcome(v, 0.6);
  }

  /**
   * The lecture circuit followed by "measure" reads "|00>" when the draw is
   * 0.2 and "|10>" when it is 0.6.
   */
  lemma MeasuredLecture(draws: seq<real>, show: real -> string)
    requires |draws| == 4
    ensures Runnable(LectureCircuit + [["measure"]], draws + [0.2])
    ensures Run(Basis(4, 0), LectureCircuit + [["measure"]], draws + [0.2], 2) == Basis(4, 0)
    ensures Run(Basis(4, 0), LectureCircuit + [["measure"]], draws + [0.6], 2) == Basis(4, 2)
    ensures PrintRegister(Basis(4, 0), 2, show) == "|00>" && PrintRegister(Basis(4, 2), 2, show) == "|10>"
  {
    MeasuredRun(draws, 0.2);
    MeasuredRun(draws, 0.6);
    LectureCollapse();
    InitialTwoQubits(show);
    TenReadout(show);
  }

  /** The lecture circuit followed by "measure" with the draw r. */
  lemma MeasuredRun(draws: seq<real>, r: real)
    requires |draws| == 4
    ensures Runnable(LectureCircuit + [["measure"]], draws + [r])
    ensures Run(Basis(4, 0), LectureCircuit + [["measure"]], draws + [r], 2) == Collapse(LectureState, r)
  {
    assert Pow2(2) == 4;
    LectureRun(draws);
    MeasureLast(Basis(4, 0), LectureCircuit, draws, r, 2);
  }

  // ---------------------------------------------------------------------------
  // A negative amplitude first

  /** "not 1" then "z 1" on one qubit leaves -|1>, which reads "X|1>" as written. */
  lemma NegativeOneQubit(r1: real, r2: real, show: real -> string)
    ensures Tokenize("not 1\nz 1") == [["not", "1"], ["z", "1"]]
    ensures Runnable([["not", "1"], ["z", "1"]], [r1, r2])
    ensures Run(Basis(2, 0), [["not", "1"], ["z", "1"]], [r1, r2], 1) == [0.0, -1.0]
    ensures PrintRegister([0.0, -1.0], 1, show) == "X|1>"
  {
    NegativeRun(r1, r2);
    MinusOneLeaks(show);
    NegativeText();
  }

  /** "not 1" then "z 1" on |0> leaves -|1>. */
  lemma NegativeRun(r1: real, r2: real)
    ensures Runnable([["not", "1"], ["z", "1"]], [r1, r2])
    ensures Run(Basis(2, 0), [["not", "1"], ["z", "1"]], [r1, r2], 1) == [0.0, -1.0]
  {
    OperandDecimal(1);
    assert Lower("not") == "not" && Lower("z") == "z";
    assert Pow2(1) == 2 && Flip(0, 1, 1) == 1;
    var a, b := ["not", "1"], ["z", "1"];
    RunTwo(Basis(2, 0), a, b, r1, r2, 1);
    StepOnBasis(0, a, r1, 1);
    StepOneQubit(Basis(2, 1), b, r2, 1);
    assert Bit(1, 1, 1) == 1 && Bit(0, 1, 1) == 0;
    assert ZState(Basis(2, 1), 1, 1) == [0.0, -1.0];
  }

  /** The text of that circuit, read. */
  lemma NegativeText()
    ensures Tokenize("not 1\nz 1") == [["not", "1"], ["z", "1"]]
  {
    var c := [["not", "1"], ["z", "1"]];
    assert WellFormed(c) by {
      assert forall t :: 0 <= t < |c[0]| ==> ' ' !in c[0][t] && '\n' !in c[0][t];
      assert forall t :: 0 <= t < |c[1]| ==> ' ' !in c[1][t] && '\n' !in c[1][t];
    }
    UntokenizeRoundTrip(c);
    JoinTwo("not", "1", " ");
    JoinTwo("z", "1", " ");
    var joined := seq(|c|, k => if 0 <= k < |c| then Join(c[k], " ") else "");
    assert joined == ["not" + " " + "1", "z" + " " + "1"];
    assert "not" + " " + "1" == "not 1" && "z" + " " + "1" == "z 1";
    JoinTwo("not 1", "z 1", "\n");
    assert "not 1" + "\n" + "z 1" == "not 1\nz 1";
  }
}
