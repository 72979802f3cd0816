/**
 * The text readout of a register: one term per non-zero amplitude, in index
 * order, made of a sign placeholder, a coefficient label and the ket of the
 * index written in n binary digits; the terms are joined with " + " and the
 * first " + X" becomes " - ".
 */
module Readout {
  import opened Bits
  import opened Matrices
  import opened Operators
  import opened Text

  // ---------------------------------------------------------------------------
  // Kets: asBinary

  /** The binary digit character for 0 or 1. */
  function BitChar(d: nat): char
  {
    if d == 0 then '0' else '1'
  }

  /** The binary numeral of i without leading zeros, "0" for 0. */
  function ToBinary(i: nat): (s: string)
    ensures |s| >= 1
  {
    if i < 2 then [BitChar(i)] else ToBinary(i / 2) + [BitChar(i % 2)]
  }

  /** n zero digits. */
  function Zeros(n: nat): (z: string)
    ensures |z| == n && forall k :: 0 <= k < n ==> z[k] == '0'
  {
    seq(n, _ => '0')
  }

  /** The ket label of index i: n zeros then the binary numeral of i, of which the last n characters are kept. */
  function AsBinary(i: nat, n: nat): (s: string)
    ensures |s| == n
  {
    var padded := Zeros(n) + ToBinary(i);
    padded[|padded| - n..]
  }

  /** The n lowest binary digits of i, most significant first. */
  function LowBits(i: nat, n: nat): (s: string)
    ensures |s| == n
  {
    if n == 0 then "" else LowBits(i / 2, n - 1) + [BitChar(i % 2)]
  }

  /** Appending a character to s moves its suffixes along by one. */
  lemma SuffixSnoc(s: string, c: char, m: nat)
    requires 1 <= m <= |s| + 1
    ensures (s + [c])[|s| + 1 - m..] == s[|s| - (m - 1)..] + [c]
  {
  }

  /** The last m characters of zeros followed by ToBinary(i), for up to as many zeros, are the low m bits of i. */
  lemma {:induction false} PaddedSuffix(i: nat, z: nat, m: nat)
    requires m <= z
    ensures (Zeros(z) + ToBinary(i))[|Zeros(z) + ToBinary(i)| - m..] == LowBits(i, m)
    decreases i
  {
    var p := Zeros(z) + ToBinary(i);
    if m == 0 {
      assert p[|p|..] == "";
    } else if i < 2 {
      SuffixSnoc(Zeros(z), BitChar(i), m);
      LowBitsOfZero(m - 1);
      assert Zeros(z)[z - (m - 1)..] == Zeros(m - 1);
    } else {
      var q := Zeros(z) + ToBinary(i / 2);
      assert p == q + [BitChar(i % 2)];
      SuffixSnoc(q, BitChar(i % 2), m);
      PaddedSuffix(i / 2, z, m - 1);
    }
  }

  /** The low bits of 0 are zeros. */
  lemma {:induction false} LowBitsOfZero(n: nat)
    ensures LowBits(0, n) == Zeros(n)
  {
    if n > 0 {
      LowBitsOfZero(n - 1);
    }
  }

  /** asBinary keeps the n low binary digits of i. */
  lemma AsBinaryIsLowBits(i: nat, n: nat)
    ensures AsBinary(i, n) == LowBits(i, n)
  {
    PaddedSuffix(i, n, n);
  }

  /** Digit q of the low n bits is the value of qubit q. */
  lemma {:induction false} LowBitsDigit(i: nat, n: nat, q: int)
    requires 1 <= q <= n
    ensures LowBits(i, n)[q - 1] == BitChar(Bit(i, q, n))
    decreases n
  {
    if q < n {
      LowBitsDigit(i / 2, n - 1, q);
    }
  }

  /**
   * The ket of index i has exactly n characters, each '0' or '1', and
   * character q - 1 is the value of qubit q (qubit 1 first).
   */
  lemma AsBinaryDigits(i: nat, n: nat)
    ensures |AsBinary(i, n)| == n
    ensures forall q :: 1 <= q <= n ==> AsBinary(i, n)[q - 1] == BitChar(Bit(i, q, n))
    ensures forall k :: 0 <= k < n ==> AsBinary(i, n)[k] in "01"
  {
    AsBinaryIsLowBits(i, n);
    forall q | 1 <= q <= n ensures AsBinary(i, n)[q - 1] == BitChar(Bit(i, q, n)) {
      LowBitsDigit(i, n, q);
    }
    forall k | 0 <= k < n ensures AsBinary(i, n)[k] in "01" {
      LowBitsDigit(i, n, k + 1);
    }
  }

  /** Different indices of an n-qubit register have different kets. */
  lemma AsBinaryInjective(i: nat, j: nat, n: nat)
    requires n >= 1 && i < Pow2(n) && j < Pow2(n) && AsBinary(i, n) == AsBinary(j, n)
    ensures i == j
  {
    AsBinaryDigits(i, n);
    AsBinaryDigits(j, n);
    forall p | 1 <= p <= n ensures Bit(i, p, n) == Bit(j, p, n) {
      assert AsBinary(i, n)[p - 1] == AsBinary(j, n)[p - 1];
    }
    BitsDetermine(i, j, n);
  }

  /** The binary numeral of i fits in n digits exactly when i is below 2^n. */
  lemma {:induction false} ToBinaryFits(i: nat, n: nat)
    requires n >= 1
    ensures |ToBinary(i)| <= n <==> i < Pow2(n)
    decreases i
  {
    if i >= 2 && n >= 2 {
      ToBinaryFits(i / 2, n - 1);
    }
  }

  /** When the numeral fits, the ket is the numeral left-padded with zeros. */
  lemma AsBinaryPads(i: nat, n: nat)
    requires |ToBinary(i)| <= n
    ensures AsBinary(i, n) == Zeros(n - |ToBinary(i)|) + ToBinary(i)
  {
    var t := ToBinary(i);
    assert (Zeros(n) + t)[|t|..] == Zeros(n)[|t|..] + t;
    assert Zeros(n)[|t|..] == Zeros(n - |t|);
  }

  // ---------------------------------------------------------------------------
  // Coefficients: formatAmplitude

  /** 1 / (2 sqrt 2) as the engine holds it: the nearest double, written out exactly. */
  const OneOverTwoSqrt2: real := 0.3535533905932737308575042334268800914287567138671875
  /** 1 / (4 sqrt 2) as the engine holds it: the nearest double, written out exactly. */
  const OneOverFourSqrt2: real := 0.17677669529663686542875211671344004571437835693359375

  /** A coefficient is either a label or the number itself, printed as the host prints numbers. */
  datatype Coefficient = Label(text: string) | Numeral(value: real)

  /** a lies strictly within ErrThresh of c. */
  predicate Near(a: real, c: real)
  {
    c - ErrThresh < a < c + ErrThresh
  }

  /** The label of a non-negative amplitude magnitude. */
  function FormatAmplitude(a: real): (c: Coefficient)
  {
    if Near(a, OneOverSqrt2) then Label("1/\U{221A}2")
    else if Near(a, OneOverTwoSqrt2) then Label("1/2\U{221A}2")
    else if Near(a, OneOverFourSqrt2) then Label("1/4\U{221A}2")
    else if Near(a, 0.5) then Label("1/2")
    else if Near(a, 0.25) then Label("1/4")
    else if a == 1.0 then Label("")
    else Numeral(a)
  }

  /**
   * The five windows do not overlap, so a magnitude near one of the constants
   * gets that constant's label whatever the order of the tests; exactly the
   * magnitude 1 gets the empty coefficient; anything else is printed as a number.
   */
  lemma FormatAmplitudeLabels(a: real)
    ensures Near(a, OneOverSqrt2) ==> FormatAmplitude(a) == Label("1/\U{221A}2")
    ensures Near(a, OneOverTwoSqrt2) ==> FormatAmplitude(a) == Label("1/2\U{221A}2")
    ensures Near(a, OneOverFourSqrt2) ==> FormatAmplitude(a) == Label("1/4\U{221A}2")
    ensures Near(a, 0.5) ==> FormatAmplitude(a) == Label("1/2")
    ensures Near(a, 0.25) ==> FormatAmplitude(a) == Label("1/4")
    ensures FormatAmplitude(a) == Label("") <==> a == 1.0
    ensures FormatAmplitude(a).Numeral? ==> FormatAmplitude(a).value == a
  {
  }

  /** The text of a coefficient; show stands for the host's conversion of a number to text. */
  function CoefficientText(c: Coefficient, show: real -> string): string
  {
    match c
    case Label(t) => t
    case Numeral(x) => show(x)
  }

  // ---------------------------------------------------------------------------
  // Terms: printRegister

  function Abs(a: real): real
  {
    if a < 0.0 then -a else a
  }

  /** A term of the readout: whether its amplitude is negative, and its coefficient and ket. */
  datatype Term = Term(negative: bool, body: string)

  /** The term of amplitude a at index i. */
  function MakeTerm(a: real, i: nat, n: nat, show: real -> string): Term
  {
    Term(a < 0.0, CoefficientText(FormatAmplitude(Abs(a)), show) + "|" + AsBinary(i, n) + ">")
  }

  /** The terms of the non-zero amplitudes below index m, in index order. */
  function Terms(v: Vector, m: nat, n: nat, show: real -> string): (ts: seq<Term>)
    requires m <= |v|
    ensures |ts| <= m
  {
    if m == 0 then []
    else Terms(v, m - 1, n, show) + (if v[m - 1] != 0.0 then [MakeTerm(v[m - 1], m - 1, n, show)] else [])
  }

  /** The indices of the non-zero amplitudes below m, in increasing order. */
  function NonZeroIndices(v: Vector, m: nat): (idx: seq<nat>)
    requires m <= |v|
    ensures |idx| <= m && forall t :: 0 <= t < |idx| ==> idx[t] < m
  {
    if m == 0 then [] else NonZeroIndices(v, m - 1) + (if v[m - 1] != 0.0 then [m - 1] else [])
  }

  /** There is one term per non-zero amplitude: the t-th term belongs to the t-th non-zero index. */
  lemma {:induction false} TermsMatchIndices(v: Vector, m: nat, n: nat, show: real -> string)
    requires m <= |v|
    ensures |Terms(v, m, n, show)| == |NonZeroIndices(v, m)|
    ensures forall t :: 0 <= t < |NonZeroIndices(v, m)| ==>
      Terms(v, m, n, show)[t] == MakeTerm(v[NonZeroIndices(v, m)[t]], NonZeroIndices(v, m)[t], n, show)
  {
    if m > 0 {
      TermsMatchIndices(v, m - 1, n, show);
      var ts, idx := Terms(v, m - 1, n, show), NonZeroIndices(v, m - 1);
      if v[m - 1] != 0.0 {
        var last := MakeTerm(v[m - 1], m - 1, n, show);
        assert Terms(v, m, n, show) == ts + [last];
        assert NonZeroIndices(v, m) == idx + [m - 1];
        forall t | 0 <= t < |idx| + 1
          ensures (ts + [last])[t] == MakeTerm(v[(idx + [m - 1])[t]], (idx + [m - 1])[t], n, show)
        {
          if t < |idx| {
            assert (ts + [last])[t] == ts[t] && (idx + [m - 1])[t] == idx[t];
          }
        }
      } else {
        assert Terms(v, m, n, show) == ts && NonZeroIndices(v, m) == idx;
      }
    }
  }

  /** The non-zero indices come in increasing order. */
  lemma {:induction false} IndicesIncrease(v: Vector, m: nat)
    requires m <= |v|
    ensures forall s, t :: 0 <= s < t < |NonZeroIndices(v, m)| ==> NonZeroIndices(v, m)[s] < NonZeroIndices(v, m)[t]
  {
    if m > 0 {
      IndicesIncrease(v, m - 1);
    }
  }

  /** The non-zero indices are exactly the indices of the non-zero amplitudes. */
  lemma {:induction false} IndicesAreNonZero(v: Vector, m: nat)
    requires m <= |v|
    ensures forall k :: 0 <= k < m ==> (k in NonZeroIndices(v, m) <==> v[k] != 0.0)
  {
    if m > 0 {
      IndicesAreNonZero(v, m - 1);
      var prev := NonZeroIndices(v, m - 1);
      assert forall k :: k in prev ==> k < m - 1;
    }
  }

  /** A term with its sign placeholder: "X" in front of a negative term. */
  function Marked(t: Term): string
  {
    (if t.negative then "X" else "") + t.body
  }

  function MarkAll(ts: seq<Term>): (ss: seq<string>)
    ensures |ss| == |ts| && forall k :: 0 <= k < |ts| ==> ss[k] == Marked(ts[k])
  {
    seq(|ts|, k => if 0 <= k < |ts| then Marked(ts[k]) else "")
  }

  /** printRegister as written: marked terms joined by " + ", then the first "+ X" made "- ". */
  function PrintRegister(v: Vector, n: nat, show: real -> string): string
  {
    ReplaceFirst(Join(MarkAll(Terms(v, |v|, n, show)), " + "), "+ X", "- ")
  }

  /**
   * The readout with every sign written out: "-" in front of a negative first
   * term, " - " before every later negative term and " + " before every later
   * non-negative one.
   */
  function SignedReadout(v: Vector, n: nat, show: real -> string): string
  {
    Signed(Terms(v, |v|, n, show))
  }

  function Signed(ts: seq<Term>): string
  {
    if |ts| == 0 then "" else (if ts[0].negative then "-" else "") + ts[0].body + SignedTail(ts[1..])
  }

  function SignedTail(ts: seq<Term>): string
  {
    if |ts| == 0 then "" else (if ts[0].negative then " - " else " + ") + ts[0].body + SignedTail(ts[1..])
  }

  // ---------------------------------------------------------------------------
  // Readout properties

  /** A term body holds no placeholder when the printed numbers hold none. */
  lemma BodyHasNoX(a: real, i: nat, n: nat, show: real -> string)
    requires forall x :: 'X' !in show(x)
    ensures 'X' !in MakeTerm(a, i, n, show).body
  {
    AsBinaryDigits(i, n);
  }

  /** With no negative term, the signed readout is the plain join. */
  lemma {:induction false} SignedIsJoin(ts: seq<Term>)
    requires forall k :: 0 <= k < |ts| ==> !ts[k].negative
    ensures Signed(ts) == Join(MarkAll(ts), " + ")
    decreases |ts|
  {
    if |ts| >= 1 {
      assert Marked(ts[0]) == "" + ts[0].body;
      if |ts| >= 2 {
        SignedTailIsJoin(ts[1..]);
        assert MarkAll(ts)[1..] == MarkAll(ts[1..]);
      } else {
        assert Signed(ts) == "" + ts[0].body + "";
      }
    }
  }

  lemma {:induction false} SignedTailIsJoin(ts: seq<Term>)
    requires |ts| >= 1 && forall k :: 0 <= k < |ts| ==> !ts[k].negative
    ensures SignedTail(ts) == " + " + Join(MarkAll(ts), " + ")
    decreases |ts|
  {
    var first := ts[0].body;
    assert Marked(ts[0]) == first;
    if |ts| == 1 {
      assert SignedTail(ts) == " + " + first + "";
    } else {
      var rest := Join(MarkAll(ts[1..]), " + ");
      SignedTailIsJoin(ts[1..]);
      assert MarkAll(ts)[1..] == MarkAll(ts[1..]);
      assert Join(MarkAll(ts), " + ") == first + " + " + rest;
      assert SignedTail(ts) == " + " + first + (" + " + rest);
    }
  }

  /** Marked terms without placeholders and joined by " + " hold no "X". */
  lemma {:induction false} JoinHasNoX(ss: seq<string>)
    requires forall k :: 0 <= k < |ss| ==> 'X' !in ss[k]
    ensures 'X' !in Join(ss, " + ")
    decreases |ss|
  {
    if |ss| >= 2 {
      JoinHasNoX(ss[1..]);
    }
  }

  /** The signed readout never holds the placeholder. */
  lemma {:induction false} SignedHasNoX(ts: seq<Term>)
    requires forall k :: 0 <= k < |ts| ==> 'X' !in ts[k].body
    ensures 'X' !in Signed(ts) && 'X' !in SignedTail(ts)
    decreases |ts|
  {
    if |ts| >= 1 {
      SignedHasNoX(ts[1..]);
    }
  }

  /** Terms of a state hold no placeholder in their bodies. */
  lemma {:induction false} TermsHaveNoX(v: Vector, m: nat, n: nat, show: real -> string)
    requires m <= |v| && forall x :: 'X' !in show(x)
    ensures forall k :: 0 <= k < |Terms(v, m, n, show)| ==> 'X' !in Terms(v, m, n, show)[k].body
  {
    if m > 0 {
      TermsHaveNoX(v, m - 1, n, show);
      var ts := Terms(v, m - 1, n, show);
      if v[m - 1] != 0.0 {
        var last := MakeTerm(v[m - 1], m - 1, n, show);
        BodyHasNoX(v[m - 1], m - 1, n, show);
        assert Terms(v, m, n, show) == ts + [last];
        forall k | 0 <= k < |ts| + 1 ensures 'X' !in (ts + [last])[k].body {
          if k < |ts| {
            assert (ts + [last])[k] == ts[k];
          }
        }
      } else {
        assert Terms(v, m, n, show) == ts;
      }
    }
  }

  /** Terms of a state with no negative amplitude are all non-negative. */
  lemma {:induction false} TermsNonNegative(v: Vector, m: nat, n: nat, show: real -> string)
    requires m <= |v| && forall k :: 0 <= k < |v| ==> v[k] >= 0.0
    ensures forall k :: 0 <= k < |Terms(v, m, n, show)| ==> !Terms(v, m, n, show)[k].negative
  {
    if m > 0 {
      TermsNonNegative(v, m - 1, n, show);
    }
  }

  /**
   * Without negative amplitudes the readout as written and the signed readout
   * agree; and the signed readout never shows the placeholder.
   */
  lemma SignedReadoutAgrees(v: Vector, n: nat, show: real -> string)
    requires forall x :: 'X' !in show(x)
    ensures 'X' !in SignedReadout(v, n, show)
    ensures (forall k :: 0 <= k < |v| ==> v[k] >= 0.0) ==> SignedReadout(v, n, show) == PrintRegister(v, n, show)
  {
    var ts := Terms(v, |v|, n, show);
    TermsHaveNoX(v, |v|, n, show);
    SignedHasNoX(ts);
    if forall k :: 0 <= k < |v| ==> v[k] >= 0.0 {
      TermsNonNegative(v, |v|, n, show);
      SignedIsJoin(ts);
      forall k | 0 <= k < |ts| ensures 'X' !in MarkAll(ts)[k] {
      }
      JoinHasNoX(MarkAll(ts));
      AbsentCharNoOccurrence(Join(MarkAll(ts), " + "), "+ X", 2);
      ReplaceNone(Join(MarkAll(ts), " + "), "+ X", "- ");
    }
  }

  /** The terms of a basis state: only the term of its index, with the empty coefficient. */
  lemma {:induction false} BasisTerms(d: nat, b: nat, m: nat, n: nat, show: real -> string)
    requires b < d && m <= d
    ensures Terms(Basis(d, b), m, n, show)
         == if m <= b then [] else [Term(false, "|" + AsBinary(b, n) + ">")]
  {
    var v := Basis(d, b);
    var ket := Term(false, "|" + AsBinary(b, n) + ">");
    if m == 0 {
      assert Terms(v, m, n, show) == [];
    } else {
      BasisTerms(d, b, m - 1, n, show);
      var ts := Terms(v, m - 1, n, show);
      if m - 1 == b {
        assert Terms(v, m, n, show) == [ket] by {
          assert v[b] == 1.0;
          UnitTerm(b, n, show);
          assert ts == [];
          assert Terms(v, m, n, show) == [] + [MakeTerm(1.0, b, n, show)];
        }
      } else {
        assert Terms(v, m, n, show) == ts by {
          assert v[m - 1] == 0.0;
        }
      }
    }
  }

  /** The term of an amplitude 1 is the bare ket. */
  lemma UnitTerm(b: nat, n: nat, show: real -> string)
    ensures MakeTerm(1.0, b, n, show) == Term(false, "|" + AsBinary(b, n) + ">")
  {
    assert FormatAmplitude(Abs(1.0)) == Label("");
    assert "" + "|" == "|";
  }

  /** A ket holds no '+'. */
  lemma KetHasNoPlus(b: nat, n: nat)
    ensures '+' !in "|" + AsBinary(b, n) + ">"
  {
    AsBinaryDigits(b, n);
    var s := "|" + AsBinary(b, n) + ">";
    forall k | 0 <= k < |s| ensures s[k] != '+' {
      if 0 < k < |s| - 1 {
        assert s[k] == AsBinary(b, n)[k - 1];
      }
    }
  }

  /** A basis state reads out as its ket alone, e.g. "|10>". */
  lemma BasisReadout(b: nat, n: nat, show: real -> string)
    requires b < Pow2(n)
    ensures PrintRegister(Basis(Pow2(n), b), n, show) == "|" + AsBinary(b, n) + ">"
  {
    var ket := "|" + AsBinary(b, n) + ">";
    BasisTerms(Pow2(n), b, Pow2(n), n, show);
    var ts := Terms(Basis(Pow2(n), b), Pow2(n), n, show);
    assert ts == [Term(false, ket)];
    assert Marked(Term(false, ket)) == ket;
    assert MarkAll(ts) == [ket];
    KetHasNoPlus(b, n);
    ReplaceAbsent(ket, "+ X", "- ");
  }

  // ---------------------------------------------------------------------------
  // The sign placeholder

  /** The kets of one and two qubits. */
  lemma SmallKets()
    ensures AsBinary(0, 1) == "0" && AsBinary(1, 1) == "1"
    ensures AsBinary(0, 2) == "00" && AsBinary(1, 2) == "01"
    ensures AsBinary(2, 2) == "10" && AsBinary(3, 2) == "11"
  {
    AsBinaryIsLowBits(0, 1);
    AsBinaryIsLowBits(1, 1);
    AsBinaryIsLowBits(0, 2);
    AsBinaryIsLowBits(1, 2);
    AsBinaryIsLowBits(2, 2);
    AsBinaryIsLowBits(3, 2);
  }

  /** The terms of -|1> on one qubit. */
  lemma MinusOneTerms(show: real -> string)
    ensures Terms([0.0, -1.0], 2, 1, show) == [Term(true, "|1>")]
  {
    SmallKets();
    var v := [0.0, -1.0];
    assert FormatAmplitude(Abs(-1.0)) == Label("");
    assert "" + "|" + "1" + ">" == "|1>";
    assert MakeTerm(-1.0, 1, 1, show) == Term(true, "|1>");
    assert Terms(v, 1, 1, show) == [];
    assert Terms(v, 2, 1, show) == [] + [Term(true, "|1>")];
  }

  /** The terms of (|00> - |01> - |10> + |11>) / 2. */
  lemma HalvesTerms(show: real -> string)
    ensures Terms([0.5, -0.5, -0.5, 0.5], 4, 2, show)
         == [Term(false, "1/2|00>"), Term(true, "1/2|01>"), Term(true, "1/2|10>"), Term(false, "1/2|11>")]
  {
    SmallKets();
    var v := [0.5, -0.5, -0.5, 0.5];
    assert FormatAmplitude(Abs(0.5)) == Label("1/2") && FormatAmplitude(Abs(-0.5)) == Label("1/2");
    assert "1/2" + "|" + "00" + ">" == "1/2|00>" && "1/2" + "|" + "01" + ">" == "1/2|01>";
    assert "1/2" + "|" + "10" + ">" == "1/2|10>" && "1/2" + "|" + "11" + ">" == "1/2|11>";
    var t0, t1, t2, t3 := Term(false, "1/2|00>"), Term(true, "1/2|01>"), Term(true, "1/2|10>"), Term(false, "1/2|11>");
    assert MakeTerm(0.5, 0, 2, show) == t0;
    assert MakeTerm(-0.5, 1, 2, show) == t1;
    assert MakeTerm(-0.5, 2, 2, show) == t2;
    assert MakeTerm(0.5, 3, 2, show) == t3;
    assert Terms(v, 1, 2, show) == [] + [t0] == [t0];
    assert Terms(v, 2, 2, show) == [t0] + [t1] == [t0, t1];
    assert Terms(v, 3, 2, show) == [t0, t1] + [t2] == [t0, t1, t2];
    assert Terms(v, 4, 2, show) == [t0, t1, t2] + [t3];
  }

  /**
   * As written, a negative first term keeps its placeholder, and so does every
   * negative term after the first one: one qubit in the state -|1> reads
   * "X|1>", and the two-qubit state (|00> - |01> - |10> + |11>) / 2 reads
   * "1/2|00> - 1/2|01> + X1/2|10> + 1/2|11>".
   */
  lemma PlaceholderLeaks(show: real -> string)
    ensures PrintRegister([0.0, -1.0], 1, show) == "X|1>"
    ensures PrintRegister([0.5, -0.5, -0.5, 0.5], 2, show) == "1/2|00> - 1/2|01> + X1/2|10> + 1/2|11>"
  {
    MinusOneLeaks(show);
    HalvesLeak(show);
  }

  /** -|1> on one qubit reads "X|1>". */
  lemma MinusOneLeaks(show: real -> string)
    ensures PrintRegister([0.0, -1.0], 1, show) == "X|1>"
  {
    MinusOneTerms(show);
    assert Marked(Term(true, "|1>")) == "X|1>";
    assert MarkAll([Term(true, "|1>")]) == ["X|1>"];
    ReplaceAbsent("X|1>", "+ X", "- ");
  }

  /** (|00> - |01> - |10> + |11>) / 2 keeps the placeholder of its third term. */
  lemma HalvesLeak(show: real -> string)
    ensures PrintRegister([0.5, -0.5, -0.5, 0.5], 2, show) == "1/2|00> - 1/2|01> + X1/2|10> + 1/2|11>"
  {
    HalvesMarked(show);
    ReplaceAfter("1/2|00> ", "+ X", "1/2|01> + X1/2|10> + 1/2|11>", "- ", 0);
    HalvesReplaced();
  }

  /** The two-qubit example with its first "+ X" made "- ". */
  lemma HalvesReplaced()
    ensures "1/2|00> " + "- " + "1/2|01> + X1/2|10> + 1/2|11>" == "1/2|00> - 1/2|01> + X1/2|10> + 1/2|11>"
  {
  }

  /** The marked terms of the two-qubit example: both negative ones carry the placeholder. */
  lemma HalvesMarked(show: real -> string)
    ensures Join(MarkAll(Terms([0.5, -0.5, -0.5, 0.5], 4, 2, show)), " + ")
         == "1/2|00> " + "+ X" + "1/2|01> + X1/2|10> + 1/2|11>"
  {
    HalvesTerms(show);
    var ts := [Term(false, "1/2|00>"), Term(true, "1/2|01>"), Term(true, "1/2|10>"), Term(false, "1/2|11>")];
    var ms := ["1/2|00>", "X1/2|01>", "X1/2|10>", "1/2|11>"];
    assert "X" + "1/2|01>" == "X1/2|01>" && "X" + "1/2|10>" == "X1/2|10>";
    assert Marked(ts[0]) == ms[0] && Marked(ts[1]) == ms[1];
    assert Marked(ts[2]) == ms[2] && Marked(ts[3]) == ms[3];
    assert MarkAll(ts) == ms;
    JoinFour(ms[0], ms[1], ms[2], ms[3], " + ");
    HalvesJoined();
  }

  /** The marked terms of the two-qubit example, joined. */
  lemma HalvesJoined()
    ensures "1/2|00>" + (" + " + ("X1/2|01>" + (" + " + ("X1/2|10>" + (" + " + "1/2|11>")))))
         == "1/2|00> " + "+ X" + "1/2|01> + X1/2|10> + 1/2|11>"
  {
  }

  /** The signed readout writes the same two states with their signs. */
  lemma SignedReadoutExamples(show: real -> string)
    ensures SignedReadout([0.0, -1.0], 1, show) == "-|1>"
    ensures SignedReadout([0.5, -0.5, -0.5, 0.5], 2, show) == "1/2|00> - 1/2|01> - 1/2|10> + 1/2|11>"
  {
    MinusOneTerms(show);
    assert Signed([Term(true, "|1>")]) == "-" + "|1>" + "";
    HalvesSigned(show);
  }

  /** (|00> - |01> - |10> + |11>) / 2 with its signs. */
  lemma HalvesSigned(show: real -> string)
    ensures SignedReadout([0.5, -0.5, -0.5, 0.5], 2, show) == "1/2|00> - 1/2|01> - 1/2|10> + 1/2|11>"
  {
    HalvesTerms(show);
    var t0, t1, t2, t3 := Term(false, "1/2|00>"), Term(true, "1/2|01>"), Term(true, "1/2|10>"), Term(false, "1/2|11>");
    var ts := [t0, t1, t2, t3];
    assert ts[1..] == [t1, t2, t3] && [t1, t2, t3][1..] == [t2, t3] && [t2, t3][1..] == [t3];
    assert [t3][1..] == [];
    assert SignedTail([t3][1..]) == "";
    var s3 := SignedTail([t3]);
    assert s3 == " + " + "1/2|11>" + SignedTail([t3][1..]);
    var s2 := SignedTail([t2, t3]);
    assert s2 == " - " + "1/2|10>" + s3;
    var s1 := SignedTail([t1, t2, t3]);
    assert s1 == " - " + "1/2|01>" + s2;
    assert Signed(ts) == "" + "1/2|00>" + s1;
    HalvesSignedText();
  }

  /** The signed terms of the two-qubit example, put together. */
  lemma HalvesSignedText()
    ensures "" + "1/2|00>" + (" - " + "1/2|01>" + (" - " + "1/2|10>" + (" + " + "1/2|11>" + "")))
         == "1/2|00> - 1/2|01> - 1/2|10> + 1/2|11>"
  {
  }

  /** Four parts joined. */
  lemma JoinFour(a: string, b: string, c: string, d: string, sep: string)
    ensures Join([a, b, c, d], sep) == a + (sep + (b + (sep + (c + (sep + d)))))
  {
    assert [a, b, c, d][1..] == [b, c, d] && [b, c, d][1..] == [c, d] && [c, d][1..] == [d];
    assert Join([d], sep) == d;
    var j2 := Join([c, d], sep);
    assert j2 == c + sep + d == c + (sep + d);
    var j1 := Join([b, c, d], sep);
    assert j1 == b + sep + j2 == b + (sep + j2);
    assert Join([a, b, c, d], sep) == a + sep + j1 == a + (sep + j1);
  }
}
