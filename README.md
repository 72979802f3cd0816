# A state-vector quantum circuit simulator, modelled in Dafny

The system simulates small quantum circuits. A `Register` of n qubits holds its
state as a vector `phi` of 2^n real amplitudes. Index b stands for the basis
state whose n-bit binary numeral, most significant bit first, gives qubits
1..n, so qubit 1 is the most significant bit. The register starts in |0...0>.

Each gate multiplies `phi` by a 2^n x 2^n operator. The operator is built as a
left-to-right chain of Kronecker products of 2x2 factors, one factor per qubit:

- single-qubit gates (X, Z, Hadamard) put the gate on one qubit and I everywhere else;
- controlled gates add a |0><0| term and a |1><1| (x) U term;
- the controlled swap adds an "off" term to a product of three conditioned CNOT factors.

A measurement scans consecutive buckets, one per amplitude, each |a|^2 + 1e-14
wide. It collapses the state to the basis state whose bucket holds a uniform
draw.

The driver, `AppWrapper`:

- reads a circuit text by splitting it into lines and each line into space-separated tokens;
- dispatches each line, matching the opcode without regard to case, to the register method of that name;
- prints the register as a sum of terms, one per non-zero amplitude, with a symbolic coefficient and a binary ket.

The model follows the two source files module by module:

| file | modules |
|---|---|
| `bits.dfy` | `Bits`: qubit q of a basis index, the index after flipping a qubit, and the permutations of the permutation gates |
| `matrices.dfy` | `Matrices`: vectors, matrices, 2x2 operators, Kronecker product, sum, product and matrix-vector product |
| `kronecker.dfy` | `Kronecker`: the chain of Kronecker products and its entries in closed form |
| `operators.dfy` | `Operators`: the constant gates, and `permutationMatrix`, `secondTerm` and `thirdTerm` as loops proved against specification functions |
| `gates.dfy` | `Gates`: `projectedOperation`, `ccnotMatrix`, `cswapOnTerm` and `cswapMatrix`, and the permutation each one is |
| `measure.dfy` | `Measurement`: the bucket scan of `measure` |
| `register.dfy` | `Registers`: the class `Register`, whose methods replace `phi` in place, and the effect of each gate on the basis indices |
| `text.dfy` | `Text`: JavaScript `split`, `join`, `replace` (first occurrence), ASCII `toLowerCase`, and reading an operand token as a number |
| `readout.dfy` | `Readout`: `asBinary`, `formatAmplitude` and `printRegister` |
| `app.dfy` | `App`: tokenising, one `simulate` step, a whole run, and the class `AppWrapper` |
| `scenarios.dfy`, `lecture.dfy` | `Scenarios`, `Lecture`: the circuits and readouts of the repository's own test suite, worked through on the model |

Amplitudes are exact reals. The constants 1/sqrt 2, 1/(2 sqrt 2), 1/(4 sqrt 2)
and 1e-14 are the exact values of the doubles the source computes.

## Model

| member | source | states |
|---|---|---|
| `Registers.Register.constructor` | Register.js:47-53 | The loop of Kronecker products with \|0> yields a vector of length 2^n with 1 at index 0 and 0 elsewhere. |
| `Operators.PermutationMatrix` | Register.js:211-216 | The loop's result equals the Kronecker chain with op on qubit i and I elsewhere, qubit 1 outermost. |
| `Operators.PlacedOpSmall` | Register.js:211-216 | On one qubit the result is op itself. On two qubits it is op (x) I for i = 1 and I (x) op for i = 2. |
| `Operators.PlacedOpEntry` | Register.js:211-216 | Entry (r, c) of the placed operator is op's entry at the bits of qubit i when r and c agree on every other qubit, and 0 otherwise. |
| `Operators.PlacedOpOutside` | Register.js:211-216 | An index i outside 1..n places no factor, so the result is the identity. |
| `Operators.SecondTerm` | Register.js:180-190 | The loop's result equals the chain with U on qubit j, \|1><1\| on qubit i (U wins when i = j) and I elsewhere. |
| `Operators.ControlledTermEntry` | Register.js:180-190 | For distinct in-range i and j, an entry is U's entry on qubit j when qubit i of the row is 1 and the other qubits agree, and 0 otherwise. |
| `Operators.ThirdTerm` | Register.js:195-205 | The loop's result equals the chain with U on qubit k, \|1><1\| on qubits i and j, and I elsewhere. |
| `Operators.DoubleControlledTermEntry` | Register.js:195-205 | An entry is U's entry on qubit k when qubits i and j of the row are 1 and the other qubits agree, and 0 otherwise. |
| `Gates.ProjectedOperation` | Register.js:171-175 | The sum of the \|0><0\| term and the second term: rows whose control bit is 0 are identity rows, and rows whose control bit is 1 apply U to qubit j. |
| `Gates.ProjectedOpEntry` | Register.js:171-175 | The same, entry by entry, for any U. |
| `Gates.CnotMatrixEntry` | Register.js:80-82 | With U = X, row r has its single 1 in the column that is r with bit j flipped when bit i is 1 (CnotTarget). This holds for i < j and for i > j. |
| `Gates.Ket0ProjectorEntry` | Register.js:4-7 | \|0><0\| placed on qubit i keeps exactly the diagonal entries whose qubit i is 0. |
| `Gates.NotMatrixEntry` | Register.js:21-25 | X placed on qubit i is the permutation matrix that flips bit i. |
| `Gates.ZMatrixEntry` | Register.js:27-31 | Z placed on qubit i is diagonal, with -1 where bit i is 1 and 1 elsewhere. |
| `Gates.HadamardMatrixEntry` | Register.js:37-41 | H placed on qubit i has +-1/sqrt 2 on the diagonal (negative where bit i is 1) and 1/sqrt 2 at the flipped column. |
| `Gates.CcnotMatrix` | Register.js:131-140 | For distinct in-range i, j, k the three-term sum is the permutation matrix that flips bit k exactly when bits i and j are both 1. |
| `Gates.CcnotOpEntry` | Register.js:131-140 | The same, entry by entry. |
| `Gates.ControlledCnotEntry` | Register.js:109-113 | Each factor of the on-term is a CNOT of j onto k conditioned on qubit i: rows with qubit i = 1 carry the CNOT's 1, all other rows are zero. |
| `Gates.CswapOnRow` | Register.js:109-122 | The product of the three factors sends row r to r with bits j and k exchanged when bit i is 1, and zeroes the row otherwise. |
| `Gates.CswapOnTerm` | Register.js:109-122 | The on-term is the product of the three controlled factors; for distinct in-range i, j, k its row r holds a single 1, in the column of r with bits j and k exchanged, when bit i of r is 1, and is zero otherwise. |
| `Gates.CswapMatrix` | Register.js:100-107 | For distinct in-range i, j, k the off term plus the on-term is the permutation matrix that exchanges bits j and k exactly when bit i is 1. |
| `Gates.CswapOpEntry` | Register.js:100-122 | The same, entry by entry. |
| `Registers.Register.Not` | Register.js:58-60 | phi becomes the placed X times the old phi. For i in 1..n that moves the amplitude of b to b with bit i flipped. For i outside 1..n phi is unchanged. |
| `Registers.NotTwice` | Register.js:58-60 | Applying not(i) twice restores phi exactly. |
| `Registers.NotBasis` | Register.js:58-60 | not(i) takes basis state b to basis state Flip(b, i). |
| `Registers.NotKeepsNorm` | Register.js:58-60 | not(i) on a state of 2^n amplitudes keeps its squared norm. |
| `Registers.Register.Z` | Register.js:65-67 | phi becomes the placed Z times the old phi: exactly the amplitudes whose bit i is 1 are negated, and phi is unchanged for i outside 1..n. |
| `Registers.ZTwice` | Register.js:65-67 | z(i) twice restores phi. |
| `Registers.ZKeepsNorm` | Register.js:65-67 | z(i) keeps the running sums of squared amplitudes, and so the measurement buckets. |
| `Registers.Register.Hadamard` | Register.js:72-75 | phi becomes the placed H times the old phi, with every amplitude within 1e-14 of 1 set to 1. |
| `Registers.SnapIsClose` | Register.js:74 | The snap moves an amplitude by less than 1e-14, and only ever to 1. |
| `Registers.HadamardTwiceOnZero` | Register.js:72-75 | H on \|0> gives (1/sqrt 2, 1/sqrt 2), and H again gives back exactly \|0> because of the snap. |
| `Registers.Register.Cnot` | Register.js:80-82 | phi becomes the projected X times the old phi: for distinct in-range i and j, the amplitude of b moves to CnotTarget(b). |
| `Registers.CnotTwice` | Register.js:80-82 | cnot(i, j) twice restores phi. |
| `Registers.CnotBasis` | Register.js:80-82 | cnot(i, j) takes basis state b to CnotTarget(b, i, j). |
| `Registers.CnotKeepsNorm` | Register.js:80-82 | cnot(i, j) on a state of 2^n amplitudes keeps its squared norm. |
| `Registers.Register.Swap` | Register.js:87-91 | phi becomes the product of the three CNOTs applied in turn. For distinct in-range i and j that exchanges bits i and j of every index. |
| `Registers.ThreeCnotsAreSwap` | Register.js:87-91 | cnot(i, j), cnot(j, i), cnot(i, j) equals the exchange of bits i and j. |
| `Registers.SwapTwice` | Register.js:87-91 | swap(i, j) twice restores phi. |
| `Registers.SwapBasis` | Register.js:87-91 | swap(i, j) takes basis state b to b with bits i and j exchanged. |
| `Registers.SwapKeepsNorm` | Register.js:87-91 | swap(i, j) on a state of 2^n amplitudes keeps its squared norm. |
| `Registers.Register.Ccnot` | Register.js:124-129 | phi becomes the Toffoli operator times the old phi: the amplitude of b moves to b with bit k flipped when bits i and j are 1. |
| `Registers.CcnotTwice` | Register.js:124-129 | ccnot twice restores phi. |
| `Registers.CcnotBasis` | Register.js:124-129 | ccnot takes basis state b to CcnotTarget(b). |
| `Registers.CcnotKeepsNorm` | Register.js:124-129 | ccnot on a state of 2^n amplitudes keeps its squared norm. |
| `Registers.Register.Cswap` | Register.js:93-98 | phi becomes the Fredkin operator times the old phi: bits j and k of b are exchanged when bit i is 1. |
| `Registers.CswapTwice` | Register.js:93-98 | cswap twice restores phi. |
| `Registers.CswapBasis` | Register.js:93-98 | cswap takes basis state b to CswapTarget(b). |
| `Registers.CswapKeepsNorm` | Register.js:93-98 | cswap on a state of 2^n amplitudes keeps its squared norm. |
| `Registers.OutOfRangeAction` | Register.js:211-216 | A single-qubit gate on an index outside 1..n leaves phi as it was. |
| `Registers.Register.Measure` | Register.js:142-154 | phi becomes the collapse of the old phi at draw r. |
| `Measurement.CollapseScan` | Register.js:145-153 | The left-to-right scan carrying bucketStart computes, at every index, 1 when r is in that index's bucket and 0 otherwise. |
| `Measurement.AtMostOneBucket` | Register.js:147-148 | The buckets are disjoint: no draw lies in two of them. |
| `Measurement.BucketsIncrease` | Register.js:147-151 | Each bucket starts at least 1e-14 after every earlier one. |
| `Measurement.CollapseOutcome` | Register.js:142-154 | The result is a basis state if and only if 0 <= r < the end of the last bucket, and then it is the basis state of the one bucket holding r. |
| `Measurement.CollapseOutside` | Register.js:142-154 | A draw outside all buckets leaves every amplitude 0. |
| `Measurement.NormalisedCollapse` | Register.js:142-154 | For a state whose squared norm exceeds r - 1e-14 (as a normalised state does for every r in [0, 1)), the result is a basis state. |
| `Measurement.ZeroDrawSelectsFirst` | Register.js:144-149 | A draw of 0 always selects index 0. |
| `Measurement.InvolutionIsPermutation` | Register.js:58-140 | A map of the indices below m into themselves that undoes itself is one-to-one and onto, as every permutation gate's index map is. |
| `Measurement.PermutedSquaresTotal` | Register.js:145-151 | Summing the squared amplitudes in the order of a permutation of the indices gives the same total. |
| `Measurement.PermutationKeepsNorm` | Register.js:145-151 | A state whose amplitudes are those of another in permuted order has the same squared norm, so the measurement buckets cover the same total. |
| `Measurement.ZeroAmplitudeObserved` | Register.js:147 | The 1e-14 widening lets an amplitude of 0 be selected: draw 0 on \|1> yields \|0>. |
| `Measurement.EqualSuperpositionOutcomes` | spec/Register.spec.js:395-414 | Draw 0 on (\|0> + \|1>)/sqrt 2 yields \|0>, and draw 1 yields \|1>. |
| `App.AppWrapper.constructor` | App.js:6-11 | A new driver holds a fresh register of n qubits in \|0...0> and no circuit yet. |
| `App.AppWrapper.ReadCircuit` | App.js:13-16 | The loop over the lines stores the tokenised text as the circuit. |
| `App.TokenizeRoundTrip` | App.js:15 | Joining the tokens with ' ' and the lines with '\n' gives back the text, so tokenising loses nothing. |
| `App.UntokenizeRoundTrip` | App.js:15 | Every well-formed circuit, with at least one line and no separator inside a token, is the tokenising of its own text. |
| `App.TokenizeWellFormed` | App.js:15 | Tokenising always gives a well-formed circuit, with an empty line becoming the one-token line [""]. |
| `App.TokenizeExample` | spec/App.spec.js:20-29 | 'some pile\nof\ntokens to parse' tokenises to [['some','pile'],['of'],['tokens','to','parse']]. |
| `App.AppWrapper.Simulate` | App.js:18-47 | The loop applies the lines in order, and the register ends in Run of the old state over the circuit. |
| `App.AppWrapper.Execute` | App.js:19-45 | One line: the register afterwards is Step of the old state, that is, the register method the lowercased opcode names, or no change for any other opcode. |
| `App.UnknownOpcode` | App.js:19-45 | A line whose lowercased opcode is none of the eight names leaves the state unchanged. |
| `App.UnknownLinesDrop` | App.js:19-45 | Removing such a line from anywhere in a circuit does not change the run. |
| `App.CaseInsensitive` | App.js:20 | Lowercasing the opcode does not change the step. |
| `App.StepOneQubit` | App.js:21-44 | 'not', 'z' and 'hadamard' with an in-range operand act as the register's not, z and hadamard, and 'measure' collapses at the line's draw. |
| `App.StepOutOfRange` | App.js:21-29 | A single-qubit opcode whose operand is out of range (or is not a numeral) leaves the state unchanged, apart from the Hadamard snap. |
| `App.StepTwoQubits` | App.js:30-35 | 'cnot' and 'swap' with distinct in-range operands act as the register's cnot and swap. |
| `App.StepThreeQubits` | App.js:36-41 | 'ccnot' and 'cswap' with distinct in-range operands act as the register's ccnot and cswap. |
| `App.StepOnBasis` | App.js:21-41 | On a basis state, not, cnot, swap, ccnot and cswap yield the basis state of the permuted index. |
| `App.DrawOnlyMeasures` | App.js:42-44 | Only 'measure' depends on the draw. |
| `App.RunAppend` | App.js:19 | Running two circuits one after the other is running their concatenation. |
| `App.MeasureLast` | App.js:42-44 | A trailing 'measure' line collapses the state the rest of the circuit left. |
| `App.NotNotIsIdentity` | App.js:21-23 | Two identical in-range 'not' lines leave the state unchanged. |
| `App.AppWrapper.PrintRegister` | App.js:49-59 | The method returns the readout of the register, and a basis state b reads exactly "\|" + asBinary(b) + ">". |
| `Text.JoinSplit` | App.js:15 | Joining the pieces of a split with the separator gives back the string. |
| `Text.SplitJoin` | App.js:15 | Splitting a join of separator-free pieces gives back the pieces. |
| `Text.ReplaceFirstAt` | App.js:58 | replace rewrites the first occurrence of the pattern and keeps everything else. |
| `Text.ReplaceNone` | App.js:58 | Without an occurrence, replace leaves the string as it is. |
| `Text.LowerIsLower` | App.js:20 | Lowercasing leaves no upper-case letter and is idempotent. |
| `Text.OperandDecimal` | App.js:22 | A decimal numeral token is read as its value, as the loose comparison `i == j` with a number does. |
| `Text.OperandIgnoresSpace` | App.js:22 | White space of any length before and after a token, such as a '\r' left by a CRLF line end, does not change the operand's value. |
| `Text.TrimStart` | App.js:22 | Leading white space is dropped by the trim. |
| `Text.OperandCarriageReturn` | App.js:22 | The operand "1\r", the last token of a line from a file with CRLF line ends, is still 1. |
| `Readout.AsBinaryDigits` | App.js:61-65 | asBinary(i, n) has exactly n characters, each '0' or '1', and character q is bit q of i. |
| `Readout.AsBinaryIsLowBits` | App.js:61-65 | Padding and keeping the last n characters gives the n lowest binary digits of i, also for i >= 2^n. |
| `Readout.AsBinaryPads` | App.js:61-65 | When i's binary numeral fits in n digits, the result is that numeral left-padded with zeros. |
| `Readout.ToBinaryFits` | App.js:61-65 | The numeral fits in n digits if and only if i < 2^n. |
| `Readout.AsBinaryInjective` | App.js:61-65 | Distinct indices below 2^n get distinct kets. |
| `Readout.FormatAmplitudeLabels` | App.js:70-84 | A magnitude within 1e-14 of 1/sqrt 2, 1/(2 sqrt 2), 1/(4 sqrt 2), 1/2 or 1/4 gets that label. The empty coefficient comes exactly from 1. Anything else is the number itself. |
| `Readout.TermsMatchIndices` | App.js:51-57 | There is one term per non-zero amplitude, and the t-th term is built from the t-th non-zero amplitude and its index. |
| `Readout.IndicesIncrease` | App.js:51-57 | The terms come in increasing index order. |
| `Readout.IndicesAreNonZero` | App.js:52 | An index contributes a term if and only if its amplitude is non-zero. |
| `Readout.BasisReadout` | App.js:49-59 | A basis state prints as its ket alone, e.g. "\|10>". |
| `Readout.SignedReadoutAgrees` | App.js:58 | The corrected readout never contains the placeholder, and agrees with printRegister on every state without negative amplitudes. |
| `Readout.PlaceholderLeaks` | App.js:53-58 | As written, printRegister reads -\|1> as "X\|1>", and leaves the placeholder on a second negative term. |
| `Readout.SignedReadoutExamples` | App.js:53-58 | The corrected readout gives "-\|1>" and "1/2\|00> - 1/2\|01> - 1/2\|10> + 1/2\|11>" for those states. |
| `Scenarios.NotExample` | spec/App.spec.js:33-45 | "NOT 1" on \|00000> gives \|10000>. |
| `Scenarios.ZExample` | spec/App.spec.js:46-59 | "NOT 1", "Z 1" gives -\|10000>. |
| `Scenarios.HadamardExample` | spec/App.spec.js:60-72 | "hadamard 5" gives (\|00000> + \|00001>)/sqrt 2. |
| `Scenarios.CnotExample` | spec/App.spec.js:73-86 | "not 1", "cNot 1 2" gives \|11000>. |
| `Scenarios.SwapExample` | spec/App.spec.js:87-100 | "not 1", "swap 1 2" gives \|01000>. |
| `Scenarios.CcnotExample` | spec/App.spec.js:101-115 | "not 1", "not 2", "ccnot 1 2 3" gives \|11100>. |
| `Scenarios.CswapExample` | spec/App.spec.js:116-129 | "not 1", "not 2", "cswap 1 2 3" gives \|10100>. |
| `Lecture.InitialReadouts` | spec/App.spec.js:133-160 | A fresh register of one qubit reads "\|0>", and one of two qubits reads "\|00>". |
| `Lecture.NotOneQubit` | spec/App.spec.js:141-151 | "not 1" on one qubit gives \|1>, which reads "\|1>". |
| `Lecture.NotTwoQubits` | spec/App.spec.js:161-171 | "not 1" on two qubits gives \|10>, which reads "\|10>". |
| `Lecture.HadamardReadout` | spec/App.spec.js:173-183 | "hadamard 1" on one qubit reads "1/√2\|0> + 1/√2\|1>". |
| `Lecture.LectureRun` | spec/App.spec.js:185-197 | The four-line lecture circuit ends in (h, h, -h, h), where h is the square of the double 1/sqrt 2, just below 1/2. |
| `Lecture.LectureReadout` | spec/App.spec.js:185-197 | That state reads "1/2\|00> + 1/2\|01> - 1/2\|10> + 1/2\|11>". |
| `Lecture.MeasuredLecture` | spec/App.spec.js:209-241 | With a trailing measure, draw 0.2 gives \|00> and draw 0.6 gives \|10>, read as "\|00>" and "\|10>". |
| `Lecture.NegativeOneQubit` | App.js:53-58 | The circuit text "not 1\nz 1" on one qubit leaves -\|1>, which printRegister reads as "X\|1>". |

## Left out

- Randomness: `Math.random` in `measure` becomes the parameter r. `Simulate` takes one draw per circuit line, and only 'measure' lines use theirs.
- File access: `readCircuit` takes the text of the file instead of a file name. `fs.readFileSync` and the default file name are not part of this model.
- `index.js`, the command-line entry point with its argument handling and console output, is not part of this model.
- mathjs is replaced by the model's own Kronecker product, sum, product and matrix-vector product over `seq<seq<real>>`. The library's matrix objects, `map` and `valueOf` are not modelled.
- Floating point: amplitudes are exact reals, so the rounding of each product and sum is not modelled. The constants keep their double values, and the Hadamard snap and the 1e-14 windows are modelled exactly.
- Number to text: JavaScript's conversion of a number to a string (the `formatAmplitude` fallback) is the parameter `show`.
- Operand tokens: an operand is read as a trimmed decimal numeral, and any other token as 0, which no qubit index equals. JavaScript's other numeric forms ('0x1', '1e0', '+1', '1.0') are not modelled.
- `toLowerCase` lowercases ASCII letters only.
- Registers.Register.constructor: requires n >= 1, and the default n = 5 is not modelled. For n = 0 the source would build a two-entry vector for a zero-qubit register.
- App.AppWrapper.constructor: requires n >= 1 for the same reason, and does not model the default n = 5.
- App.AppWrapper.Simulate: requires that a circuit has been read. The source throws a TypeError on an unset circuit, and that error path is not modelled.
- A line of a circuit (`App.Instruction`) always holds at least one token, as every line `readCircuit` produces does. A circuit assigned by hand with an empty instruction, on which the source throws, is not modelled.
- The gate methods state the permutation form only for in-range, distinct qubit indices. Out of range, their contract states only the operator product, except that `not`, `z` and `hadamard` are proved to leave phi unchanged (apart from the snap).
- Preservation of the squared norm is proved for `z` and for the permutation gates `not`, `cnot`, `swap`, `ccnot` and `cswap` (`Registers.ZKeepsNorm`, `Registers.NotKeepsNorm` and the like), on states of 2^n amplitudes. It is not stated for `hadamard`: in floating point, and with the snap to 1, it holds only approximately.
- Behaviour stated differently elsewhere is modelled as the code has it. Invalid qubit indices and unknown opcodes are silently ignored rather than reported. Negative terms leak the 'X' placeholder (see Findings).

## Findings

| source | as written | input that shows it | evidently intended | confidence | as-written member | corrected member |
|---|---|---|---|---|---|---|
| App.js:53-58 | Each negative term is prefixed with the placeholder 'X', and only the first "+ X" in the joined text is rewritten to "- ". A negative first term (not preceded by "+ ") and every negative term after the first keep a literal 'X'. | One qubit with the circuit "not 1\nz 1" leaves -\|1>, which reads "X\|1>". The state (1/2, -1/2, -1/2, 1/2) reads "1/2\|00> - 1/2\|01> + X1/2\|10> + 1/2\|11>". | Every negative term is shown with a minus sign: "-\|1>" and "1/2\|00> - 1/2\|01> - 1/2\|10> + 1/2\|11>". | not executed | `Readout.PlaceholderLeaks` (on `Readout.PrintRegister`) | `Readout.SignedReadoutAgrees` (on `Readout.SignedReadout`) |
