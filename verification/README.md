# Verified model of the quantum circuit workbench

This project models, in Dafny, the parts of the workbench in which several pieces of code must agree with each
other: the state-vector simulator and the legality check of the circuit editor, the OpenQASM 3 printer and parser,
the backend's translation of a submitted circuit, and the protocols around them (debounced simulation, task
lifecycle and retries, idempotent submission, event streaming).

`dafny verify dfyconfig.toml` checks everything.

## How it is organised

- **Simulator.** `Kernels` gives every gate one meaning: a matrix on some target bits, switched by control bits,
  acting on a vector of exact complex numbers for any number of qubits. `SimulationCore` and `SimulationControlled`
  are the in-place loops over two arrays, proved to compute that operator although they overwrite amplitudes as they
  go. `OrderIndependence` shows that the order inside a layer does not matter, `Conservation` that the norm is kept,
  `Simulation` that probabilities sum to one and that Bloch vectors have length at most one. `GateTable` says in plain
  arithmetic what every gate does to the amplitudes; `GateAlgebra` relates the matrices to each other, and
  `PauliExpectations` the Bloch vectors to the Pauli gates.
- **Legality.** `CircuitValidation` contains the scans of the editor and the plain rule they decide.
- **OpenQASM.** `QasmStatements` and `Decompositions` compile operations and prove each decomposition on whole
  states. `QasmPrinter` and `QasmParser` work on characters. `QasmLexing`, `QasmReading`, `QasmSteps`,
  `QasmRoundTrip` and `QasmMeaning` lead to `QasmMeaning.PrintThenParse`; `QasmAcceptance` is about texts that were
  not printed by the editor. `QasmGrammar`, `QasmTexts` and `QasmErrors` fix the dialect: the accepted texts of each
  pattern, what each written statement is read as, and which error every other one meets.
- **Backend.** `BackendCircuit` has the gate lists of `ccx`, `cp`, `p` and `u` and the payload loop; `Submission`
  builds the payload and compares the backend's state with the simulator's.
- **Protocols.** `Scheduler`, `TaskLifecycle`, `RetryingWorker`, `Idempotency`, `EventStream` and `ProgressStream`
  model objects, tables and loops step by step, and prove statements about all runs.
- **Editor.** `ColumnEdits`, `History`, `TimeSteps`; `TenantSlugs` is a small naming loop.

## Assumptions that are stated, not hidden

- Numbers are exact reals. The host's cosine, sine, pi and square root of two are a parameter; `Trigonometry.Exact`
  lists the identities used, and every theorem that needs them requires it.
- `idLe` stands for the host's string comparison and is required to be a total preorder where sorting matters.
- `QasmPrinter.Codec` says what is used of number formatting and evaluation: digits, sign, point and exponent are the
  only characters, and a text without an exponent is read back as `rounded` of the number.
- `QasmRoundTrip.Editable` collects what the editor hands over: legal, uniquely and non-emptily named operations
  whose operands have the arity of their gate and lie inside the register. The validator checks legality only.
- Absent controls and parameters are empty lists. Integers are unbounded; the simulator admits at most ten qubits, so
  its 32-bit masks cannot wrap.
- A backend gate and a printed statement mean the simulator's gate of the same name.

## Findings

- Printed texts with an exponent are rejected by the parser (`QasmMeaning.ExponentRejected`); the round trip holds
  exactly without one (`QasmRoundTrip.PrintedParses`).
- A second qubit declaration can leave an accepted circuit with operands outside its register
  (`QasmAcceptance.SecondDeclaration`). This happens exactly when some statement names a qubit that is not below the
  size in the last declaration (`QasmAcceptance.AcceptedExactly`), and not with one declaration
  (`QasmAcceptance.AcceptedEditable`).
- The backend's `u` has its last two angles exchanged (`BackendCircuit.UCorrect`); when that matters is settled by
  `Submission.UAgreement` and `Submission.BackendAgreesDirectly`; `Submission.ProbabilitiesDiffer` is a circuit of two
  gates whose outcome it changes from certain to even.
- A superseded request that is already running may end with a timeout or an execution error instead of as stale
  (`Scheduler.SupersededMayTimeOut`); how it ends is settled by `Scheduler.SupersededWhileRunning` and
  `Scheduler.StaleExactly`.
- The validator compares names to find conflicts, so that overlapping operations of one name, or behind one without a
  name, pass (`CircuitValidation.SameNameAccepted`); the exact rule is that of `CircuitValidation.FindCellConflict`,
  and with unique names it is the intended one (`CircuitValidation.NamedCells`).
- A key can stay bound to a cancelled task for ever (`Idempotency.CancelledForever`, and from empty tables
  `Idempotency.CancelledNeverFree`). Without a renewal this happens exactly when the record of the finished task has no
  expiry date (`Idempotency.ForeverExactly`). Workers renew when they finish a task, the cancel request does not; a
  hybrid worker that is running then renews when it notices the cancellation, one that has not started does not.
- Closing a stream from inside a callback does not stop the remaining blocks of the same chunk, so that what a
  subscriber gets can depend on how the network cuts the text (`EventStream.ClosedTooLate`), exactly when the text holds
  more callbacks than the one that closes (`EventStream.SameCallbacksExactly`).
- Retries make the progress stream announce iteration numbers again (`ProgressStream.SecondIterationTwice`,
  `ProgressStream.ThreeAttempts`). A stream is free of repetitions exactly when, for every attempt that announces
  anything, its first sight and the count remembered before it have both reached the largest number announced so far
  (`ProgressStream.NoRepeatsExactly`).

## Model

| member | source | states |
|---|---|---|
| SimulationCore.ApplySingleQubitMatrix | frontend/src/features/circuit/simulation/simulation-core.ts:62-99 | the sweep over pairs, which overwrites amplitudes as it goes, leaves the 2x2 matrix on the target applied to the whole original state |
| SimulationCore.ApplyControlledSingleQubitMatrix | frontend/src/features/circuit/simulation/simulation-core.ts:105-144 | the same where all controls are set, and nothing elsewhere |
| SimulationCore.ApplyTwoQubitMatrix | frontend/src/features/circuit/simulation/simulation-core.ts:146-189 | the sweep over quadruples leaves the controlled 4x4 matrix applied to the whole original state |
| SimulationCore.ApplyOperation | frontend/src/features/circuit/simulation/simulation-core.ts:320-414 | every branch of the dispatch, specialised or general, computes the one operator the gate stands for; a measurement changes nothing |
| SimulationControlled.ApplyControlledX | frontend/src/features/circuit/simulation/simulation-controlled.ts:1-24 | the exchanging sweep equals the general controlled operator with the X matrix |
| SimulationControlled.ApplyControlledZ | frontend/src/features/circuit/simulation/simulation-controlled.ts:26-43 | the sign sweep equals the general controlled operator with the Z matrix |
| SimulationControlled.ApplyControlledPhase | frontend/src/features/circuit/simulation/simulation-controlled.ts:45-67 | the rotating sweep equals the general controlled operator with the phase matrix |
| SimulationControlled.ApplyDoubleControlledX | frontend/src/features/circuit/simulation/simulation-controlled.ts:69-98 | the exchanging sweep equals the general doubly controlled operator with the X matrix |
| SimulationControlled.ApplySwap | frontend/src/features/circuit/simulation/simulation-controlled.ts:100-126 | the exchanging sweep equals the general two-target operator with the 4x4 SWAP matrix |
| Gates.KernelFits | frontend/src/features/circuit/simulation/simulation-core.ts:320-414 | the operator of a well-formed operation has a square matrix of the right size and acts on exactly the operation's qubits |
| GateAlgebra.Compose | frontend/src/features/circuit/simulation/simulation-core.ts:62-99 | two one-qubit matrices in succession act as their product, on every state |
| GateAlgebra.RootsAndInverses | frontend/src/features/circuit/simulation/simulation-core.ts:191-223 | the fixed matrices are related as their names say: sx squared is x, t squared is s, s squared is z, sdg and tdg undo s and t, on every state |
| GateAlgebra.RxFromRz | frontend/src/features/circuit/simulation/simulation-core.ts:225-240 | rx is rz by the same angle between two Hadamards, on every state |
| GateTable.PauliTable | frontend/src/features/circuit/simulation/simulation-core.ts:194-201 | i, x, y and z on any pair of amplitudes that differ in the target bit alone, in plain arithmetic |
| GateTable.HadamardTable | frontend/src/features/circuit/simulation/simulation-core.ts:202-203 | h on such a pair: scaled sum and difference |
| GateTable.SyTable | frontend/src/features/circuit/simulation/simulation-core.ts:206-207 | sy on such a pair: scaled difference and sum |
| GateTable.SxTable | frontend/src/features/circuit/simulation/simulation-core.ts:204-205 | sx on such a pair, which tells it apart from its inverse |
| GateTable.SxIsRotation | frontend/src/features/circuit/simulation/simulation-core.ts:204-232 | with exact trigonometry sx is, at every index of every state, the phase of an eighth of a turn times rx by a quarter turn |
| GateTable.QuarterTable | frontend/src/features/circuit/simulation/simulation-core.ts:208-211 | s and sdg multiply the amplitude with the bit set by i and by minus i |
| GateTable.EighthTable | frontend/src/features/circuit/simulation/simulation-core.ts:212-219 | t and tdg multiply it by the phases of plus and minus an eighth of a turn |
| GateTable.PTable | frontend/src/features/circuit/simulation/simulation-core.ts:261-264 | p multiplies it by the phase of its angle |
| GateTable.RzTable | frontend/src/features/circuit/simulation/simulation-core.ts:239-249 | rz multiplies the two amplitudes by opposite phases of half its angle |
| GateTable.RxTable | frontend/src/features/circuit/simulation/simulation-core.ts:227-232 | rx on a pair of amplitudes |
| GateTable.RyTable | frontend/src/features/circuit/simulation/simulation-core.ts:233-238 | ry on a pair of amplitudes |
| GateTable.UTable | frontend/src/features/circuit/simulation/simulation-core.ts:250-260 | u on a pair of amplitudes, with its three angles in their places |
| GateTable.ControlledPauliTable | frontend/src/features/circuit/simulation/simulation-core.ts:329-379 | cx and cy act as x and y on the target where the control bit is set, and change nothing elsewhere |
| GateTable.ControlledHadamardTable | frontend/src/features/circuit/simulation/simulation-core.ts:333-379 | so do ch and cz as h and z |
| GateTable.ControlledPhaseTable | frontend/src/features/circuit/simulation/simulation-core.ts:337-347 | so does cp as p |
| GateTable.DoubleTable | frontend/src/features/circuit/simulation/simulation-core.ts:348-379 | ccx and ccz act as x and z where both control bits are set, and change nothing elsewhere |
| GateTable.SwapTable | frontend/src/features/circuit/simulation/simulation-core.ts:359-362 | swap exchanges, among four amplitudes that differ in its targets, the two on which the bits differ |
| GateTable.ControlledSwapTable | frontend/src/features/circuit/simulation/simulation-core.ts:380-396 | cswap does so where the control bit is set, and nothing elsewhere |
| GateTable.XxTable | frontend/src/features/circuit/simulation/simulation-core.ts:284-290 | rxx on four amplitudes that differ in its targets |
| GateTable.YyTable | frontend/src/features/circuit/simulation/simulation-core.ts:291-297 | ryy on them |
| GateTable.ZzTable | frontend/src/features/circuit/simulation/simulation-core.ts:298-307 | rzz on them |
| GateTable.ZxTable | frontend/src/features/circuit/simulation/simulation-core.ts:308-314 | rzx on them, with x on the second target |
| GateTable.InOrder | frontend/src/features/circuit/simulation/simulation-core.ts:478-481 | operations run from left to right, and a measurement leaves the state alone |
| Kernels.Commute | frontend/src/features/circuit/simulation/simulation-core.ts:478-481 | operators that share no qubit commute on every state, whatever their matrices and controls |
| OrderIndependence.MoveFront | frontend/src/features/circuit/simulation/simulation-core.ts:478-481 | an operation that shares no qubit with its predecessors can run before them |
| OrderIndependence.SameState | frontend/src/features/circuit/simulation/simulation-core.ts:478-481 | any two arrangements of a circuit that respect the layers, whose layers act on disjoint qubits, compute the same state |
| Conservation.FlipSum | frontend/src/features/circuit/simulation/simulation-core.ts:62-99 | summing over the indices with one bit flipped is summing over the indices |
| Conservation.OneTargetNorm | frontend/src/features/circuit/simulation/simulation-core.ts:105-144 | a controlled isometric matrix on one target keeps the sum of the squared moduli |
| Conservation.OperationNorm | frontend/src/features/circuit/simulation/simulation-core.ts:320-414 | every operation keeps the sum of the squared moduli of every state |
| Conservation.CircuitNorm | frontend/src/features/circuit/simulation/simulation-core.ts:478-481 | so does every list of operations |
| Simulation.FinalNorm | frontend/src/features/circuit/simulation/simulation-core.ts:471-487 | the final state of every circuit has squared norm 1 |
| Simulation.BasisStateLaws | frontend/src/features/circuit/simulation/simulation-core.ts:416-418 | a basis label has one character per qubit and determines its index |
| Simulation.LabelExactly | frontend/src/features/circuit/simulation/simulation-core.ts:416-418 | character n - 1 - q of a label is 1 if bit q of the index is set and 0 otherwise |
| Simulation.BuildProbabilities | frontend/src/features/circuit/simulation/simulation-core.ts:420-433 | one entry per basis state under its label, each the squared modulus of its amplitude, and no other entry |
| Simulation.ProbabilitiesSum | frontend/src/features/circuit/simulation/simulation-core.ts:420-433 | 2^n labels, no negative value, sum 1 |
| Simulation.BuildBlochVectors | frontend/src/features/circuit/simulation/simulation-core.ts:435-469 | one vector per qubit, computed from the paired amplitudes of the state |
| Simulation.HalfSumsBound | frontend/src/features/circuit/simulation/simulation-core.ts:455-463 | Cauchy-Schwarz for the sums the loop accumulates, at every point of the loop |
| Simulation.BlochBound | frontend/src/features/circuit/simulation/simulation-core.ts:435-469 | no Bloch vector of a normalised state is longer than 1 |
| PauliExpectations.BlochIsExpectation | frontend/src/features/circuit/simulation/simulation-core.ts:435-469 | each component is the inner product of the state with the Pauli x, y or z gate on that qubit applied to it |
| PauliExpectations.BlochExactly | frontend/src/features/circuit/simulation/simulation-core.ts:455-466 | x belongs to the x gate, y to the y gate and z to the z gate, with the inner product written out |
| Simulation.Evolve | frontend/src/features/circuit/simulation/simulation-core.ts:476-481 | applying the layer-sorted operations in place leaves the final state in the two arrays |
| Simulation.ListedRuns | frontend/src/features/circuit/simulation/simulation-core.ts:475-481 | a circuit listed by layer runs in the given order from the state whose first amplitude alone is 1 |
| Simulation.SimulateCircuitAnalysis | frontend/src/features/circuit/simulation/simulation-core.ts:471-487 | sizes outside 1 to 10 are rejected; otherwise each label has the sum of the squares of its amplitude of the final state, the Bloch vectors are those of the final state, and with exact trigonometry the probabilities sum to 1 and no Bloch vector is longer than 1 |
| CircuitValidation.ToOccupiedQubits | frontend/src/features/circuit/model/circuit-validation.ts:32-43 | the cells of an operation are exactly the qubits between its lowest and its highest one |
| CircuitValidation.OccupiedExactly | frontend/src/features/circuit/model/circuit-validation.ts:27-43 | in plain terms: a qubit is occupied if and only if it lies between two operands |
| CircuitValidation.FindInvalidMultiQubitOperation | frontend/src/features/circuit/model/circuit-validation.ts:45-56 | nothing is found exactly when no operation repeats a qubit; otherwise the first one that does |
| CircuitValidation.FindCellConflict | frontend/src/features/circuit/model/circuit-validation.ts:58-73 | for any operations, whatever their names: the scan with the map of occupied cells finds nothing if and only if no operation meets a cell last taken under another, non-empty name; what it finds is the first such operation and the cell |
| CircuitValidation.CellsExactly | frontend/src/features/circuit/model/circuit-validation.ts:58-73 | in plain terms: of two operations that follow one another in a cell the first has no name, or both have the same |
| CircuitValidation.NamedCells | frontend/src/features/circuit/model/circuit-validation.ts:58-73 | between uniquely named operations that is the rule that no two operations of a layer have overlapping spans |
| CircuitValidation.SameNameAccepted | frontend/src/features/circuit/model/circuit-validation.ts:66-70 | two operations of one name in one cell: they overlap, and the scan passes them |
| CircuitValidation.FindNonTerminalMeasurement | frontend/src/features/circuit/model/circuit-validation.ts:75-93 | nothing is found exactly when every measurement lies strictly after every other gate |
| CircuitValidation.ValidateCircuitModel | frontend/src/features/circuit/model/circuit-validation.ts:95-135 | a circuit is accepted if and only if no operation repeats a qubit, no cell of the sorted operations is taken, and measurements come last, and each error code has its exact condition and names the first operation that breaks the rule; with unique names, if and only if it is legal |
| CircuitValidation.LegalPermutation | frontend/src/features/circuit/model/circuit-validation.ts:18-25 | legality does not depend on the order in which the operations are listed |
| CircuitValidation.LegalMeansApart | frontend/src/features/circuit/model/circuit-validation.ts:95-135 | legal circuits have distinct operands and layers of disjoint operations |
| QasmStatements.RzzOnQuad | frontend/src/features/circuit/qasm/qasm-bridge.ts:33-39 | cx, rz, cx multiplies each amplitude by a phase that depends on the parity of the two bits |
| Decompositions.SyPreserved | frontend/src/features/circuit/qasm/qasm-bridge.ts:56-59 | ry(pi/2) is sy on every state |
| Decompositions.CczPreserved | frontend/src/features/circuit/qasm/qasm-bridge.ts:96-104 | h, ccx, h is ccz on every state |
| Decompositions.XxPreserved | frontend/src/features/circuit/qasm/qasm-bridge.ts:119-129 | the seven printed statements of rxx are rxx on every state |
| Decompositions.YyPreserved | frontend/src/features/circuit/qasm/qasm-bridge.ts:130-144 | the eleven printed statements of ryy are ryy on every state |
| Decompositions.ZzPreserved | frontend/src/features/circuit/qasm/qasm-bridge.ts:114-118 | the three printed statements of rzz are rzz on every state |
| Decompositions.ZxPreserved | frontend/src/features/circuit/qasm/qasm-bridge.ts:145-153 | the five printed statements of rzx are rzx on every state |
| Decompositions.StatementsPreserve | frontend/src/features/circuit/qasm/qasm-bridge.ts:41-161 | running the printed statements of any well-formed operation has exactly the effect of the operation, on every state |
| QasmPrinter.ToQasm3 | frontend/src/features/circuit/qasm/qasm-bridge.ts:172-185 | the loop that pushes lines produces the text of the sorted statements, or fails exactly when some operation lacks operands |
| QasmTexts.WritesOneQubit | frontend/src/features/circuit/qasm/qasm-bridge.ts:43-55 | the printed text of each gate on one qubit without parameters, by name |
| QasmTexts.WritesAngle | frontend/src/features/circuit/qasm/qasm-bridge.ts:60-71 | of rx, ry, rz and p, with the formatted angle |
| QasmTexts.WritesAngles | frontend/src/features/circuit/qasm/qasm-bridge.ts:72-90 | of u and cp |
| QasmTexts.WritesTwoQubits | frontend/src/features/circuit/qasm/qasm-bridge.ts:77-84 | of cx, cy, ch, cz and swap, with the control first |
| QasmTexts.WritesThreeQubits | frontend/src/features/circuit/qasm/qasm-bridge.ts:92-113 | of ccx and cswap, with the controls first |
| QasmTexts.WritesMeasure | frontend/src/features/circuit/qasm/qasm-bridge.ts:154-157 | of a measurement |
| QasmTexts.WritesLines | frontend/src/features/circuit/qasm/qasm-bridge.ts:172-185 | every statement is followed by a semicolon and a line feed, and these are the four lines of the preamble |
| QasmTexts.WritesOperation | frontend/src/features/circuit/qasm/qasm-bridge.ts:12-31 | printing an operation fails if and only if its targets, or the controls or parameters its gate takes, have the wrong number; a qubit is measured into the bit of its own number |
| QasmParser.ParseStatementLines | frontend/src/features/circuit/qasm/qasm-parser-utils.ts:24-54 | the loop collects the statements of all lines, or reports the first bad line |
| QasmParser.ParseStatements | frontend/src/features/circuit/qasm/qasm-parser.ts:185-252 | the statement loop followed by validation gives the circuit of the statements or the first error |
| QasmParser.ParseQasm3 | frontend/src/features/circuit/qasm/qasm-parser.ts:254-268 | a text is read as its circuit, or rejected with the code of the first error; what lines and statements mean is fixed by the rows that follow |
| QasmLexing.FirstLine | frontend/src/features/circuit/qasm/qasm-parser-utils.ts:26 | lines end with a line feed, with or without a carriage return before it |
| QasmLexing.CommentExactly | frontend/src/features/circuit/qasm/qasm-parser-utils.ts:16-22 | a line is cut at its first two slashes in a row, and nowhere else |
| QasmLexing.StatementLine | frontend/src/features/circuit/qasm/qasm-parser-utils.ts:28-51 | a statement may be indented, spaces may surround its semicolon, and a comment may follow |
| QasmLexing.UnterminatedLine | frontend/src/features/circuit/qasm/qasm-parser-utils.ts:33-42 | a line without a final semicolon is a syntax error |
| QasmLexing.LineWithoutStatement | frontend/src/features/circuit/qasm/qasm-parser-utils.ts:29-50 | so is a semicolon alone; a blank line or a comment is no statement |
| QasmGrammar.HeaderExactly | frontend/src/features/circuit/qasm/qasm-parser-types.ts:38 | the header matcher accepts exactly the texts of its pattern, in any case and with any gap |
| QasmGrammar.IncludeExactly | frontend/src/features/circuit/qasm/qasm-parser-types.ts:39 | so does the matcher of the include |
| QasmGrammar.DeclarationExactly | frontend/src/features/circuit/qasm/qasm-parser-types.ts:40-41 | a register is declared with this name and size if and only if the text fits the pattern |
| QasmGrammar.MeasureGrammar | frontend/src/features/circuit/qasm/qasm-parser-types.ts:42 | a measurement is matched with these four parts if and only if the text fits the pattern |
| QasmGrammar.GateGrammar | frontend/src/features/circuit/qasm/qasm-parser-types.ts:43 | a gate statement is matched with this name, group and operands if and only if the text fits the pattern |
| QasmGrammar.OperandExactly | frontend/src/features/circuit/qasm/qasm-parser-utils.ts:99-125 | an operand is read as qubit i if and only if it is the declared name with index i below the size, up to spaces around it; everything else is an invalid operand |
| QasmErrors.ReadsDeclarations | frontend/src/features/circuit/qasm/qasm-parser.ts:192-210 | header, include and declarations in every state of the reader: a declaration replaces the register |
| QasmErrors.TooEarly | frontend/src/features/circuit/qasm/qasm-parser.ts:89-110 | any other statement before the header or before a qubit declaration is rejected, with the code of what is missing |
| QasmTexts.ReadsOneQubit | frontend/src/features/circuit/qasm/qasm-parser-utils.ts:138-200 | in any case of letters, for every operand and state of the reader: what each name of a gate on one qubit without parameters appends |
| QasmTexts.ReadsTwoQubits | frontend/src/features/circuit/qasm/qasm-parser-utils.ts:138-200 | the same for cx, its alias cnot, cy, ch, cz and swap: the first operand is the control |
| QasmTexts.ReadsThreeQubits | frontend/src/features/circuit/qasm/qasm-parser-utils.ts:138-200 | the same for ccx and cswap |
| QasmTexts.ReadsAngle | frontend/src/features/circuit/qasm/qasm-parser-utils.ts:138-200 | the same for rx, ry, rz, p and u1: u1(l) is u(0, 0, l) |
| QasmTexts.ReadsU | frontend/src/features/circuit/qasm/qasm-parser-utils.ts:138-200 | the same for u, u3 and u2: u2(p, l) is u(pi/2, p, l) |
| QasmTexts.ReadsControlledAngle | frontend/src/features/circuit/qasm/qasm-parser-utils.ts:138-200 | the same for cp |
| QasmTexts.ReadsEmptyGroup | frontend/src/features/circuit/qasm/qasm-parser-utils.ts:93-95 | parentheses that hold nothing but spaces stand for no parameters |
| QasmTexts.CnotActs | frontend/src/features/circuit/qasm/qasm-parser-utils.ts:164-182 | the operation read from cnot q[a], q[b] flips qubit b of every state exactly where qubit a is set |
| QasmTexts.UOneActsAsP | frontend/src/features/circuit/qasm/qasm-parser-utils.ts:145-147 | with exact trigonometry the operation read from u1(l) does to every state what the one read from p(l) does |
| QasmErrors.OperandExactly | frontend/src/features/circuit/qasm/qasm-parser.ts:145-160 | a gate statement is accepted if and only if its operand names the declared register and lies inside it |
| QasmErrors.MeasureExactly | frontend/src/features/circuit/qasm/qasm-parser.ts:55-87 | a measurement is accepted if and only if its qubit lies in the qubit register and, when a bit register is declared, its bit lies in that |
| QasmErrors.UnknownGate | frontend/src/features/circuit/qasm/qasm-parser-utils.ts:155-161 | a name outside the table is an unsupported gate, except two inherited names, which have no arity to match |
| QasmErrors.ParametersCounted | frontend/src/features/circuit/qasm/qasm-parser.ts:126-135 | too many or too few parameters are an invalid parameter |
| QasmErrors.OperandsCounted | frontend/src/features/circuit/qasm/qasm-parser.ts:137-147 | too many or too few operands are an invalid operand |
| QasmErrors.NumbersChecked | frontend/src/features/circuit/qasm/qasm-parser-utils.ts:56-86 | a parameter with a foreign character or a value that is not finite is an invalid parameter, one that cannot be evaluated a syntax error, whatever the gate |
| QasmErrors.LoneWord | frontend/src/features/circuit/qasm/qasm-parser.ts:117-122 | a single word is an unsupported statement |
| QasmErrors.EmptyText | frontend/src/features/circuit/qasm/qasm-parser.ts:229-233 | an empty text lacks the header |
| QasmErrors.HeaderOnly | frontend/src/features/circuit/qasm/qasm-parser.ts:234-238 | a text with nothing but the header lacks the declaration |
| QasmErrors.GateAfterMeasure | frontend/src/features/circuit/qasm/qasm-parser.ts:239-248 | a gate after a measurement makes the circuit invalid |
| QasmLexing.TextStatements | frontend/src/features/circuit/qasm/qasm-parser-utils.ts:24-54 | splitting a printed text into lines and statements gives back exactly the printed statements |
| QasmSteps.Resolves | frontend/src/features/circuit/qasm/qasm-parser-utils.ts:138-162 | the printed name of every directly printed gate is resolved to that gate |
| QasmSteps.NumberList | frontend/src/features/circuit/qasm/qasm-parser-utils.ts:56-97 | a printed parameter list is read as its numbers exactly when none of them has an exponent |
| QasmSteps.OperandList | frontend/src/features/circuit/qasm/qasm-parser-utils.ts:99-125 | a printed operand list is read as its qubits |
| QasmSteps.GateFormMatches | frontend/src/features/circuit/qasm/qasm-parser-types.ts:42-43 | a printed gate statement matches the gate grammar with its own three parts, and not the measurement grammar |
| QasmSteps.GateStep | frontend/src/features/circuit/qasm/qasm-parser.ts:112-160 | reading one printed gate appends exactly the operation it describes, or fails on an exponent |
| QasmSteps.MeasureStep | frontend/src/features/circuit/qasm/qasm-parser.ts:55-87 | reading one printed measurement appends exactly that measurement |
| QasmReading.PreambleSteps | frontend/src/features/circuit/qasm/qasm-parser.ts:192-210 | the four preamble lines leave the header seen and both registers declared with their sizes |
| QasmRoundTrip.Compiles | frontend/src/features/circuit/qasm/qasm-bridge.ts:172-185 | every legal, well-formed circuit prints, and prints only statements the parser knows |
| QasmRoundTrip.CompilesInOrder | frontend/src/features/circuit/qasm/qasm-bridge.ts:163-185 | once a measurement is printed only measurements follow |
| QasmRoundTrip.NumberedLegal | frontend/src/features/circuit/qasm/qasm-parser.ts:239-248 | the operations read back, one a layer, are legal and well-formed |
| QasmRoundTrip.PrintedParses | frontend/src/features/circuit/qasm/qasm-parser.ts:185-252 | printing any editable circuit succeeds; the text is read back, as a legal circuit, if and only if no printed number has an exponent, and is rejected with an invalid parameter otherwise |
| QasmMeaning.RoundTripState | frontend/src/features/circuit/qasm/qasm-bridge.ts:172-189 | the circuit read back has the final state of the original circuit with its numbers replaced by those of the text |
| QasmMeaning.RoundTripExact | frontend/src/features/circuit/qasm/qasm-bridge.ts:172-189 | with exact numerals it has the very state of the original circuit |
| QasmMeaning.DirectRoundTrip | frontend/src/features/circuit/qasm/qasm-parser-utils.ts:164-200 | circuits of directly printed gates come back unchanged, in sorted order, on layers 0, 1, 2 and so on |
| QasmMeaning.PrintedAgain | frontend/src/features/circuit/qasm/qasm-bridge.ts:172-185 | printing the circuit read back reproduces the text |
| QasmMeaning.PrintThenParse | frontend/src/features/circuit/qasm/qasm-bridge.ts:172-189 | all of these together, for one text |
| QasmMeaning.ExponentRejected | frontend/src/features/circuit/qasm/qasm-parser-utils.ts:61-71 | for every host that prints one ten-millionth as 1e-7, the text of a circuit with that angle is rejected |
| QasmMeaning.TinyCodec | frontend/src/features/circuit/qasm/qasm-bridge.ts:5-10 | hosts that meet these assumptions and print one ten-millionth as 1e-7 exist |
| QasmAcceptance.AcceptedExactly | frontend/src/features/circuit/qasm/qasm-parser.ts:185-252 | for every accepted text, with any number of declarations: the circuit has the size of the last qubit declaration, and it is legal, uniquely named and well-formed if and only if every operation statement names qubits below that size only |
| QasmAcceptance.AcceptedEditable | frontend/src/features/circuit/qasm/qasm-parser.ts:185-252 | so a text with at most one qubit declaration is accepted only as a legal, uniquely named, well-formed circuit |
| QasmAcceptance.SecondDeclaration | frontend/src/features/circuit/qasm/qasm-parser.ts:201-209 | an input on which the condition can fail: one x gate followed by a second declaration is accepted, and the circuit is well-formed if and only if the gate's qubit lies in the later register |
| Submission.PayloadComplete | frontend/src/features/circuit/submission/circuit-task-submit.ts:47-125 | every editable circuit has a payload, with the gate, operands and parameters of its sorted operations |
| Submission.PayloadExactly | frontend/src/features/circuit/submission/circuit-task-submit.ts:47-125 | of any circuit: there is no payload if and only if some operation has the wrong number of operands or parameters; otherwise its entries are the sorted operations without the fields their gates do not take |
| BackendCircuit.ToffoliCorrect | backend/app/services/circuit_execution.py:82-100 | the fifteen gates for ccx act as the doubly controlled flip on every state and every choice of three distinct qubits |
| BackendCircuit.ControlledPhaseCorrect | backend/app/services/circuit_execution.py:74-81 | the five gates for cp act as the controlled phase up to the global phase of minus a quarter of the angle |
| BackendCircuit.PhaseCorrect | backend/app/services/circuit_execution.py:104-106 | rz acts as p up to the global phase of minus half the angle |
| BackendCircuit.UCorrect | backend/app/services/circuit_execution.py:107-112 | rz, ry, rz acts, up to a global phase, as the simulator's u with the last two angles exchanged |
| BackendCircuit.BackendCorrect | backend/app/services/circuit_execution.py:42-139 | up to one global phase the gates added for any operation have the effect of the executed operation |
| BackendCircuit.BuildCircuit | backend/app/services/circuit_execution.py:42-144 | the payload loop collects the gates of all operations; when the payload measures nothing, exactly one measurement of each qubit, in order, follows the gates and nothing else is measured, and otherwise the measurements are exactly those of the payload, in its order |
| BackendCircuit.BackendCircuitCorrect | backend/app/services/circuit_execution.py:42-144 | the whole gate list acts as the circuit of executed operations up to one global phase, on every state |
| BackendCircuit.PhaseIsUnit | backend/app/services/circuit_execution.py:42-144 | that phase has modulus 1 and changes no squared modulus |
| Submission.BackendAgrees | backend/app/services/circuit_execution.py:42-144 | for every editable circuit the backend's state for the submitted payload has the simulator's probabilities, once the last two angles of each u are exchanged |
| Submission.BackendAgreesDirectly | backend/app/services/circuit_execution.py:42-144 | if the angles of every u may be exchanged without effect, the probabilities agree as they stand |
| Submission.UAgreement | backend/app/services/circuit_execution.py:107-112 | u with the last two angles exchanged is the same gate up to a global phase if and only if the stated condition on the angles holds |
| Submission.UDiffers | backend/app/services/circuit_execution.py:107-112 | an input on which it is not: no phase relates the backend's u(pi/2, 0, pi/2) to the simulator's |
| Submission.ProbabilitiesDiffer | backend/app/services/circuit_execution.py:107-112 | a circuit on which the probabilities differ: after that gate and an h the simulator has the first outcome with probability 1, the backend with one half |
| Scheduler.SimulationScheduler.CancelPending | frontend/src/features/circuit/simulation/scheduler.ts:88-95 | the pending request is rejected as stale and its timer cleared; nothing else changes |
| Scheduler.SimulationScheduler.ScheduleRun | frontend/src/features/circuit/simulation/scheduler.ts:97-129 | a call raises the version, cancels the pending request, and arms the timer of the new one |
| Scheduler.SimulationScheduler.OnTimer | frontend/src/features/circuit/simulation/scheduler.ts:103-109 | the timer clears the pending slot and calls the runner, which may throw at once |
| Scheduler.SimulationScheduler.OnRunner | frontend/src/features/circuit/simulation/scheduler.ts:52-60 | the runner settling first wakes the request with its outcome |
| Scheduler.SimulationScheduler.OnTimeout | frontend/src/features/circuit/simulation/scheduler.ts:47-49 | the timeout firing first wakes the request with a timeout error |
| Scheduler.SimulationScheduler.OnResume | frontend/src/features/circuit/simulation/scheduler.ts:110-126 | the code after the await settles the request: its error, stale, the runner's error, or the result |
| Scheduler.StepInv | frontend/src/features/circuit/simulation/scheduler.ts:81-132 | every step of every interleaving keeps the scheduler's invariant |
| Scheduler.OneTimer | frontend/src/features/circuit/simulation/scheduler.ts:81-132 | in every reachable state at most one debounce timer is armed, and it is the newest request's |
| Scheduler.SettlesOnce | frontend/src/features/circuit/simulation/scheduler.ts:102-128 | what a request was settled with stays in every continuation |
| Scheduler.StepPhase | frontend/src/features/circuit/simulation/scheduler.ts:103-122 | a request resolves or runs only while it is the newest |
| Scheduler.ResolvedInOrder | frontend/src/features/circuit/simulation/scheduler.ts:110-126 | the versions of resolved requests strictly increase |
| Scheduler.Superseded | frontend/src/features/circuit/simulation/scheduler.ts:97-129 | a superseded request never resolves any more, and never runs if it has not run |
| Scheduler.SupersededWhileWaiting | frontend/src/features/circuit/simulation/scheduler.ts:88-100 | a request superseded before its timer fires is stale at once and never run |
| Scheduler.SupersededWhenWoken | frontend/src/features/circuit/simulation/scheduler.ts:110-125 | over every run, a superseded request whose race is decided is settled if and only if it is resumed, as stale after an answer and with the error otherwise |
| Scheduler.SupersededWhileRunning | frontend/src/features/circuit/simulation/scheduler.ts:110-125 | over every run from the moment it is superseded, a running request ends with the timeout if that comes first, as stale if the runner answers, and with the error the runner throws |
| Scheduler.StaleExactly | frontend/src/features/circuit/simulation/scheduler.ts:110-125 | so it ends as stale if and only if it is resumed after an answer, or after the runner threw that very error |
| Scheduler.SupersededMayTimeOut | frontend/src/features/circuit/simulation/scheduler.ts:110-125 | a concrete run in which a superseded request ends with a timeout |
| Scheduler.CallbacksBounded | frontend/src/features/circuit/simulation/scheduler.ts:81-132 | a run delivers at most three callbacks per call |
| Scheduler.NobodyForgotten | frontend/src/features/circuit/simulation/scheduler.ts:81-132 | a request is settled exactly when no timer, timeout or resumption is left for it |
| Scheduler.NewestEnds | frontend/src/features/circuit/simulation/scheduler.ts:52-125 | how the newest request ends, however the callbacks of other requests interleave and whatever follows: it resolves with the runner's result, or is rejected with the runner's error message, with the error it throws, or with the timeout, whichever decides |
| Scheduler.CallExactly | frontend/src/features/circuit/simulation/scheduler.ts:97-129 | everything a call changes: the pending request is stale, the new one has the only timer |
| Scheduler.TimerExactly | frontend/src/features/circuit/simulation/scheduler.ts:103-126 | everything the debounce timer changes: the runner is called once; if it throws at once the request is rejected with that error in every continuation |
| TaskLifecycle.StartTaskAttempt | backend/app/services/task_lifecycle.py:36-47 | starting sets running, counts the attempt, keeps the first start time; terminal rows refuse |
| TaskLifecycle.MarkTaskSuccess | backend/app/services/task_lifecycle.py:49-58 | success stores the result, clears the error and closes the row; terminal rows refuse |
| TaskLifecycle.MarkTaskProgress | backend/app/services/task_lifecycle.py:60-65 | progress stores a partial result; terminal rows refuse |
| TaskLifecycle.MarkTaskCancelled | backend/app/services/task_lifecycle.py:67-76 | cancelling closes the row, does nothing on a cancelled one, and is refused by other terminal rows |
| TaskLifecycle.MarkErrorTerminal | backend/app/services/task_lifecycle.py:93-110 | an error status stores the error, drops the result and closes the row; terminal rows refuse |
| TaskLifecycle.OpenRow | backend/app/services/task_lifecycle.py:36-110 | every column of a pending or running row after each of the seven calls |
| TaskLifecycle.TerminalRow | backend/app/services/task_lifecycle.py:67-114 | a terminal row accepts only the cancelling of a cancelled one, and no call changes it |
| TaskLifecycle.ReachableCoherent | backend/app/services/task_lifecycle.py:36-114 | whatever calls a new row receives: finish time exactly in terminal rows, start time exactly after an attempt, durations never negative, result without error on success, error without result on error |
| TaskLifecycle.TerminalIsFinal | backend/app/services/task_lifecycle.py:112-114 | no sequence of calls changes a terminal row |
| TaskLifecycle.RunMonotone | backend/app/services/task_lifecycle.py:36-47 | attempts never decrease, a start time never moves, no row becomes pending again |
| TaskLifecycle.CancelledKeepsProgress | backend/app/services/task_lifecycle.py:60-76 | the last report before a cancellation stays stored with the cancelled task |
| RetryingWorker.RunTask | backend/app/worker/tasks.py:58-104 | the retry loop ends with measure max_retries + 1 - attempt_count; final row, error code and delays are those of the first attempt that is not retried; the expiry of the idempotency records is renewed once, after the final transition; a terminal row is refused and renews nothing |
| RetryingWorker.LastAttempt | backend/app/worker/circuit_tasks.py:54-93 | every attempt before the last is retried, the last is not, and the budget bounds it |
| RetryingWorker.FinalStatus | backend/app/worker/tasks.py:72-104 | the final status is decided by the last attempt alone: success, timeout, exhausted or failure, each exactly under its condition |
| RetryingWorker.ErrorStored | backend/app/worker/circuit_tasks.py:68-92 | the final status, stored code and stored message for every kind of error, in either worker |
| RetryingWorker.FreshTask | backend/app/worker/tasks.py:58-104 | a new task ends terminal after one to max_retries + 1 attempts with a coherent row |
| RetryingWorker.ExhaustedExactly | backend/app/services/retry_policy.py:22-32 | a new task ends exhausted if and only if all of its max_retries + 1 attempts raise retryable errors that are no timeouts |
| RetryingWorker.DelaysFollowSchedule | backend/app/services/retry_policy.py:34-38 | successive delays follow the backoff schedule and then repeat its last entry |
| Idempotency.FindRecord | backend/app/services/idempotency_service.py:83-89 | the query finds a record of the key exactly when there is one |
| Idempotency.IdempotencyTables.ResolveExistingTask | backend/app/services/idempotency_service.py:17-40 | resolution returns the live or unexpired task, revives or drops the record, in every branch |
| Idempotency.IdempotencyTables.BindTaskKey | backend/app/services/idempotency_service.py:42-67 | binding inserts a record, accepts its own, and refuses one of another task |
| Idempotency.ResolveExactly | backend/app/services/idempotency_service.py:17-40 | what a resolution returns and stores in every case: missing task, unfinished or finished task, before or after the expiry |
| Idempotency.BindExactly | backend/app/services/idempotency_service.py:42-67 | what a binding returns and stores in every case: own record, record of another task, no record |
| Idempotency.IdempotencyTables.RefreshTerminalTtl | backend/app/services/idempotency_service.py:69-81 | the loop renews the expiry of exactly the records of the task |
| Idempotency.IdempotencyTables.CleanupExpiredRecords | backend/app/services/idempotency_cleanup.py:10-29 | the loop deletes exactly the rows the query answered |
| Idempotency.IdempotencyTables.SubmitTask | backend/app/services/task_submit_service.py:33-96 | a submission cleans up, deduplicates, or creates, binds and dispatches a task, with every failure path; what is stored is fixed by SubmissionStores and DeduplicationStores |
| Idempotency.SubmitInv | backend/app/services/task_submit_service.py:33-78 | a submission keeps the invariant of the tables and never finds its key bound to another task |
| Idempotency.DispatchInv | backend/app/services/task_submit_dispatch_service.py:33-58 | so does a dispatch, whether it fails or not |
| Idempotency.SubmissionStores | backend/app/services/task_submit_service.py:33-96 | for every submission that is not deduplicated: overload creates nothing; a queued task is one pending row; a refused one is PublishFailed, and its row is a failure with QUEUE_PUBLISH_ERROR, the message and the time of the failure; the key gets one record that expires the time to live after the submission, or after the failure; all other rows stay, all other records stay or were expired records of finished tasks |
| Idempotency.DeduplicationStores | backend/app/services/task_submit_service.py:38-55 | for every deduplicated submission: no row changes, the record of the key loses its expiry date exactly when it has expired and the task is unfinished, and other records stay or were expired records of finished tasks |
| Idempotency.RefusedKey | backend/app/services/task_submit_dispatch_service.py:33-58 | whatever happens in between except a renewal or another submission of the key: until the time to live after the failure a resubmission returns the failed task, and from then on it creates a new one |
| Idempotency.RenewalStores | backend/app/services/idempotency_service.py:69-81 | a renewal changes expiry and update time of the records of the task, and nothing else |
| Idempotency.OneTaskPerKey | backend/app/services/idempotency_service.py:17-67 | over every run a key has at most one record and at most one unfinished task |
| Idempotency.NeverAlreadyBound | backend/app/services/idempotency_service.py:52-53 | over every run the error of a key bound to another task is unreachable |
| Idempotency.RepeatedSubmission | backend/app/services/task_submit_service.py:38-55 | a submission returns an earlier task if and only if the key is bound to it and the task is unfinished or the binding unexpired; it then creates nothing |
| Idempotency.LiveTaskAnswers | backend/app/services/task_submit_service.py:38-55 | as long as a keyed task is unfinished its key answers with it, whatever happened in between |
| Idempotency.CleanupIsInvisible | backend/app/services/idempotency_cleanup.py:14-28 | cleanup changes no resolution at that time, and a batch that is not full leaves nothing to clean |
| Idempotency.RenewedUntil | backend/app/services/idempotency_service.py:69-81 | a renewed binding of a finished task holds if and only if the time to live has not passed |
| Idempotency.FinishedTaskAnswers | backend/app/services/idempotency_service.py:35-40 | until then every resubmission returns the finished task, whatever else happens, unless the binding is renewed |
| Idempotency.NeverAfterExpiry | backend/app/services/idempotency_service.py:35-40 | from its expiry on, a finished task whose binding is not renewed is returned by no submission, whatever happens |
| Idempotency.ForeverExactly | backend/app/services/idempotency_service.py:17-40 | when a task has finished and its binding is not renewed, its key answers with it for ever if and only if the record it leaves behind has no expiry date |
| Idempotency.CancelledForever | backend/app/services/task_query_service.py:163-172 | how such a record comes about: a key resubmitted after its expiry while the task is live, and then cancelled by request, answers with the cancelled task at every later time |
| Idempotency.CancelledNeverFree | backend/app/services/task_query_service.py:163-172 | a run of three steps from empty tables after which a key answers with a cancelled task for ever |
| Idempotency.RunStatus | backend/app/services/task_lifecycle.py:112-114 | a finished task stays as it is through every step of the protocol |
| EventStream.SplitResumes | frontend/src/api/task-stream.ts:101-103 | splitting a text is splitting a prefix, keeping its last piece, and splitting that piece followed by the rest, even inside the blank line |
| EventStream.ParseEventBlock | frontend/src/api/task-stream.ts:22-55 | the line loop takes the last event name and all data, and throws exactly when the data are no JSON |
| EventStream.Subscribe | frontend/src/api/task-stream.ts:82-117 | the read loop stops at the first chunk after which a block has thrown or a callback has closed the connection, and delivers what the text read so far delivers; without a close that is what the whole text delivers, however it was cut |
| EventStream.CutFreeExactly | frontend/src/api/task-stream.ts:96-107 | when callback number n closes the connection, all cuts of a text into chunks deliver the same if and only if no complete block after that callback delivers or throws |
| EventStream.SameCallbacksExactly | frontend/src/api/task-stream.ts:96-117 | the subscriber notices the same for all cuts of a text if and only if the text holds at most n callbacks |
| EventStream.ClosedTooLate | frontend/src/api/task-stream.ts:96-107 | one text and two cuts: closing on the first event still delivers the second one if both came in one chunk, and only then |
| EventStream.SentArrives | backend/app/api/task_center_presenters.py:15-16 | every event the server formats arrives once and in order, with its name and data |
| EventStream.OneEvent | frontend/src/api/task-stream.ts:44-56 | the text of one event, and the callback it makes: status events always, heartbeats and iterations only with their callback, nothing for other names |
| EventStream.BlockExactly | frontend/src/api/task-stream.ts:21-42 | a block without data is nothing, one whose joined data are no JSON throws, and any other is a message named by its last event line, or message without one |
| ProgressStream.VersionRoundTrip | backend/app/services/task_event_stream_service.py:178-187 | the iteration survives joining and splitting the version, whatever the other fields contain |
| ProgressStream.LatestIteration | backend/app/services/task_event_stream_service.py:80-107 | the iteration in a version is the largest number of the trace, or the current iteration of a trace without numbers |
| ProgressStream.SameVersionExactly | backend/app/services/task_event_stream_service.py:62-71 | two rows have one version if and only if status, update time, attempts, duration and iteration agree |
| ProgressStream.ToHybridIterationPayloads | backend/app/services/task_event_stream_service.py:109-176 | the loop collects, sorts and, failing that, falls back to the current iteration |
| ProgressStream.PayloadsExactly | backend/app/services/task_event_stream_service.py:109-176 | what a row announces: one payload for each complete new entry, by iteration, with the gap computed where it is missing; without any, the current iteration if it is new and complete |
| ProgressStream.IterationsInOrder | backend/app/services/task_event_stream_service.py:41-48 | iterations are sent for changed rows only, in the order of the rows |
| ProgressStream.ListChangedTasks | backend/app/services/task_event_stream_service.py:28-49 | changed holds exactly one payload, with id, status, update time, duration and attempts, for every row whose version is not the remembered one, in row order; from no versions that is every row; the new versions are remembered beside those of other tasks |
| ProgressStream.NewIterations | backend/app/services/task_event_stream_service.py:109-176 | a row with k iterations after a version with s of them yields exactly iterations s + 1 to k |
| ProgressStream.ExactlyOnce | backend/app/services/task_event_stream_service.py:28-176 | over any schedule of polls, some missing the task, the iterations sent are consecutive, without gap or repetition, up to the last sight of the task |
| ProgressStream.StreamFromStart | backend/app/services/task_event_stream_service.py:28-176 | from the start of a stream they are exactly iterations 1 to the last count seen |
| ProgressStream.SecondPollSilent | backend/app/services/task_event_stream_service.py:41-49 | a poll that sees the same rows again sends nothing |
| ProgressStream.RetryAnnounced | backend/app/services/task_event_stream_service.py:40-48 | a retry that is first seen with k iterations, no more than the previous attempt had, is announced over any later schedule from iteration k + 1 to the last count seen |
| ProgressStream.AttemptAnnounced | backend/app/services/task_event_stream_service.py:40-48 | what any attempt adds, whatever was remembered before it: the iterations behind its first sight or behind the remembered count, whichever is lower, up to its last sight |
| ProgressStream.RetryRepeats | backend/app/services/task_event_stream_service.py:40-48 | an attempt announces a number up to any given one if and only if it starts below it and grows beyond its start; with the largest number announced before, this says when it repeats one |
| ProgressStream.StreamNumbers | backend/app/services/task_event_stream_service.py:28-176 | over any list of attempts and any schedule of polls, the numbers announced are determined by the counts at the first and the last sight of each attempt |
| ProgressStream.NoRepeatsExactly | backend/app/services/task_event_stream_service.py:28-176 | a whole stream, with the final rows of a failed task, announces no number twice if and only if every attempt that announces anything starts behind the largest number announced before it |
| ProgressStream.ThreeAttempts | backend/app/services/task_event_stream_service.py:40-48 | a concrete schedule of three attempts announces 1 to 5, 2 and 3 |
| ProgressStream.SecondIterationTwice | backend/app/services/task_event_stream_service.py:40-48 | a concrete schedule of two attempts: five iterations, then one and two of the retry, announces 1 to 5 and 2 |
| ProgressStream.FailedAttempt | backend/app/services/task_event_stream_service.py:109-121 | the final row of a failed attempt, whose result is dropped, adds nothing to what was announced |
| ColumnEdits.NormalizeIdempotent | frontend/src/features/circuit/model/circuit-model.ts:59-67 | normalising twice is normalising once |
| ColumnEdits.NormalizeExactly | frontend/src/features/circuit/model/circuit-model.ts:32-67 | the normal form holds the same operations under their names or numbers, in (layer, id) order |
| ColumnEdits.InsertExactly | frontend/src/features/circuit/model/circuit-model.ts:117-135 | insertion moves exactly the operations at or behind the column, by the count cut off towards zero |
| ColumnEdits.DeleteExactly | frontend/src/features/circuit/model/circuit-model.ts:165-175 | deletion moves exactly the operations behind the columns back |
| ColumnEdits.DeleteFails | frontend/src/features/circuit/model/circuit-model.ts:147-164 | a failing deletion reports the range, or the first operation in the columns |
| ColumnEdits.QubitsExactly | frontend/src/features/circuit/model/circuit-model.ts:197-254 | the new qubit count, the boundary errors, and the first operation that blocks shrinking |
| ColumnEdits.DeleteSucceeds | frontend/src/features/circuit/model/circuit-model.ts:137-176 | deletion succeeds if and only if the columns exist and are empty; otherwise the range error or an operation in the columns is reported |
| ColumnEdits.InsertThenDelete | frontend/src/features/circuit/model/circuit-model.ts:117-176 | inserting columns and deleting them again restores the normal form |
| ColumnEdits.DeleteThenInsert | frontend/src/features/circuit/model/circuit-model.ts:117-176 | deleting columns and inserting them again restores the normal form |
| ColumnEdits.InsertKeeps | frontend/src/features/circuit/model/circuit-model.ts:117-135 | insertion keeps an editable circuit editable and keeps its final state |
| ColumnEdits.DeleteKeeps | frontend/src/features/circuit/model/circuit-model.ts:137-176 | successful deletion keeps an editable circuit editable and keeps its final state |
| ColumnEdits.DecreaseKeeps | frontend/src/features/circuit/model/circuit-model.ts:222-254 | shrinking succeeds if and only if the count is above the minimum and no operation touches the last qubit; the result is editable |
| ColumnEdits.IncreaseThenDecrease | frontend/src/features/circuit/model/circuit-model.ts:202-254 | adding a qubit and taking it away restores the normal form |
| History.StepRefines | frontend/src/features/circuit/model/history.ts:41-87 | push, undo and redo are moves on one timeline with a cursor |
| History.PushExactly | frontend/src/features/circuit/model/history.ts:18-57 | a change to an equal state is none; any other becomes the present, forgets the future and keeps the latest states up to the limit |
| History.UndoRedoExactly | frontend/src/features/circuit/model/history.ts:59-87 | undo and redo move one state across the present, and do nothing when there is none |
| History.PushThenUndo | frontend/src/features/circuit/model/history.ts:41-72 | undo after a change brings the state before it back, and keeps the change for redo |
| History.UndoRedo | frontend/src/features/circuit/model/history.ts:59-87 | undo and redo undo each other |
| History.UndoManyRedoMany | frontend/src/features/circuit/model/history.ts:59-87 | as many redos as undos lead back |
| History.RunBounded | frontend/src/features/circuit/model/history.ts:18-87 | every run keeps the limit on past and future together, and that neighbours on the timeline differ |
| History.Reachable | frontend/src/features/circuit/model/history.ts:18-87 | so both hold in every state that is reachable from a new history |
| TimeSteps.SlicePartition | frontend/src/features/circuit/ui/workbench-time-step.ts:25-45 | executed and future operations partition the circuit |
| TimeSteps.SliceExactly | frontend/src/features/circuit/ui/workbench-time-step.ts:21-36 | the executed operations are the first ones in (layer, id) order, as many as the step allows |
| TimeSteps.SliceEditable | frontend/src/features/circuit/ui/workbench-time-step.ts:25-36 | every slice of an editable circuit is editable |
| TimeSteps.NextStep | frontend/src/features/circuit/ui/workbench-time-step.ts:25-36 | one step further applies exactly the next gate of the sorted circuit to the simulated state |
| TimeSteps.FirstAndLast | frontend/src/features/circuit/ui/workbench-time-step.ts:25-36 | the first slice has the ground state, the last the state of the circuit |
| TimeSteps.ClampLaws | frontend/src/features/circuit/ui/workbench-time-step.ts:47-57 | the step after an edit, in every case: at the end if it was there, put if it can, and in range; clamping again changes nothing |
| TenantSlugs.EnsureUniqueTenantSlug | backend/app/services/tenant_naming.py:21-29 | the loop ends on every finite set of slugs; the result is free, is the base if that is free, and otherwise has the least free suffix |
| TenantSlugs.CandidateInjective | backend/app/services/tenant_naming.py:27-28 | candidates with different suffixes differ |
| TenantSlugs.CandidateExactly | backend/app/services/tenant_naming.py:27-28 | a candidate is a beginning of the base without dashes at its end, or the word tenant, then a dash and the number; the beginning leaves room for the suffix in 64 characters |
| TenantSlugs.CandidateFits | backend/app/services/tenant_naming.py:27-28 | a suffixed slug respects the length limit as long as the suffix leaves room for the word tenant |

## Left out

- Floating-point rounding, `toFixed` digits, the expression evaluator behind a parameter, and Unicode case folding.
- Line numbers, excerpts and messages of parse errors; only their codes are modelled.
- QasmParser.ParseStatementLines: statements carry no line numbers and excerpts, and errors no position.
- QasmParser.ParseStatements: errors are reduced to their codes; messages, lines and excerpts are omitted.
- QasmParser.ParseQasm3: the order in which one text's several errors are reported is that of the code, but a failing evaluation and an unknown exception share the code for a syntax error.
- SimulationCore.ApplyOperation: requires operands of the right arity, in range and distinct; the code checks none of these.
- Simulation.Evolve: requires the same.
- Simulation.SimulateCircuitAnalysis: requires operands of the right arity, in range and distinct, which the simulator does not check.
- CircuitValidation.ValidateCircuitModel: messages are omitted.
- BackendCircuit.BackendCircuitCorrect: Qibo's own gates, its qubit order and the sampling of shots are not part of this model, nor are counts and the probabilities computed from them.
- Submission.BackendAgrees: compares squared moduli of state vectors, not sampled counts; Qibo's qubit order is omitted.
- Submission.BackendAgreesDirectly: compares squared moduli of state vectors, not sampled counts.
- The key derived from a payload fingerprint (`fnv1a32`), and gate names the payload builder does not know.
- RetryingWorker.RunTask: the renewal of the idempotency records is the list of its times, the records themselves are in Idempotency; it assumes no cancellation from outside while the loop runs, and the store accepting every commit; the hybrid worker with its progress callbacks is left out.
- TaskLifecycle.ReachableCoherent: elapsed time is exact; the code multiplies floating-point seconds by 1000.
- Idempotency.OneTaskPerKey: service calls are atomic; two sessions racing between query and insert, and crashes between commits, are left out, and so are command validation and key normalisation.
- Idempotency.IdempotencyTables.SubmitTask: the command is taken as validated and its key as normalised.
- EventStream.Subscribe: callbacks that throw and transport errors are not modelled, a close is the act of one numbered callback; aborting the request from outside a callback is not modelled, and decoding bytes to text is left to the host. The code joins several data lines without a line feed, unlike section 9.2.6 of the HTML Living Standard; the model follows the code.
- ProgressStream.ExactlyOnce: is about one attempt whose trace only grows; retries and failed attempts are the subject of StreamNumbers and NoRepeatsExactly, for which the polls of one attempt come before those of the next.
- ProgressStream.ToHybridIterationPayloads: booleans, which Python counts as integers, and non-numeric objectives are not modelled.
- ColumnEdits.InsertThenDelete: counts that are no numbers or infinite are not modelled.
- TenantSlugs.EnsureUniqueTenantSlug: builds on a given base slug; deriving the base from a free-form name is left out.
- History.RunBounded: the limit is the same for all pushes of a run.
- React components, drawing, templates, authentication, metrics, HTTP routing, Celery, Redis and the sandbox.
