/** Printing a circuit and reading the text back. */
module QasmRoundTrip {
  import opened Options
  import opened Text
  import opened Bits
  import opened Circuits
  import opened Sorting
  import opened OrderIndependence
  import opened CircuitValidation
  import opened QasmStatements
  import opened QasmPrinter
  import opened QasmParser
  import opened QasmLexing
  import opened QasmReading
  import opened QasmSteps

  // ----- statements the printer produces

  predicate GoodStmt(s: Stmt, n: nat) {
    match s
    case MeasureStmt(b, q) => b == q < n
    case GateStmt(g, params, operands) => GoodGate(g, params, operands, n)
  }

  predicate AllGood(stmts: seq<Stmt>, n: nat) {
    forall k :: 0 <= k < |stmts| ==> GoodStmt(stmts[k], n)
  }

  function RoundStmt(h: Numerals, s: Stmt): Stmt {
    match s
    case MeasureStmt(_, _) => s
    case GateStmt(g, params, operands) => GateStmt(g, Rounded(h, params), operands)
  }

  function RoundAll(h: Numerals, stmts: seq<Stmt>): (r: seq<Stmt>)
    ensures |r| == |stmts| && forall k :: 0 <= k < |r| ==> r[k] == RoundStmt(h, stmts[k])
  {
    if stmts == [] then [] else [RoundStmt(h, stmts[0])] + RoundAll(h, stmts[1..])
  }

  /** The operation read from statement number `k`. */
  function ReadBack(h: Numerals, s: Stmt, k: nat): Operation {
    QasmStatements.Meaning(RoundStmt(h, s)).(id := OperationId(k), layer := k - 1)
  }

  function Numbered(h: Numerals, stmts: seq<Stmt>, k: nat): (r: seq<Operation>)
    ensures |r| == |stmts| && forall i :: 0 <= i < |r| ==> r[i] == ReadBack(h, stmts[i], k + i)
  {
    if stmts == [] then [] else [ReadBack(h, stmts[0], k)] + Numbered(h, stmts[1..], k + 1)
  }

  predicate StmtPlain(h: Numerals, s: Stmt) {
    s.GateStmt? ==> NumbersPlain(h, s.params)
  }

  predicate AllPlain(h: Numerals, stmts: seq<Stmt>) {
    forall k :: 0 <= k < |stmts| ==> StmtPlain(h, stmts[k])
  }

  lemma ReadGate(h: Numerals, g: GateName, params: seq<real>, operands: seq<nat>, k: nat)
    requires k >= 1 && |params| == ParamCount(g) && |operands| == TargetCount(g) + ControlCount(g) && HasStatement(g)
    ensures ToOperation(g, Rounded(h, params), operands, k) == ReadBack(h, GateStmt(g, params, operands), k)
  {
    hide OperationId, Rounded, TargetCount, ControlCount, ParamCount, HasStatement;
    ParsedArity(g);
    if ControlCount(g) == 0 {
      assert operands[..0] == [] && operands[0..] == operands;
      assert g == SWAP ==> operands == [operands[0], operands[1]] && Rounded(h, params) == [];
      assert g != SWAP ==> operands == [operands[0]];
    }
  }

  lemma ParsedArity(g: GateName)
    requires HasStatement(g)
    ensures g == SWAP ==> TargetCount(g) == 2 && ParamCount(g) == 0
    ensures g != SWAP && ControlCount(g) == 0 ==> TargetCount(g) == 1
  {}

  lemma StmtStep(h: Numerals, pi: real, n: nat, ops: seq<Operation>, s: Stmt)
    requires Codec(h) && GoodStmt(s, n)
    ensures Step(h, pi, Opened(n, ops), Body(h, s)) ==
      if StmtPlain(h, s) then Success(Opened(n, ops + [ReadBack(h, s, |ops| + 1)]))
      else Failure(QasmParser.ErrorCode.InvalidParameter)
  {
    hide Step, Body, Codec, NumbersPlain, OperationId, Within, Distinct, Opened;
    match s
    case MeasureStmt(b, q) =>
      MeasureStep(h, pi, n, ops, b, q);
    case GateStmt(g, params, operands) =>
      GateStep(h, pi, n, ops, g, params, operands);
      ReadGate(h, g, params, operands, |ops| + 1);
  }

  lemma {:induction false} RunSteps(h: Numerals, pi: real, n: nat, ops: seq<Operation>, stmts: seq<Stmt>)
    requires Codec(h) && AllGood(stmts, n)
    ensures Steps(h, pi, Opened(n, ops), Bodies(h, stmts)) ==
      if AllPlain(h, stmts) then Success(Opened(n, ops + Numbered(h, stmts, |ops| + 1)))
      else Failure(QasmParser.ErrorCode.InvalidParameter)
    decreases stmts
  {
    hide Step, Body, Codec, StmtPlain, AllPlain, GoodStmt, ReadBack, Opened;
    FirstPlain(h, stmts);
    if stmts == [] {
      assert ops + [] == ops;
    } else {
      StmtStep(h, pi, n, ops, stmts[0]);
      var first := ReadBack(h, stmts[0], |ops| + 1);
      RunSteps(h, pi, n, ops + [first], stmts[1..]);
      assert Bodies(h, stmts)[1..] == Bodies(h, stmts[1..]);
      ConcatAssociates(ops, [first], Numbered(h, stmts[1..], |ops| + 2));
    }
  }

  lemma FirstPlain(h: Numerals, stmts: seq<Stmt>)
    ensures stmts == [] ==> AllPlain(h, stmts)
    ensures stmts != [] ==> (AllPlain(h, stmts) <==> StmtPlain(h, stmts[0]) && AllPlain(h, stmts[1..]))
  {
    hide StmtPlain;
    if stmts != [] {
      assert forall k :: 0 <= k < |stmts| ==> stmts[k] == if k == 0 then stmts[0] else stmts[1..][k - 1];
    }
  }

  // ----- printed statements are clean lines

  lemma GateClean(h: Numerals, g: GateName, params: seq<real>, operands: seq<nat>, n: nat)
    requires Codec(h) && GoodGate(g, params, operands, n)
    ensures Clean(Body(h, GateStmt(g, params, operands)))
  {
    hide Join, GateText, Tight, All, Codec, Distinct;
    var text := Join(Operands(operands), ", ");
    BodyForm(h, g, params, operands);
    NameShape(g);
    OperandList(operands, n);
    if params != [] { NumberList(h, params); }
    FormClean(GateText(g), GroupOf(h, params), text);
  }

  lemma FormClean(name: string, group: Option<string>, operands: string)
    requires name != "" && All(name, IsLetter) && All(operands, OperandsChar) && Tight(operands)
    requires group.Some? ==> All(group.value, ListChar)
    ensures Clean(GateForm(name, group, operands))
  {
    var s := GateForm(name, group, operands);
    assert s[0] == name[0] && name[0] in name;
    assert s[|s| - 1] == operands[|operands| - 1];
    AllConcat(GroupText(group), " " + operands, BodyChar);
    AllConcat(name, GroupText(group) + (" " + operands), BodyChar);
  }

  lemma DigitsClean(n: nat)
    ensures All(NatText(n), BodyChar)
  {}

  lemma MeasureClean(h: Numerals, b: nat, q: nat)
    ensures Clean(Body(h, MeasureStmt(b, q)))
  {
    DigitsClean(b);
    DigitsClean(q);
    hide NatText;
    var s := Body(h, MeasureStmt(b, q));
    assert s[0] == 'c' && s[|s| - 1] == ']';
  }

  lemma PreambleClean(n: nat)
    ensures AllClean(Preamble(n))
  {
    DigitsClean(n);
    hide NatText;
    var p := Preamble(n);
    assert p[2][0] == 'q' && p[2][|p[2]| - 1] == 'q' && p[3][0] == 'b' && p[3][|p[3]| - 1] == 'c';
  }

  lemma BodiesClean(h: Numerals, n: nat, stmts: seq<Stmt>)
    requires Codec(h) && AllGood(stmts, n)
    ensures AllClean(Preamble(n) + Bodies(h, stmts))
  {
    hide Clean, Body, Codec, Preamble, GoodGate;
    PreambleClean(n);
    forall k | 0 <= k < |stmts| ensures Clean(Body(h, stmts[k])) {
      match stmts[k]
      case MeasureStmt(b, q) => MeasureClean(h, b, q);
      case GateStmt(g, params, operands) => GateClean(h, g, params, operands, n);
    }
  }

  /** Reading a printed list of statements. */
  lemma TextMeans(h: Numerals, pi: real, n: nat, stmts: seq<Stmt>)
    requires Codec(h) && AllGood(stmts, n)
    ensures QasmParser.Meaning(h, pi, TextOf(Preamble(n) + Bodies(h, stmts))) ==
      if AllPlain(h, stmts) then Finish(Opened(n, Numbered(h, stmts, 1)))
      else Failure(QasmParser.ErrorCode.InvalidParameter)
  {
    hide Steps, Preamble, Codec, AllClean, AllGood, AllPlain, Finish, TextOf, SplitLines, LineStatements, Opened;
    var bodies := Preamble(n) + Bodies(h, stmts);
    BodiesClean(h, n, stmts);
    PreambleSome(n);
    TextStatements(bodies);
    PreambleSteps(h, pi, n, Bodies(h, stmts));
    RunSteps(h, pi, n, [], stmts);
    assert [] + Numbered(h, stmts, 1) == Numbered(h, stmts, 1);
  }

  lemma PreambleSome(n: nat)
    ensures Preamble(n) != []
  {}

  // ----- what the printer makes of a legal circuit

  lemma WellFormedPrints(pi: real, op: Operation, n: nat)
    requires WellFormed(op, n)
    ensures |op.targets| == TargetCount(op.gate)
    ensures ControlCount(op.gate) > 0 ==> |op.controls| == ControlCount(op.gate)
    ensures ParamCount(op.gate) > 0 ==> |op.params| == ParamCount(op.gate)
    ensures SerializeOperation(pi, op) == Lines(Statements(pi, op))
  {
    hide Statements;
  }

  lemma GoodDirect(op: Operation, n: nat)
    requires WellFormed(op, n) && Distinct(Qubits(op)) && HasStatement(op.gate)
    ensures GoodGate(op.gate, op.params, op.controls + op.targets, n)
  {
    hide HasStatement;
    var a, b := Qubits(op), op.controls + op.targets;
    var k := |op.targets|;
    assert forall i :: 0 <= i < |b| ==> b[i] == a[if i < |op.controls| then k + i else i - |op.controls|];
  }

  lemma DirectStatements(pi: real, op: Operation, n: nat)
    requires WellFormed(op, n) && HasStatement(op.gate)
    ensures Statements(pi, op) == [GateStmt(op.gate, op.params, op.controls + op.targets)]
  {
    hide Within;
  }

  /** A decomposed gate uses one- and two-qubit gates on its own two targets. */
  lemma GoodPair(op: Operation, n: nat)
    requires WellFormed(op, n) && Distinct(Qubits(op)) && op.gate in {RXX, RYY, RZZ, RZX}
    ensures op.targets[0] < n && op.targets[1] < n && op.targets[0] != op.targets[1]
  {
    assert Qubits(op)[0] == op.targets[0] && Qubits(op)[1] == op.targets[1];
  }

  lemma GoodStatements(pi: real, op: Operation, n: nat)
    requires WellFormed(op, n) && Distinct(Qubits(op))
    ensures AllGood(Statements(pi, op), n)
    ensures forall s :: s in Statements(pi, op) ==> (s.MeasureStmt? <==> op.gate == M)
  {
    hide Statements, Distinct, AllGood, GoodGate;
    FirstTarget(op, n);
    if op.gate in {RXX, RYY, RZZ, RZX} {
      GoodPair(op, n);
      GoodRotation(pi, op, n);
    } else if op.gate == CCZ {
      GoodToffoli(pi, op, n);
    } else if op.gate in {SY, M} {
      GoodSingle(pi, op, n);
    } else {
      GoodDirect(op, n);
      DirectStatements(pi, op, n);
      GoodOne(GateStmt(op.gate, op.params, op.controls + op.targets), n);
    }
  }

  lemma GoodOne(s: Stmt, n: nat)
    requires GoodStmt(s, n)
    ensures AllGood([s], n)
  {}

  lemma GoodSingle(pi: real, op: Operation, n: nat)
    requires WellFormed(op, n) && op.gate in {SY, M} && op.targets[0] < n
    ensures AllGood(Statements(pi, op), n)
    ensures forall s :: s in Statements(pi, op) ==> (s.MeasureStmt? <==> op.gate == M)
  {
    hide GoodGate, Within;
    GoodTurn(RY, pi / 2.0, op.targets[0], n);
  }

  lemma GoodToffoli(pi: real, op: Operation, n: nat)
    requires WellFormed(op, n) && Distinct(Qubits(op)) && op.gate == CCZ
    ensures AllGood(Statements(pi, op), n) && forall s :: s in Statements(pi, op) ==> s.GateStmt?
  {
    hide GoodGate;
    ToffoliOperands(op, n);
    GoodSimple(H, op.targets[0], n);
  }

  lemma ToffoliOperands(op: Operation, n: nat)
    requires WellFormed(op, n) && Distinct(Qubits(op)) && op.gate == CCZ
    ensures op.targets[0] < n && GoodGate(CCX, [], [op.controls[0], op.controls[1], op.targets[0]], n)
  {
    assert Qubits(op)[0] == op.targets[0] && Qubits(op)[1] == op.controls[0] && Qubits(op)[2] == op.controls[1];
  }

  lemma GoodSimple(g: GateName, q: nat, n: nat)
    requires g in {H, S, SDG} && q < n
    ensures GoodGate(g, [], [q], n)
  {}

  lemma GoodRzz(theta: real, a: nat, b: nat, n: nat)
    requires a < n && b < n && a != b
    ensures AllGood(SerializeRzz(theta, a, b), n)
  {
    hide GoodGate;
    assert GoodGate(CX, [], [a, b], n) by { GoodFlip(a, b, n); }
    assert GoodGate(RZ, [theta], [b], n) by { GoodTurn(RZ, theta, b, n); }
  }

  lemma GoodFlip(a: nat, b: nat, n: nat)
    requires a < n && b < n && a != b
    ensures GoodGate(CX, [], [a, b], n)
  {}

  lemma GoodTurn(g: GateName, theta: real, q: nat, n: nat)
    requires g in {RY, RZ} && q < n
    ensures GoodGate(g, [theta], [q], n)
  {}

  lemma GoodRotation(pi: real, op: Operation, n: nat)
    requires WellFormed(op, n) && op.gate in {RXX, RYY, RZZ, RZX}
    requires op.targets[0] < n && op.targets[1] < n && op.targets[0] != op.targets[1]
    ensures AllGood(Statements(pi, op), n)
    ensures forall s :: s in Statements(pi, op) ==> s.GateStmt?
  {
    hide GoodGate, Within, Qubits;
    var a, b := op.targets[0], op.targets[1];
    GoodRzz(op.params[0], a, b, n);
    forall g, q | g in {H, S, SDG} && q in {a, b} ensures GoodGate(g, [], [q], n) { GoodSimple(g, q, n); }
  }

  lemma GoodConcat(a: seq<Stmt>, b: seq<Stmt>, n: nat)
    requires AllGood(a, n) && AllGood(b, n)
    ensures AllGood(a + b, n)
  {}

  /** Every legal, well-formed circuit prints, and prints only statements the parser knows. */
  lemma {:induction false} Compiles(pi: real, ops: seq<Operation>, n: nat)
    requires Proper(ops, n)
    ensures AllStatements(pi, ops).Lines? && AllGood(AllStatements(pi, ops).stmts, n)
    ensures forall s :: s in AllStatements(pi, ops).stmts ==>
      (s.MeasureStmt? ==> exists op :: op in ops && op.gate == M)
    ensures forall s :: s in AllStatements(pi, ops).stmts ==> (s.GateStmt? ==> exists op :: op in ops && op.gate != M)
  {
    hide SerializeOperation, Statements, WellFormed, Distinct, GoodStmt, AllGood;
    if ops == [] {
      assert AllGood([], n) by { GoodNothing(n); }
    } else {
      WellFormedPrints(pi, ops[0], n);
      GoodStatements(pi, ops[0], n);
      Compiles(pi, ops[1..], n);
      GoodConcat(Statements(pi, ops[0]), AllStatements(pi, ops[1..]).stmts, n);
      assert ops == [ops[0]] + ops[1..];
    }
  }

  lemma GoodNothing(n: nat)
    ensures AllGood([], n)
  {}

  /** Once a measurement is printed, only measurements follow. */
  predicate MeasuresEnd(stmts: seq<Stmt>) {
    forall i, j :: 0 <= i < j < |stmts| && stmts[i].MeasureStmt? ==> stmts[j].MeasureStmt?
  }

  lemma OnlyMeasuresFollow(ops: seq<Operation>)
    requires ops != [] && ops[0].gate == M && LayerSorted(ops) && MeasuredLast(ops)
    ensures forall op :: op in ops[1..] ==> op.gate == M
  {
    assert ops[0] in ops;
    forall op | op in ops[1..] ensures op.gate == M {
      var k :| 0 <= k < |ops[1..]| && ops[1..][k] == op;
      assert ops[k + 1] == op;
    }
  }

  lemma {:induction false} CompilesInOrder(pi: real, ops: seq<Operation>, n: nat)
    requires Proper(ops, n) && LayerSorted(ops) && MeasuredLast(ops)
    ensures AllStatements(pi, ops).Lines? && MeasuresEnd(AllStatements(pi, ops).stmts)
  {
    hide SerializeOperation, Statements, WellFormed, Distinct, GoodStmt, AllGood, LayerSorted, MeasuredLast;
    if ops != [] {
      var rest := ops[1..];
      OrderedTail(ops, n);
      WellFormedPrints(pi, ops[0], n);
      GoodStatements(pi, ops[0], n);
      Compiles(pi, rest, n);
      CompilesInOrder(pi, rest, n);
      var a, b := Statements(pi, ops[0]), AllStatements(pi, rest).stmts;
      if ops[0].gate == M {
        OnlyMeasuresFollow(ops);
        assert forall s :: s in b ==> s.MeasureStmt?;
        AllMeasures(a + b);
      } else {
        LateMeasures(a, b);
      }
    }
  }

  lemma AllMeasures(s: seq<Stmt>)
    requires forall x :: x in s ==> x.MeasureStmt?
    ensures MeasuresEnd(s)
  {}

  lemma LateMeasures(a: seq<Stmt>, b: seq<Stmt>)
    requires MeasuresEnd(b) && forall x :: x in a ==> x.GateStmt?
    ensures MeasuresEnd(a + b)
  {
    assert forall i :: 0 <= i < |a| ==> a[i] in a;
    assert forall i :: 0 <= i < |a + b| ==> (a + b)[i] == if i < |a| then a[i] else b[i - |a|];
  }

  lemma OrderedTail(ops: seq<Operation>, n: nat)
    requires ops != [] && Proper(ops, n) && LayerSorted(ops) && MeasuredLast(ops)
    ensures Proper(ops[1..], n) && LayerSorted(ops[1..]) && MeasuredLast(ops[1..])
  {
    assert forall op :: op in ops[1..] ==> op in ops;
  }

  // ----- the numbered operations are legal

  lemma ReadQubits(h: Numerals, s: Stmt, k: nat, n: nat)
    requires GoodStmt(s, n)
    ensures var op := ReadBack(h, s, k);
      WellFormed(op, n) && Distinct(Qubits(op)) && (op.gate == M <==> s.MeasureStmt?) && op.layer == k - 1
          && op.id == OperationId(k)
  {
    hide OperationId, Rounded, Distinct, Within, HasStatement, TargetCount, ControlCount, ParamCount;
    Arities();
    match s
    case MeasureStmt(_, q) =>
      assert [q] + [] == [q];
      assert Within([q], n) && Distinct([q]) by { OneQubitFits(q, n); }
    case GateStmt(g, params, operands) =>
      Rearranged(operands, ControlCount(g), n);
  }

  lemma Arities()
    ensures !HasStatement(M) && TargetCount(M) == 1 && ControlCount(M) == 0 && ParamCount(M) == 0
  {}

  lemma OneQubitFits(q: nat, n: nat)
    requires q < n
    ensures Within([q], n) && Distinct([q])
  {}

  lemma Rearranged(operands: seq<nat>, c: nat, n: nat)
    requires c <= |operands| && Within(operands, n) && Distinct(operands)
    ensures Within(operands[c..] + operands[..c], n) && Distinct(operands[c..] + operands[..c])
  {
    var a := operands[c..] + operands[..c];
    var t := |operands| - c;
    assert forall i :: 0 <= i < |a| ==> a[i] == operands[if i < t then c + i else i - t];
  }

  lemma NumberedLegal(h: Numerals, stmts: seq<Stmt>, n: nat)
    requires AllGood(stmts, n) && MeasuresEnd(stmts)
    ensures Legal(Numbered(h, stmts, 1)) && NumberedFrom(Numbered(h, stmts, 1))
      && AllWellFormed(Numbered(h, stmts, 1), n)
  {
    hide ReadBack, WellFormed, Distinct, OperationId, GoodStmt, Spans, MeasuresEnd, SpansApart, MeasuredLast;
    var ops := Numbered(h, stmts, 1);
    forall k | 0 <= k < |ops|
      ensures WellFormed(ops[k], n) && Distinct(Qubits(ops[k])) && (ops[k].gate == M <==> stmts[k].MeasureStmt?)
        && ops[k].layer == k
      ensures ops[k].id == OperationId(k + 1)
    {
      ReadQubits(h, stmts[k], k + 1, n);
    }
    LayersDiffer(ops);
    MeasuresLast(ops, stmts);
  }

  lemma LayersDiffer(ops: seq<Operation>)
    requires forall k :: 0 <= k < |ops| ==> ops[k].layer == k
    ensures SpansApart(ops)
  {}

  lemma MeasuresLast(ops: seq<Operation>, stmts: seq<Stmt>)
    requires |ops| == |stmts| && MeasuresEnd(stmts)
    requires forall k :: 0 <= k < |ops| ==> ops[k].layer == k && (ops[k].gate == M <==> stmts[k].MeasureStmt?)
    ensures MeasuredLast(ops)
  {
    forall g, m | g in ops && m in ops && g.gate != M && m.gate == M ensures g.layer < m.layer {
      var i :| 0 <= i < |ops| && ops[i] == g;
      var j :| 0 <= j < |ops| && ops[j] == m;
    }
  }

  // ----- which circuits print without exponents

  /** No number of the operation's statements is printed with an exponent. */
  predicate PrintsPlainly(h: Numerals, pi: real, op: Operation) {
    NumbersPlain(h, op.params) && (op.gate == SY ==> Plain(h.format(pi / 2.0)))
  }

  lemma OnePlain(h: Numerals, pi: real, op: Operation, n: nat)
    requires WellFormed(op, n)
    ensures AllPlain(h, Statements(pi, op)) <==> PrintsPlainly(h, pi, op)
  {
    hide Plain, Within;
    if op.gate in {RXX, RYY, RZZ, RZX} {
      RotationPlain(h, pi, op, n);
    } else {
      var stmts := Statements(pi, op);
      assert op.gate != CCZ ==> |stmts| == 1 && (AllPlain(h, stmts) <==> StmtPlain(h, stmts[0]));
    }
  }

  lemma RotationPlain(h: Numerals, pi: real, op: Operation, n: nat)
    requires WellFormed(op, n) && op.gate in {RXX, RYY, RZZ, RZX}
    ensures AllPlain(h, Statements(pi, op)) <==> NumbersPlain(h, op.params)
  {
    hide NumbersPlain, Within;
    var stmts := Statements(pi, op);
    var rz := GateStmt(RZ, [op.params[0]], [op.targets[1]]);
    assert op.params == [op.params[0]];
    assert NumbersPlain(h, []) by { NothingPlain(h); }
    assert stmts[if op.gate == RZZ then 1 else if op.gate == RXX then 3 else if op.gate == RYY then 5 else 2] == rz;
    assert forall k :: 0 <= k < |stmts| && stmts[k] != rz ==> stmts[k].params == [];
  }

  lemma NothingPlain(h: Numerals)
    ensures NumbersPlain(h, [])
  {}

  lemma PlainConcat(h: Numerals, a: seq<Stmt>, b: seq<Stmt>)
    ensures AllPlain(h, a + b) <==> AllPlain(h, a) && AllPlain(h, b)
  {
    hide StmtPlain;
    assert forall k :: 0 <= k < |a| ==> (a + b)[k] == a[k];
    assert forall k :: 0 <= k < |b| ==> (a + b)[|a| + k] == b[k];
  }

  lemma {:induction false} CircuitPlain(h: Numerals, pi: real, ops: seq<Operation>, n: nat)
    requires Proper(ops, n)
    ensures AllStatements(pi, ops).Lines?
    ensures AllPlain(h, AllStatements(pi, ops).stmts) <==> forall op :: op in ops ==> PrintsPlainly(h, pi, op)
  {
    hide SerializeOperation, Statements, WellFormed, Distinct, AllPlain, PrintsPlainly;
    FirstPlain(h, []);
    if ops != [] {
      WellFormedPrints(pi, ops[0], n);
      CircuitPlain(h, pi, ops[1..], n);
      OnePlain(h, pi, ops[0], n);
      PlainConcat(h, Statements(pi, ops[0]), AllStatements(pi, ops[1..]).stmts);
      assert ops == [ops[0]] + ops[1..];
    }
  }

  // ----- the round trip

  /** What the editor hands to the printer: a legal circuit with proper operands and names. */
  ghost predicate Editable(model: Circuit) {
    Legal(model.operations) && NamedUniquely(model.operations) && AllWellFormed(model.operations, model.numQubits)
  }

  lemma SortedByLayer(ops: seq<Operation>, idLe: (string, string) -> bool)
    requires TotalPreorder(idLe)
    ensures LayerSorted(SortOperations(ops, idLe))
  {
    LayerThenIdOrders(idLe);
    SortSorts(ops, LayerThenId(idLe));
  }

  lemma LayerThenIdOrders(idLe: (string, string) -> bool)
    requires TotalPreorder(idLe)
    ensures TotalPreorder(LayerThenId(idLe))
  {
    var le := LayerThenId(idLe);
    forall x, y ensures le(x, y) || le(y, x) {
      assert idLe(x.id, y.id) || idLe(y.id, x.id);
    }
    forall x, y, z | le(x, y) && le(y, z) ensures le(x, z) {
      assert idLe(x.id, y.id) && idLe(y.id, z.id) ==> idLe(x.id, z.id);
    }
  }

  /** The sorted operations keep everything the statement about a list does not say about its order. */
  lemma SortedEditable(model: Circuit, idLe: (string, string) -> bool)
    requires TotalPreorder(idLe) && Editable(model)
    ensures var ops := SortOperations(model.operations, idLe);
      && LayerSorted(ops) && MeasuredLast(ops) && Proper(ops, model.numQubits) && LayersApart(ops) && UniqueIds(ops)
      && Legal(ops) && multiset(ops) == multiset(model.operations)
      && forall op :: op in ops <==> op in model.operations
  {
    hide Proper, LayersApart, StableSort, TotalPreorder, NoRepeats, SpansApart, MeasuredLast, AllWellFormed,
      LayerSorted, UniqueIds;
    var ops := SortOperations(model.operations, idLe);
    SortedByLayer(model.operations, idLe);
    LegalPermutation(model.operations, ops);
    forall op ensures op in ops <==> op in model.operations { InMultiset(ops, model.operations, op); }
    SameShape(model.operations, ops, model.numQubits);
    LegalMeansApart(ops, model.numQubits);
  }

  lemma SameShape(a: seq<Operation>, b: seq<Operation>, n: nat)
    requires AllWellFormed(a, n) && forall op :: op in b <==> op in a
    ensures AllWellFormed(b, n)
  {
    hide WellFormed;
    forall k | 0 <= k < |b| ensures WellFormed(b[k], n) {
      assert b[k] in a;
    }
  }

  lemma SortedNamed(model: Circuit, idLe: (string, string) -> bool)
    requires TotalPreorder(idLe) && Editable(model)
    ensures NamedUniquely(SortOperations(model.operations, idLe))
    ensures AllWellFormed(SortOperations(model.operations, idLe), model.numQubits)
  {
    var ops := SortOperations(model.operations, idLe);
    LegalPermutation(model.operations, ops);
    forall op ensures op in ops <==> op in model.operations { InMultiset(ops, model.operations, op); }
    SameShape(model.operations, ops, model.numQubits);
  }

  ghost function PrintedStatements(pi: real, model: Circuit, idLe: (string, string) -> bool): Serialized {
    AllStatements(pi, SortOperations(model.operations, idLe))
  }

  /** The circuit read back: one operation a statement, on layers 0, 1, 2 and so on. */
  ghost function Reread(h: Numerals, pi: real, model: Circuit, idLe: (string, string) -> bool): Circuit
    requires PrintedStatements(pi, model, idLe).Lines?
  {
    Circuit(model.numQubits, Numbered(h, PrintedStatements(pi, model, idLe).stmts, 1))
  }

  lemma Prints(pi: real, model: Circuit, idLe: (string, string) -> bool)
    requires TotalPreorder(idLe) && Editable(model)
    ensures var p := PrintedStatements(pi, model, idLe);
      p.Lines? && AllGood(p.stmts, model.numQubits) && MeasuresEnd(p.stmts)
  {
    hide AllStatements, AllGood, MeasuresEnd, Editable, SortOperations, TotalPreorder, Proper, Legal, LayersApart;
    var ops := SortOperations(model.operations, idLe);
    SortedEditable(model, idLe);
    Compiles(pi, ops, model.numQubits);
    CompilesInOrder(pi, ops, model.numQubits);
  }

  /**
   * Every editable circuit prints.  The text is read back as the circuit of its numbered statements, which is
   * legal again, exactly when no number is printed with an exponent; otherwise it is rejected.
   */
  lemma PrintedParses(h: Numerals, pi: real, model: Circuit, idLe: (string, string) -> bool)
    requires Codec(h) && TotalPreorder(idLe) && Editable(model)
    ensures PrintedStatements(pi, model, idLe).Lines?
    ensures Printed(h, pi, model, idLe).Some?
    ensures QasmParser.Meaning(h, pi, Printed(h, pi, model, idLe).value) ==
      if forall op :: op in model.operations ==> PrintsPlainly(h, pi, op)
      then Success(Reread(h, pi, model, idLe)) else Failure(QasmParser.ErrorCode.InvalidParameter)
    ensures Editable(Reread(h, pi, model, idLe))
  {
    hide AllStatements, AllGood, MeasuresEnd, SortOperations, TotalPreorder, Proper, LayersApart, PrintsPlainly,
      AllPlain, Codec, Legal, TextOf, QasmParser.Meaning, Preamble, NamedUniquely, AllWellFormed, NumberedFrom,
      LayerSorted, UniqueIds;
    var n := model.numQubits;
    Prints(pi, model, idLe);
    var stmts := PrintedStatements(pi, model, idLe).stmts;
    SortedEditable(model, idLe);
    CircuitPlain(h, pi, SortOperations(model.operations, idLe), n);
    TextMeans(h, pi, n, stmts);
    NumberedLegal(h, stmts, n);
    NumberedUniquely(Numbered(h, stmts, 1));
  }
}
