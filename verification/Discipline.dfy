// Label discipline of emitted code: labels are placed once, jumps land, no conditional jump stands
// before its own label, and the rest is what the later passes can cope with.

module Discipline {
  import opened Wrappers
  import opened Words
  import opened Bytecode
  import opened Source
  import opened Emission

  function Marks(code: seq<Instr>): set<int> {
    if code == [] then {} else Marks(code[1..]) + if code[0].LBL? then {code[0].mark} else {}
  }

  function Targets(code: seq<Instr>): set<int> {
    if code == [] then {} else Targets(code[1..]) + if code[0].JMP? then {code[0].target} else {}
  }

  /** i is a conditional jump to the label right behind it. */
  predicate BranchesTo(i: Instr, code: seq<Instr>) {
    i.JMP? && i.cond >= 0 && code != [] && code[0] == LBL(i.target)
  }

  predicate Fine(code: seq<Instr>) {
    code == [] ||
    (Fine(code[1..]) && (code[0].LBL? ==> code[0].mark !in Marks(code[1..])) && !BranchesTo(code[0], code[1..]))
  }

  predicate Ordered(n: Labels, n': Labels) {
    n.conditional <= n'.conditional && n.unconditional <= n'.unconditional
  }

  /** l was handed out after n and up to n'. */
  predicate Between(l: int, n: Labels, n': Labels) {
    n.conditional < l <= n'.conditional || n.unconditional < l <= n'.unconditional
  }

  /** The two kinds of labels cannot meet from n to n'. */
  predicate Apart(n: Labels, n': Labels) {
    Ordered(n, n') && n'.conditional < UNCONDITIONAL_BASE <= n.unconditional + 1
  }

  ghost predicate NoneBetween(labels: set<int>, n: Labels, n': Labels) {
    forall l <- labels :: !Between(l, n, n')
  }

  /** What emitting between n and n' in front of k promises; jumps to open labels may still be
      waiting for their label. */
  ghost predicate Disciplined(code: seq<Instr>, n: Labels, n': Labels, open: set<int>, k: seq<Instr>) {
    && Fine(code)
    && Marks(k) <= Marks(code)
    && (forall l <- Marks(code) :: l in Marks(k) || Between(l, n, n'))
    && (forall l <- Targets(code) :: l in Targets(k) || l in Marks(code) || l in open)
  }

  lemma Prepend(i: Instr, code: seq<Instr>)
    ensures ([i] + code)[1..] == code
    ensures Marks([i] + code) == Marks(code) + if i.LBL? then {i.mark} else {}
    ensures Targets([i] + code) == Targets(code) + if i.JMP? then {i.target} else {}
    ensures Fine([i] + code) <==> Fine(code) && (i.LBL? ==> i.mark !in Marks(code)) && !BranchesTo(i, code)
  {
    assert ([i] + code)[1..] == code;
  }

  lemma {:induction false} ExprOrdered(e: Expr, n: Labels)
    ensures Ordered(n, AfterExpr(e, n))
  {
    match e
    case IntLit(_) =>
    case Variable(_) =>
    case Field(_) =>
    case Effect(_) =>
    case Calculated(_, left, right) =>
      ExprOrdered(right, n);
      ExprOrdered(left, AfterExpr(right, n));
    case Logic(_, right, left) =>
      ExprOrdered(right, n);
      ExprOrdered(left, AfterExpr(right, n).NextConditional().NextUnconditional());
    case Cond(test, yes, no) =>
      var n1 := n.NextUnconditional();
      var n2 := AfterExpr(test, n1).NextConditional();
      ExprOrdered(test, n1);
      ExprOrdered(yes, n2);
      ExprOrdered(no, AfterExpr(yes, n2));
  }

  /** Expression code starts with something other than a label. */
  lemma {:induction false} ExprHead(e: Expr, n: Labels, k: seq<Instr>)
    ensures |ExprCode(e, n, k)| > |k| && !ExprCode(e, n, k)[0].LBL?
  {
    match e
    case IntLit(_) =>
    case Variable(_) =>
    case Field(_) =>
    case Effect(_) =>
    case Calculated(op, left, right) =>
      ExprHead(left, AfterExpr(right, n), [INT_OP(op)] + k);
      ExprHead(right, n, ExprCode(left, AfterExpr(right, n), [INT_OP(op)] + k));
    case Logic(isAnd, right, left) =>
      var n1 := AfterExpr(right, n).NextConditional().NextUnconditional();
      var k1 := [SCRATCH, LBL(n1.unconditional), RESULT] + k;
      ExprHead(left, n1, k1);
      ExprHead(right, n, LogicMiddle(isAnd, n1) + ExprCode(left, n1, k1));
    case Cond(test, yes, no) =>
      var n1 := n.NextUnconditional();
      var n2 := AfterExpr(test, n1).NextConditional();
      var k1 := [SCRATCH, LBL(n1.unconditional), RESULT] + k;
      var k2 := CondMiddle(n1, n2) + ExprCode(no, AfterExpr(yes, n2), k1);
      ExprHead(no, AfterExpr(yes, n2), k1);
      ExprHead(yes, n2, k2);
      ExprHead(test, n1, [JMP(n2.conditional, 0)] + ExprCode(yes, n2, k2));
  }

  function LogicMiddle(isAnd: bool, n1: Labels): seq<Instr> {
    [JMP(n1.conditional, Bool(isAnd)), LOAD_INT_LIT(Bool(!isAnd)), SCRATCH, JMP(n1.unconditional, -1), LBL(n1.conditional)]
  }

  function CondMiddle(n1: Labels, n2: Labels): seq<Instr> {
    [SCRATCH, JMP(n1.unconditional, -1), LBL(n2.conditional)]
  }

  /** Plain instructions in front change nothing. */
  lemma Harmless(i: Instr, code: seq<Instr>, n: Labels, n': Labels, open: set<int>, k: seq<Instr>)
    requires Disciplined(code, n, n', open, k) && !i.JMP? && !i.LBL?
    ensures Disciplined([i] + code, n, n', open, k)
  {
    Prepend(i, code);
  }

  /** A jump in front: its target is placed later, and not at the head if it is conditional. */
  lemma Jumps(i: Instr, code: seq<Instr>, n: Labels, n': Labels, open: set<int>, k: seq<Instr>)
    requires Disciplined(code, n, n', open, k) && i.JMP? && (i.target in Marks(code) || i.target in open)
    requires !BranchesTo(i, code)
    ensures Disciplined([i] + code, n, n', open, k)
  {
    Prepend(i, code);
  }

  /** A fresh label in front. */
  lemma Placed(l: int, code: seq<Instr>, n: Labels, n': Labels, open: set<int>, k: seq<Instr>)
    requires Disciplined(code, n, n', open, k) && Between(l, n, n') && l !in Marks(code)
    ensures Disciplined([LBL(l)] + code, n, n', open, k)
  {
    Prepend(LBL(l), code);
  }

  lemma Chained(code: seq<Instr>, k1: seq<Instr>, n: Labels, n1: Labels, n2: Labels, n': Labels, open: set<int>, k: seq<Instr>)
    requires Disciplined(code, n1, n2, open, k1) && Disciplined(k1, n, n', open, k)
    requires Ordered(n, n1) && Ordered(n1, n2) && Ordered(n2, n')
    ensures Disciplined(code, n, n', open, k)
  {
  }

  lemma Start(k: seq<Instr>, n: Labels, n': Labels, open: set<int>)
    requires Fine(k)
    ensures Disciplined(k, n, n', open, k)
  {
  }

  /** Where both ways of a logic or conditional expression meet: the label and the reload. */
  lemma ResultTail(u: int, n: Labels, n': Labels, open: set<int>, k: seq<Instr>)
    requires Fine(k) && Between(u, n, n') && u !in Marks(k)
    ensures Disciplined([SCRATCH, LBL(u), RESULT] + k, n, n', open, k)
    ensures Marks([SCRATCH, LBL(u), RESULT] + k) == Marks(k) + {u}
  {
    hide Marks, Targets, Fine;
    Start(k, n, n', open);
    Harmless(RESULT, k, n, n', open, k);
    Prepend(RESULT, k);
    var k1 := [RESULT] + k;
    Placed(u, k1, n, n', open, k);
    Prepend(LBL(u), k1);
    var k2 := [LBL(u)] + k1;
    Harmless(SCRATCH, k2, n, n', open, k);
    Prepend(SCRATCH, k2);
    assert [SCRATCH, LBL(u), RESULT] + k == [SCRATCH] + k2;
  }

  /** One way stores its word and jumps past the other way, which starts at label c. */
  lemma Join(c: int, u: int, code: seq<Instr>, n: Labels, n': Labels, open: set<int>, k: seq<Instr>)
    requires Disciplined(code, n, n', open, k) && Between(c, n, n') && c !in Marks(code) && u in Marks(code)
    ensures Disciplined([SCRATCH, JMP(u, -1), LBL(c)] + code, n, n', open, k)
    ensures Marks([SCRATCH, JMP(u, -1), LBL(c)] + code) == Marks(code) + {c}
  {
    hide Marks, Targets, Fine;
    Placed(c, code, n, n', open, k);
    Prepend(LBL(c), code);
    var k1 := [LBL(c)] + code;
    Jumps(JMP(u, -1), k1, n, n', open, k);
    Prepend(JMP(u, -1), k1);
    var k2 := [JMP(u, -1)] + k1;
    Harmless(SCRATCH, k2, n, n', open, k);
    Prepend(SCRATCH, k2);
    assert [SCRATCH, JMP(u, -1), LBL(c)] + code == [SCRATCH] + k2;
  }

  lemma ShortCircuit(isAnd: bool, n1: Labels, code: seq<Instr>, n: Labels, n': Labels, open: set<int>, k: seq<Instr>)
    requires Disciplined(code, n, n', open, k) && n1.unconditional in Marks(code)
    requires Between(n1.conditional, n, n') && n1.conditional !in Marks(code)
    ensures Disciplined(LogicMiddle(isAnd, n1) + code, n, n', open, k)
    ensures Marks(LogicMiddle(isAnd, n1) + code) == Marks(code) + {n1.conditional}
  {
    hide Marks, Targets, Fine;
    var c, u, lit := n1.conditional, n1.unconditional, LOAD_INT_LIT(Bool(!isAnd));
    Join(c, u, code, n, n', open, k);
    var k1 := [SCRATCH, JMP(u, -1), LBL(c)] + code;
    Harmless(lit, k1, n, n', open, k);
    Prepend(lit, k1);
    var k2 := [lit] + k1;
    Jumps(JMP(c, Bool(isAnd)), k2, n, n', open, k);
    Prepend(JMP(c, Bool(isAnd)), k2);
    assert LogicMiddle(isAnd, n1) + code == [JMP(c, Bool(isAnd))] + k2;
  }

  lemma {:induction false} ExprDisciplined(e: Expr, n: Labels, open: set<int>, k: seq<Instr>)
    requires Fine(k) && Apart(n, AfterExpr(e, n)) && NoneBetween(Marks(k), n, AfterExpr(e, n))
    ensures Disciplined(ExprCode(e, n, k), n, AfterExpr(e, n), open, k)
    decreases e, 1
  {
    hide Marks, Targets, Fine;
    var n' := AfterExpr(e, n);
    Start(k, n, n', open);
    match e
    case IntLit(v) => Harmless(LOAD_INT_LIT(v), k, n, n', open, k);
    case Variable(x) => Harmless(LOAD_INT_VAR(x, LOCL), k, n, n', open, k);
    case Field(x) =>
      Harmless(LOAD_INT_VAR(x, INST), k, n, n', open, k);
      Harmless(LOAD_INST_MEM, [LOAD_INT_VAR(x, INST)] + k, n, n', open, k);
      assert [LOAD_INST_MEM, LOAD_INT_VAR(x, INST)] + k == [LOAD_INST_MEM] + ([LOAD_INT_VAR(x, INST)] + k);
    case Effect(number) => Harmless(EffectCode(number), k, n, n', open, k);
    case Calculated(op, left, right) =>
      var n1 := AfterExpr(right, n);
      ExprOrdered(right, n);
      ExprOrdered(left, n1);
      Harmless(INT_OP(op), k, n, n', open, k);
      var k1 := [INT_OP(op)] + k;
      Prepend(INT_OP(op), k);
      ExprDisciplined(left, n1, open, k1);
      var k2 := ExprCode(left, n1, k1);
      Chained(k2, k1, n, n1, n', n', open, k);
      ExprDisciplined(right, n, open, k2);
      Chained(ExprCode(right, n, k2), k2, n, n, n1, n', open, k);
    case Logic(isAnd, right, left) => LogicDisciplined(e, n, open, k);
    case Cond(test, yes, no) => CondDisciplined(e, n, open, k);
  }

  lemma {:induction false} LogicDisciplined(e: Expr, n: Labels, open: set<int>, k: seq<Instr>)
    requires e.Logic?
    requires Fine(k) && Apart(n, AfterExpr(e, n)) && NoneBetween(Marks(k), n, AfterExpr(e, n))
    ensures Disciplined(ExprCode(e, n, k), n, AfterExpr(e, n), open, k)
    decreases e, 0
  {
    hide Marks, Targets, Fine;
    var Logic(isAnd, right, left) := e;
    var n', nr := AfterExpr(e, n), AfterExpr(right, n);
    var n1 := nr.NextConditional().NextUnconditional();
    var c, u := n1.conditional, n1.unconditional;
    ExprOrdered(right, n);
    ExprOrdered(left, n1);
    ResultTail(u, n, n', open, k);
    var k1 := [SCRATCH, LBL(u), RESULT] + k;
    ExprDisciplined(left, n1, open, k1);
    var k2 := ExprCode(left, n1, k1);
    Chained(k2, k1, n, n1, n', n', open, k);
    ShortCircuit(isAnd, n1, k2, n, n', open, k);
    var k3 := LogicMiddle(isAnd, n1) + k2;
    ExprDisciplined(right, n, open, k3);
    Chained(ExprCode(right, n, k3), k3, n, n, nr, n', open, k);
  }

  lemma {:induction false} CondDisciplined(e: Expr, n: Labels, open: set<int>, k: seq<Instr>)
    requires e.Cond?
    requires Fine(k) && Apart(n, AfterExpr(e, n)) && NoneBetween(Marks(k), n, AfterExpr(e, n))
    ensures Disciplined(ExprCode(e, n, k), n, AfterExpr(e, n), open, k)
    decreases e, 0
  {
    hide Marks, Targets, Fine;
    var Cond(test, yes, no) := e;
    var n', n1 := AfterExpr(e, n), n.NextUnconditional();
    var nt := AfterExpr(test, n1);
    var n2 := nt.NextConditional();
    var n3 := AfterExpr(yes, n2);
    var c, u := n2.conditional, n1.unconditional;
    ExprOrdered(test, n1);
    ExprOrdered(yes, n2);
    ExprOrdered(no, n3);
    ResultTail(u, n, n', open, k);
    var k1 := [SCRATCH, LBL(u), RESULT] + k;
    ExprDisciplined(no, n3, open, k1);
    var k2 := ExprCode(no, n3, k1);
    Chained(k2, k1, n, n3, n', n', open, k);
    Join(c, u, k2, n, n', open, k);
    var k3 := CondMiddle(n1, n2) + k2;
    ExprDisciplined(yes, n2, open, k3);
    var k4 := ExprCode(yes, n2, k3);
    Chained(k4, k3, n, n2, n3, n', open, k);
    ExprHead(yes, n2, k3);
    Jumps(JMP(c, 0), k4, n, n', open, k);
    Prepend(JMP(c, 0), k4);
    var k5 := [JMP(c, 0)] + k4;
    ExprDisciplined(test, n1, open, k5);
    Chained(ExprCode(test, n1, k5), k5, n, n1, nt, n', open, k);
  }
}
