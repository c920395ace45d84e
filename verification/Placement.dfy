// Where emitted code lies: what is emitted in front of k ends in k, and a label placed once is
// where every jump to it lands.

module Placement {
  import opened Wrappers
  import opened Words
  import opened Bytecode
  import opened Source
  import opened Emission
  import opened Discipline

  predicate IsSuffix(x: seq<Instr>, code: seq<Instr>) {
    |x| <= |code| && code[|code| - |x|..] == x
  }

  lemma Shorter(x: seq<Instr>, y: seq<Instr>)
    requires IsSuffix(x, y)
    ensures |x| <= |y|
  {
  }

  lemma Within(x: seq<Instr>, y: seq<Instr>, code: seq<Instr>)
    requires IsSuffix(x, y) && IsSuffix(y, code)
    ensures IsSuffix(x, code)
  {
  }

  lemma Behind(p: seq<Instr>, x: seq<Instr>, code: seq<Instr>)
    requires IsSuffix(p + x, code)
    ensures IsSuffix(x, code)
  {
    assert (p + x)[|p|..] == x;
  }

  lemma Assoc(p: seq<Instr>, x: seq<Instr>, k: seq<Instr>)
    ensures p + (x + k) == (p + x) + k
  {
  }

  // ----- Emitting in front of k leaves k alone -----

  lemma {:induction false} ExprSplit(e: Expr, n: Labels, x: seq<Instr>, k: seq<Instr>)
    ensures ExprCode(e, n, x + k) == ExprCode(e, n, x) + k
  {
    match e
    case IntLit(v) => Assoc([LOAD_INT_LIT(v)], x, k);
    case Variable(slot) => Assoc([LOAD_INT_VAR(slot, LOCL)], x, k);
    case Field(slot) => Assoc([LOAD_INST_MEM, LOAD_INT_VAR(slot, INST)], x, k);
    case Effect(number) => Assoc([EffectCode(number)], x, k);
    case Calculated(op, left, right) =>
      var n1 := AfterExpr(right, n);
      Assoc([INT_OP(op)], x, k);
      ExprSplit(left, n1, [INT_OP(op)] + x, k);
      ExprSplit(right, n, ExprCode(left, n1, [INT_OP(op)] + x), k);
    case Logic(isAnd, right, left) =>
      var n1 := AfterExpr(right, n).NextConditional().NextUnconditional();
      var tail, middle := [SCRATCH, LBL(n1.unconditional), RESULT], LogicMiddle(isAnd, n1);
      Assoc(tail, x, k);
      ExprSplit(left, n1, tail + x, k);
      Assoc(middle, ExprCode(left, n1, tail + x), k);
      ExprSplit(right, n, middle + ExprCode(left, n1, tail + x), k);
    case Cond(test, yes, no) =>
      var n1 := n.NextUnconditional();
      var n2 := AfterExpr(test, n1).NextConditional();
      var n3, tail, middle := AfterExpr(yes, n2), [SCRATCH, LBL(n1.unconditional), RESULT], CondMiddle(n1, n2);
      Assoc(tail, x, k);
      ExprSplit(no, n3, tail + x, k);
      var k2 := middle + ExprCode(no, n3, tail + x);
      Assoc(middle, ExprCode(no, n3, tail + x), k);
      ExprSplit(yes, n2, k2, k);
      Assoc([JMP(n2.conditional, 0)], ExprCode(yes, n2, k2), k);
      ExprSplit(test, n1, [JMP(n2.conditional, 0)] + ExprCode(yes, n2, k2), k);
  }

  lemma {:induction false} ArgsSplit(args: seq<Expr>, n: Labels, x: seq<Instr>, k: seq<Instr>)
    ensures ArgsCode(args, n, x + k) == ArgsCode(args, n, x) + k
  {
    if args != [] {
      var n1 := AfterExpr(args[0], n);
      ArgsSplit(args[1..], n1, x, k);
      ExprSplit(args[0], n, ArgsCode(args[1..], n1, x), k);
    }
  }

  lemma {:induction false} TreeSplit(e: Expr, node: Node, labels: map<int, int>, default: int, n: Labels, x: seq<Instr>, k: seq<Instr>)
    ensures TreeCode(e, node, labels, default, n, x + k) == TreeCode(e, node, labels, default, n, x) + k
  {
    var n1, head := AfterExpr(e, n), [LBL(node.id), LOAD_INT_LIT(node.value)];
    var y := x;
    if node.Equal? {
      var test := [INT_OP(Eql), JMP(LabelOf(labels, node.value), 1), JMP(default, -1)];
      Assoc(test, x, k);
      y := test + x;
    } else {
      var m := if node.Less? then n1 else AfterExpr(e, n1);
      var m1 := AfterTree(e, node.left, m);
      TreeSplit(e, node.right, labels, default, m1, x, k);
      var right := TreeCode(e, node.right, labels, default, m1, x);
      TreeSplit(e, node.left, labels, default, m, right, k);
      y := TreeCode(e, node.left, labels, default, m, right);
      Assoc(Branch(node.left, node.right), y, k);
      y := Branch(node.left, node.right) + y;
      if node.LessOrEqual? {
        ExprSplit(e, n1, y, k);
        y := ExprCode(e, n1, y);
        var test := [INT_OP(Eql), JMP(LabelOf(labels, node.value), 1), LOAD_INT_LIT(node.value2)];
        Assoc(test, y, k);
        y := test + y;
      }
    }
    ExprSplit(e, n, y, k);
    Assoc(head, ExprCode(e, n, y), k);
  }

  lemma {:induction false} StmtSplit(s: Stmt, n: Labels, brk: int, x: seq<Instr>, k: seq<Instr>)
    ensures StmtCode(s, n, brk, x + k) == StmtCode(s, n, brk, x) + k
    decreases s, 1
  {
    match s
    case Assign(slot, e) =>
      var y := [STOR_INT_VAR(slot, LOCL)];
      Assoc(y, x, k);
      ExprSplit(e, n, y + x, k);
    case OpAssign(op, slot, e) =>
      var y := [LOAD_INT_VAR(slot, LOCL), INT_OP(op), STOR_INT_VAR(slot, LOCL)];
      Assoc(y, x, k);
      ExprSplit(e, n, y + x, k);
    case SetField(slot, e) =>
      Assoc(FieldStore(slot), x, k);
      ExprSplit(e, n, FieldStore(slot) + x, k);
    case OpSetField(op, slot, e) =>
      Assoc(FieldChange(op, slot), x, k);
      ExprSplit(e, n, FieldChange(op, slot) + x, k);
    case If(chain) =>
      var n1 := n.NextUnconditional().NextConditional();
      Assoc([LBL(n1.unconditional)], x, k);
      ChainSplit(chain, n1.conditional, n1.unconditional, n1, brk, [LBL(n1.unconditional)] + x, k);
    case While(_, _) => LoopSplit(s, n, brk, x, k);
    case DoWhile(_, _) => LoopSplit(s, n, brk, x, k);
    case For(_, _, _, _) => LoopSplit(s, n, brk, x, k);
    case Select(selector, cases, other) =>
      if |Values(cases)| >= 2 { SelectSplit(s, n, brk, x, k); } else { SingleSplit(s, n, brk, x, k); }
    case Call(id, args, dest) =>
      Assoc(CallTail(id, dest), x, k);
      ArgsSplit(args, n, CallTail(id, dest) + x, k);
    case Empty =>
    case Break => Assoc([JMP(brk, -1)], x, k);
    case Return(e) =>
      Assoc([RTRN], x, k);
      if e.Some? { ExprSplit(e.value, n, [RTRN] + x, k); }
  }

  lemma {:induction false} LoopSplit(s: Stmt, n: Labels, brk: int, x: seq<Instr>, k: seq<Instr>)
    requires s.While? || s.DoWhile? || s.For?
    ensures StmtCode(s, n, brk, x + k) == StmtCode(s, n, brk, x) + k
    decreases s, 0
  {
    if s.DoWhile? {
      var n1 := n.NextConditional().NextUnconditional();
      var n2, end := AfterStmts(s.body, n1), [JMP(n1.conditional, 1), LBL(n1.unconditional)];
      Assoc(end, x, k);
      ExprSplit(s.test, n2, end + x, k);
      StmtsSplit(s.body, n1, n1.unconditional, ExprCode(s.test, n2, end + x), k);
      Assoc([LBL(n1.conditional)], StmtsCode(s.body, n1, n1.unconditional, ExprCode(s.test, n2, end + x)), k);
    } else {
      var n0 := if s.For? then AfterStmt(s.pre, n) else n;
      var n1 := n0.NextUnconditional();
      var n2 := AfterExpr(s.test, n1).NextConditional();
      var e, end := n2.conditional, [JMP(n1.unconditional, -1), LBL(n2.conditional)];
      Assoc(end, x, k);
      var y := end + x;
      if s.For? {
        StmtSplit(s.update, AfterStmts(s.body, n2), e, y, k);
        y := StmtCode(s.update, AfterStmts(s.body, n2), e, y);
      }
      StmtsSplit(s.body, n2, e, y, k);
      y := StmtsCode(s.body, n2, e, y);
      Assoc([JMP(e, 0)], y, k);
      ExprSplit(s.test, n1, [JMP(e, 0)] + y, k);
      y := ExprCode(s.test, n1, [JMP(e, 0)] + y);
      Assoc([LBL(n1.unconditional)], y, k);
      if s.For? { StmtSplit(s.pre, n, brk, [LBL(n1.unconditional)] + y, k); }
    }
  }

  lemma {:induction false} SelectSplit(s: Stmt, n: Labels, brk: int, x: seq<Instr>, k: seq<Instr>)
    requires s.Select? && |Values(s.cases)| >= 2
    ensures StmtCode(s, n, brk, x + k) == StmtCode(s, n, brk, x) + k
    decreases s, 0
  {
    var p := Plan(s, n);
    hide Plan;
    var y := [LBL(p.end)] + x;
    Assoc([LBL(p.end)], x, k);
    if s.other.Some? {
      var n1, end := AfterCases(s.cases, p.after), [JMP(p.end, -1), LBL(p.end)];
      Assoc(end, x, k);
      StmtsSplit(s.other.value, n1, brk, end + x, k);
      y := StmtsCode(s.other.value, n1, brk, end + x);
      Assoc([LBL(p.default)], y, k);
      y := [LBL(p.default)] + y;
    }
    CasesSplit(s.cases, p.labels, p.end, p.after, brk, y, k);
    TreeSplit(s.selector, p.root, p.labels, p.default, p.treeStart, CasesCode(s.cases, p.labels, p.end, p.after, brk, y), k);
  }

  lemma {:induction false} SingleSplit(s: Stmt, n: Labels, brk: int, x: seq<Instr>, k: seq<Instr>)
    requires s.Select? && |Values(s.cases)| < 2
    ensures StmtCode(s, n, brk, x + k) == StmtCode(s, n, brk, x) + k
    decreases s, 0
  {
    var Select(e, cases, other) := s;
    var n1 := SingleStart(other, n);
    var n2 := AfterExpr(e, n1);
    var n3 := AfterCases(cases, n2);
    var end, skip := [LBL(n1.unconditional)], [JMP(n1.unconditional, -1)];
    var y := end + x;
    Assoc(end, x, k);
    if other.Some? {
      StmtsSplit(other.value, n3, brk, y, k);
      y := StmtsCode(other.value, n3, brk, y);
      Assoc([LBL(n1.conditional)], y, k);
      y := [LBL(n1.conditional)] + y;
    }
    Assoc(skip, y, k);
    y := skip + y;
    if cases.Case? {
      StmtsSplit(cases.body, n2, brk, y, k);
      y := StmtsCode(cases.body, n2, brk, y);
    }
    var test := [INT_OP(Eql), JMP(if other.Some? then n1.conditional else n1.unconditional, 0)];
    Assoc(test, y, k);
    ExprSplit(e, n1, test + y, k);
    Assoc([LOAD_INT_LIT(if cases.Case? then cases.value else 0)], ExprCode(e, n1, test + y), k);
  }

  lemma {:induction false} StmtsSplit(ss: Stmts, n: Labels, brk: int, x: seq<Instr>, k: seq<Instr>)
    ensures StmtsCode(ss, n, brk, x + k) == StmtsCode(ss, n, brk, x) + k
    decreases ss
  {
    if ss.Cons? {
      var n1 := AfterStmt(ss.head, n);
      StmtsSplit(ss.tail, n1, brk, x, k);
      StmtSplit(ss.head, n, brk, StmtsCode(ss.tail, n1, brk, x), k);
    }
  }

  lemma {:induction false} ChainSplit(chain: Chain, next: int, end: int, n: Labels, brk: int, x: seq<Instr>, k: seq<Instr>)
    ensures ChainCode(chain, next, end, n, brk, x + k) == ChainCode(chain, next, end, n, brk, x) + k
    decreases chain
  {
    var n1 := AfterExpr(chain.test, n).NextConditional();
    var n2, c := AfterStmts(chain.body, n1), n1.conditional;
    ElseSplit(chain.orElse, c, end, n2, brk, x, k);
    var y := ElseCode(chain.orElse, c, end, n2, brk, x);
    var skip := [JMP(end, -1)] + Guard(chain);
    Assoc(skip, y, k);
    StmtsSplit(chain.body, n1, brk, skip + y, k);
    y := StmtsCode(chain.body, n1, brk, skip + y);
    var i := [JMP(if chain.orElse.NoElse? then end else c, 0)];
    Assoc(i, y, k);
    ExprSplit(chain.test, n, i + y, k);
    Assoc([LBL(next)], ExprCode(chain.test, n, i + y), k);
  }

  lemma {:induction false} ElseSplit(orElse: Else, c: int, end: int, n: Labels, brk: int, x: seq<Instr>, k: seq<Instr>)
    ensures ElseCode(orElse, c, end, n, brk, x + k) == ElseCode(orElse, c, end, n, brk, x) + k
    decreases orElse
  {
    match orElse
    case NoElse =>
    case ElseIf(next) => ChainSplit(next, c, end, n, brk, x, k);
    case Otherwise(rest) =>
      StmtsSplit(rest, n, brk, x, k);
      Assoc([LBL(c)], StmtsCode(rest, n, brk, x), k);
  }

  lemma {:induction false} CasesSplit(cases: Cases, labels: map<int, int>, end: int, n: Labels, brk: int, x: seq<Instr>, k: seq<Instr>)
    ensures CasesCode(cases, labels, end, n, brk, x + k) == CasesCode(cases, labels, end, n, brk, x) + k
    decreases cases
  {
    if cases.Case? {
      var n1 := AfterStmts(cases.body, n);
      CasesSplit(cases.rest, labels, end, n1, brk, x, k);
      var y := CasesCode(cases.rest, labels, end, n1, brk, x);
      Assoc([JMP(end, -1)], y, k);
      StmtsSplit(cases.body, n, brk, [JMP(end, -1)] + y, k);
      Assoc([LBL(LabelOf(labels, cases.value))], StmtsCode(cases.body, n, brk, [JMP(end, -1)] + y), k);
    }
  }

  // ----- So k is where it was -----

  lemma EndsIn(x: seq<Instr>, k: seq<Instr>)
    ensures IsSuffix(k, x + k)
  {
  }

  lemma ExprEnds(e: Expr, n: Labels, k: seq<Instr>)
    ensures IsSuffix(k, ExprCode(e, n, k))
  {
    ExprSplit(e, n, [], k);
    assert [] + k == k;
    EndsIn(ExprCode(e, n, []), k);
  }

  lemma TreeEnds(e: Expr, node: Node, labels: map<int, int>, default: int, n: Labels, k: seq<Instr>)
    ensures IsSuffix(k, TreeCode(e, node, labels, default, n, k))
  {
    TreeSplit(e, node, labels, default, n, [], k);
    assert [] + k == k;
    EndsIn(TreeCode(e, node, labels, default, n, []), k);
  }

  lemma StmtEnds(s: Stmt, n: Labels, brk: int, k: seq<Instr>)
    ensures IsSuffix(k, StmtCode(s, n, brk, k))
  {
    StmtSplit(s, n, brk, [], k);
    assert [] + k == k;
    EndsIn(StmtCode(s, n, brk, []), k);
  }

  lemma StmtsEnd(ss: Stmts, n: Labels, brk: int, k: seq<Instr>)
    ensures IsSuffix(k, StmtsCode(ss, n, brk, k))
  {
    StmtsSplit(ss, n, brk, [], k);
    assert [] + k == k;
    EndsIn(StmtsCode(ss, n, brk, []), k);
  }

  lemma ElseEnds(orElse: Else, c: int, end: int, n: Labels, brk: int, k: seq<Instr>)
    ensures IsSuffix(k, ElseCode(orElse, c, end, n, brk, k))
  {
    ElseSplit(orElse, c, end, n, brk, [], k);
    assert [] + k == k;
    EndsIn(ElseCode(orElse, c, end, n, brk, []), k);
  }

  lemma CasesEnd(cases: Cases, labels: map<int, int>, end: int, n: Labels, brk: int, k: seq<Instr>)
    ensures IsSuffix(k, CasesCode(cases, labels, end, n, brk, k))
  {
    CasesSplit(cases, labels, end, n, brk, [], k);
    assert [] + k == k;
    EndsIn(CasesCode(cases, labels, end, n, brk, []), k);
  }

  // ----- Jumps land -----

  lemma {:induction false} MarkIn(code: seq<Instr>, i: nat)
    requires i < |code| && code[i].LBL?
    ensures code[i].mark in Marks(code)
  {
    if i > 0 { MarkIn(code[1..], i - 1); }
  }

  /** A label placed once is where a jump to it lands. */
  lemma {:induction false} Lands(code: seq<Instr>, l: int, x: seq<Instr>)
    requires Fine(code) && IsSuffix([LBL(l)] + x, code)
    ensures AfterLabel(code, l) == Some(x)
  {
    var y := [LBL(l)] + x;
    var at := |code| - |y|;
    assert code[at..][0] == LBL(l) && code[at..][1..] == x;
    if at > 0 {
      MarkIn(code[1..], at - 1);
      assert code[1..][|code| - 1 - |y|..] == code[at..];
      Lands(code[1..], l, x);
    }
  }
}
