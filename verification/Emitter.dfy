// The emitter: an object that appends instructions to a block, hands out labels and keeps a stack
// of break labels, and whose methods produce exactly the code the Emission functions describe.

module Emitter {
  import opened Wrappers
  import opened Words
  import opened Bytecode
  import opened Source
  import E = Emission
  import S = StmtDiscipline
  import T = SelectMeaning

  /** Seen from the code k that follows, b grew by the instructions of x. */
  lemma Grown(b: seq<Instr>, x: seq<Instr>, k: seq<Instr>)
    ensures (b + x) + k == b + (x + k)
  {
  }

  class IntermediateEmitter {
    var block: seq<Instr>
    var conditionalLabel: int
    var unconditionalLabel: int
    var breakLabels: seq<int>              // the top is the last

    constructor ()
      ensures block == [] && breakLabels == []
      ensures Counters() == E.Labels(-1, E.UNCONDITIONAL_BASE - 1)
    {
      block, breakLabels := [], [];
      conditionalLabel := -1;
      unconditionalLabel := E.UNCONDITIONAL_BASE - 1;
    }

    function Counters(): E.Labels
      reads this
    {
      E.Labels(conditionalLabel, unconditionalLabel)
    }

    function Top(): int
      reads this
    {
      if breakLabels == [] then 0 else breakLabels[|breakLabels| - 1]
    }

    method NewBlock()
      modifies this`block
      ensures block == []
    {
      block := [];
    }

    method AddInstruction(i: Instr, ghost k: seq<Instr>)
      modifies this`block
      ensures block + k == old(block) + ([i] + k)
    {
      block := block + [i];
      Grown(old(block), [i], k);
    }

    method NextConditional() returns (l: int)
      modifies this`conditionalLabel
      ensures l == conditionalLabel && Counters() == old(Counters()).NextConditional()
    {
      conditionalLabel := conditionalLabel + 1;
      l := conditionalLabel;
    }

    method NextUnconditional() returns (l: int)
      modifies this`unconditionalLabel
      ensures l == unconditionalLabel && Counters() == old(Counters()).NextUnconditional()
    {
      unconditionalLabel := unconditionalLabel + 1;
      l := unconditionalLabel;
    }

    // ----- Expressions; k stands for the instructions that will follow -----

    method EmitExpression(e: Expr, ghost k: seq<Instr>)
      modifies this`block, this`conditionalLabel, this`unconditionalLabel
      ensures block + k == old(block) + E.ExprCode(e, old(Counters()), k)
      ensures Counters() == E.AfterExpr(e, old(Counters()))
      decreases e, 1
    {
      match e
      case IntLit(v) => AddInstruction(LOAD_INT_LIT(v), k);
      case Variable(x) => AddInstruction(LOAD_INT_VAR(x, LOCL), k);
      case Field(x) => EmitField(x, k);
      case Effect(number) => AddInstruction(EffectCode(number), k);
      case Calculated(op, left, right) => EmitCalculation(e, k);
      case Logic(_, _, _) =>
        EmitAndOr(e, k);
        AddInstruction(E.RESULT, k);
      case Cond(_, _, _) => EmitConditional(e, k);
    }

    method EmitField(x: int, ghost k: seq<Instr>)
      modifies this`block
      ensures block + k == old(block) + ([LOAD_INST_MEM, LOAD_INT_VAR(x, INST)] + k)
    {
      AddInstruction(LOAD_INST_MEM, [LOAD_INT_VAR(x, INST)] + k);
      AddInstruction(LOAD_INT_VAR(x, INST), k);
      assert [LOAD_INST_MEM, LOAD_INT_VAR(x, INST)] + k == [LOAD_INST_MEM] + ([LOAD_INT_VAR(x, INST)] + k);
    }

    method EmitCalculation(e: Expr, ghost k: seq<Instr>)
      requires e.Calculated?
      modifies this`block, this`conditionalLabel, this`unconditionalLabel
      ensures block + k == old(block) + E.ExprCode(e, old(Counters()), k)
      ensures Counters() == E.AfterExpr(e, old(Counters()))
      decreases e, 0
    {
      ghost var k1 := [INT_OP(e.op)] + k;
      EmitExpression(e.right, E.ExprCode(e.left, E.AfterExpr(e.right, Counters()), k1));
      EmitExpression(e.left, k1);
      AddInstruction(INT_OP(e.op), k);
    }

    /** and/or up to the label behind both ways; the caller loads the result. */
    method EmitAndOr(e: Expr, ghost k: seq<Instr>)
      requires e.Logic?
      modifies this`block, this`conditionalLabel, this`unconditionalLabel
      ensures block + ([E.RESULT] + k) == old(block) + E.ExprCode(e, old(Counters()), k)
      ensures Counters() == E.AfterExpr(e, old(Counters()))
      decreases e, 0
    {
      ghost var n1 := E.AfterExpr(e.right, Counters()).NextConditional().NextUnconditional();
      ghost var c, u := n1.conditional, n1.unconditional;
      ghost var k1 := [LBL(u)] + ([E.RESULT] + k);
      ghost var k2 := [E.SCRATCH] + k1;
      ghost var k3 := [LBL(c)] + E.ExprCode(e.left, n1, k2);
      ghost var k4 := [JMP(u, -1)] + k3;
      ghost var k5 := [E.SCRATCH] + k4;
      ghost var k6 := [LOAD_INT_LIT(Bool(!e.isAnd))] + k5;
      ghost var k7 := [JMP(c, Bool(e.isAnd))] + k6;
      LogicLines(e, Counters(), n1, k, k2, k3, k7);
      EmitExpression(e.right, k7);
      var conditional := NextConditional();
      AddInstruction(JMP(conditional, Bool(e.isAnd)), k6);
      AddInstruction(LOAD_INT_LIT(Bool(!e.isAnd)), k5);
      AddInstruction(E.SCRATCH, k4);
      var end := NextUnconditional();
      AddInstruction(JMP(end, -1), k3);
      AddInstruction(LBL(conditional), E.ExprCode(e.left, n1, k2));
      EmitExpression(e.left, k2);
      AddInstruction(E.SCRATCH, k1);
      AddInstruction(LBL(end), [E.RESULT] + k);
    }

    static lemma LogicLines(e: Expr, n: E.Labels, n1: E.Labels, k: seq<Instr>, k2: seq<Instr>, k3: seq<Instr>, k7: seq<Instr>)
      requires e.Logic? && n1 == E.AfterExpr(e.right, n).NextConditional().NextUnconditional()
      requires k2 == [E.SCRATCH] + ([LBL(n1.unconditional)] + ([E.RESULT] + k))
      requires k3 == [LBL(n1.conditional)] + E.ExprCode(e.left, n1, k2)
      requires k7 == [JMP(n1.conditional, Bool(e.isAnd))]
                     + ([LOAD_INT_LIT(Bool(!e.isAnd))] + ([E.SCRATCH] + ([JMP(n1.unconditional, -1)] + k3)))
      ensures E.ExprCode(e, n, k) == E.ExprCode(e.right, n, k7)
    {
      assert [E.SCRATCH, LBL(n1.unconditional), E.RESULT] + k == k2;
      var middle := [JMP(n1.conditional, Bool(e.isAnd)), LOAD_INT_LIT(Bool(!e.isAnd)), E.SCRATCH, JMP(n1.unconditional, -1),
                     LBL(n1.conditional)];
      assert middle + E.ExprCode(e.left, n1, k2) == k7;
    }

    method EmitConditional(e: Expr, ghost k: seq<Instr>)
      requires e.Cond?
      modifies this`block, this`conditionalLabel, this`unconditionalLabel
      ensures block + k == old(block) + E.ExprCode(e, old(Counters()), k)
      ensures Counters() == E.AfterExpr(e, old(Counters()))
      decreases e, 0
    {
      ghost var n := Counters();
      ghost var n1 := n.NextUnconditional();
      ghost var n2 := E.AfterExpr(e.test, n1).NextConditional();
      ghost var n3 := E.AfterExpr(e.yes, n2);
      ghost var c, u := n2.conditional, n1.unconditional;
      ghost var k1 := [E.RESULT] + k;
      ghost var k2 := [LBL(u)] + k1;
      ghost var k3 := [E.SCRATCH] + k2;
      ghost var k4 := [LBL(c)] + E.ExprCode(e.no, n3, k3);
      ghost var k5 := [JMP(u, -1)] + k4;
      ghost var k6 := [E.SCRATCH] + k5;
      ghost var k7 := [JMP(c, 0)] + E.ExprCode(e.yes, n2, k6);
      CondLines(e, n, n1, n2, k, k3, k6, k7);
      var end := NextUnconditional();
      EmitExpression(e.test, k7);
      var cond := NextConditional();
      AddInstruction(JMP(cond, 0), E.ExprCode(e.yes, n2, k6));
      EmitExpression(e.yes, k6);
      AddInstruction(E.SCRATCH, k5);
      AddInstruction(JMP(end, -1), k4);
      AddInstruction(LBL(cond), E.ExprCode(e.no, n3, k3));
      EmitExpression(e.no, k3);
      AddInstruction(E.SCRATCH, k2);
      AddInstruction(LBL(end), k1);
      AddInstruction(E.RESULT, k);
    }

    static lemma CondLines(e: Expr, n: E.Labels, n1: E.Labels, n2: E.Labels, k: seq<Instr>, k3: seq<Instr>, k6: seq<Instr>,
                           k7: seq<Instr>)
      requires e.Cond? && n1 == n.NextUnconditional() && n2 == E.AfterExpr(e.test, n1).NextConditional()
      requires k3 == [E.SCRATCH] + ([LBL(n1.unconditional)] + ([E.RESULT] + k))
      requires k6 == [E.SCRATCH] + ([JMP(n1.unconditional, -1)]
                                    + ([LBL(n2.conditional)] + E.ExprCode(e.no, E.AfterExpr(e.yes, n2), k3)))
      requires k7 == [JMP(n2.conditional, 0)] + E.ExprCode(e.yes, n2, k6)
      ensures E.ExprCode(e, n, k) == E.ExprCode(e.test, n1, k7)
    {
      var no := E.ExprCode(e.no, E.AfterExpr(e.yes, n2), k3);
      assert [E.SCRATCH, LBL(n1.unconditional), E.RESULT] + k == k3;
      assert [E.SCRATCH, JMP(n1.unconditional, -1), LBL(n2.conditional)] + no == k6;
    }

    // ----- select -----

    /** Divides values[start..end]; conditional labels count the nodes. */
    method Divide(values: seq<int>, start: nat, end: nat) returns (node: E.Node)
      requires start < end < |values|
      modifies this`conditionalLabel
      ensures (node, conditionalLabel) == E.Divide(values, start, end, old(conditionalLabel))
      decreases end - start
    {
      hide E.Divide;
      var size := end - start + 1;
      if size < 4 {
        S.DividePair(values, start, end, conditionalLabel);
        var id := NextConditional();
        var left := NextConditional();
        var right := NextConditional();
        if size == 2 {
          node := E.Less(id, values[start + 1], E.Equal(left, values[start]), E.Equal(right, values[start + 1]));
        } else {
          node := E.LessOrEqual(id, values[start + 1], values[start + 2], E.Equal(left, values[start]),
                                E.Equal(right, values[start + 2]));
        }
      } else {
        var middle := size / 2 + start;
        if size % 2 == 0 {
          S.DividesEvenly(values, start, end, conditionalLabel);
          var left := Divide(values, start, middle - 1);
          var right := Divide(values, middle, end);
          var id := NextConditional();
          node := E.Less(id, values[middle], left, right);
        } else {
          S.DividesAround(values, start, end, conditionalLabel);
          var left := Divide(values, start, middle - 1);
          var right := Divide(values, middle + 1, end);
          var id := NextConditional();
          node := E.LessOrEqual(id, values[middle], values[middle], left, right);
        }
      }
    }

    /** One literal, the selector and the comparison with it. */
    method EmitComparison(value: int, e: Expr, op: IntOp, ghost k: seq<Instr>)
      modifies this`block, this`conditionalLabel, this`unconditionalLabel
      ensures block + k == old(block) + ([LOAD_INT_LIT(value)] + E.ExprCode(e, old(Counters()), [INT_OP(op)] + k))
      ensures Counters() == E.AfterExpr(e, old(Counters()))
    {
      AddInstruction(LOAD_INT_LIT(value), E.ExprCode(e, Counters(), [INT_OP(op)] + k));
      EmitExpression(e, [INT_OP(op)] + k);
      AddInstruction(INT_OP(op), k);
    }

    static lemma Three(i: Instr, j: Instr, l: Instr, k: seq<Instr>)
      ensures [i] + ([j] + ([l] + k)) == [i, j, l] + k
    {
    }

    static lemma Two(i: Instr, j: Instr, k: seq<Instr>)
      ensures [i] + ([j] + k) == [i, j] + k
    {
    }

    /** The branch of a node and both its subtrees. */
    method EmitBranch(e: Expr, node: E.Node, labels: map<int, int>, default: int, ghost k: seq<Instr>)
      requires !node.Equal?
      modifies this`block, this`conditionalLabel, this`unconditionalLabel
      ensures block + k == old(block) + ([JMP(node.left.id, 1)] + T.Subtrees(e, node, labels, default, old(Counters()), k))
      ensures Counters() == E.AfterTree(e, node.right, E.AfterTree(e, node.left, old(Counters())))
      decreases node, 0
    {
      hide E.TreeCode, E.AfterTree;
      ghost var right := E.TreeCode(e, node.right, labels, default, E.AfterTree(e, node.left, Counters()), k);
      ghost var left := E.TreeCode(e, node.left, labels, default, Counters(), right);
      AddInstruction(JMP(node.left.id, 1), [JMP(node.right.id, -1)] + left);
      AddInstruction(JMP(node.right.id, -1), left);
      EmitTree(e, node.left, labels, default, right);
      EmitTree(e, node.right, labels, default, k);
    }

    method EmitTree(e: Expr, node: E.Node, labels: map<int, int>, default: int, ghost k: seq<Instr>)
      modifies this`block, this`conditionalLabel, this`unconditionalLabel
      ensures block + k == old(block) + E.TreeCode(e, node, labels, default, old(Counters()), k)
      ensures Counters() == E.AfterTree(e, node, old(Counters()))
      decreases node, 1
    {
      hide E.TreeCode, E.ExprCode, E.AfterExpr, T.Subtrees;
      ghost var n, n1 := Counters(), E.AfterExpr(e, Counters());
      T.TreeIsNode(e, node, labels, default, n, k);
      AddInstruction(LBL(node.id), T.NodeCode(e, node, labels, default, n, k));
      match node
      case Equal(id, value) =>
        var l := E.LabelOf(labels, value);
        ghost var k1 := [JMP(default, -1)] + k;
        Two(INT_OP(Eql), JMP(l, 1), k1);
        EmitComparison(value, e, Eql, [JMP(l, 1)] + k1);
        AddInstruction(JMP(l, 1), k1);
        AddInstruction(JMP(default, -1), k);
      case Less(id, value, left, right) =>
        ghost var k1 := T.Subtrees(e, node, labels, default, n1, k);
        Two(INT_OP(Les), JMP(left.id, 1), k1);
        EmitComparison(value, e, Les, [JMP(left.id, 1)] + k1);
        EmitBranch(e, node, labels, default, k);
      case LessOrEqual(id, value, value2, left, right) =>
        var l := E.LabelOf(labels, value);
        ghost var k1 := T.Subtrees(e, node, labels, default, E.AfterExpr(e, n1), k);
        ghost var k2 := [LOAD_INT_LIT(value2)] + E.ExprCode(e, n1, [INT_OP(Les)] + ([JMP(left.id, 1)] + k1));
        Two(INT_OP(Les), JMP(left.id, 1), k1);
        Two(INT_OP(Eql), JMP(l, 1), k2);
        EmitComparison(value, e, Eql, [JMP(l, 1)] + k2);
        AddInstruction(JMP(l, 1), k2);
        EmitComparison(value2, e, Les, [JMP(left.id, 1)] + k1);
        EmitBranch(e, node, labels, default, k);
    }

    /** The labels of the case values, handed out in order. */
    method LabelValues(values: seq<int>) returns (labels: map<int, int>)
      modifies this`conditionalLabel
      ensures conditionalLabel == old(conditionalLabel) + |values|
      ensures labels == E.LabelMap(values, old(conditionalLabel) + 1)
    {
      labels := map[];
      var i := 0;
      while i < |values|
        invariant i <= |values| && conditionalLabel == old(conditionalLabel) + i
        invariant labels == E.LabelMap(values[..i], old(conditionalLabel) + 1)
      {
        assert values[..i + 1][i] == values[i] && values[..i + 1][..i] == values[..i];
        conditionalLabel := conditionalLabel + 1;
        labels := labels[values[i] := conditionalLabel];
        i := i + 1;
      }
      assert values[..|values|] == values;
    }

    /** Where the statements of the cases go, each ending in a jump to the end label. */
    method EmitCases(cases: Cases, labels: map<int, int>, end: int, ghost k: seq<Instr>)
      modifies this
      ensures block + k == old(block) + E.CasesCode(cases, labels, end, old(Counters()), old(Top()), k)
      ensures Counters() == E.AfterCases(cases, old(Counters())) && breakLabels == old(breakLabels)
      decreases cases, 0
    {
      var rest := cases;
      while rest.Case?
        invariant rest == cases || rest < cases
        invariant breakLabels == old(breakLabels)
        invariant block + E.CasesCode(rest, labels, end, Counters(), Top(), k)
               == old(block) + E.CasesCode(cases, labels, end, old(Counters()), old(Top()), k)
        invariant E.AfterCases(rest, Counters()) == E.AfterCases(cases, old(Counters()))
        decreases rest
      {
        ghost var n1 := E.AfterStmts(rest.body, Counters());
        ghost var k1 := E.CasesCode(rest.rest, labels, end, n1, Top(), k);
        ghost var k2 := [JMP(end, -1)] + k1;
        AddInstruction(LBL(E.LabelOf(labels, rest.value)), E.StmtsCode(rest.body, Counters(), Top(), k2));
        EmitStatements(rest.body, k2);
        AddInstruction(JMP(end, -1), k1);
        rest := rest.rest;
      }
    }

    /** Labels the case values and the other part, and divides the values into a search tree. */
    method BuildSelectTree(s: Stmt) returns (labels: map<int, int>, otherLabel: int, root: E.Node)
      requires s.Select? && |Values(s.cases)| >= 2
      modifies this`conditionalLabel
      ensures labels == E.LabelMap(Values(s.cases), old(conditionalLabel) + 1)
      ensures var last := old(conditionalLabel) + |Values(s.cases)| + if s.other.Some? then 1 else 0;
        && (root, conditionalLabel) == E.Divide(Values(s.cases), 0, |Values(s.cases)| - 1, last)
        && (s.other.Some? ==> otherLabel == last)
    {
      hide E.Divide, E.LabelMap;
      var values := Values(s.cases);
      labels := LabelValues(values);
      otherLabel := 0;
      if s.other.Some? { otherLabel := NextConditional(); }
      root := Divide(values, 0, |values| - 1);
    }

    /** A select with two or more labels. */
    method EmitSelectTree(s: Stmt, ghost k: seq<Instr>)
      requires s.Select? && |Values(s.cases)| >= 2
      modifies this
      ensures block + k == old(block) + E.StmtCode(s, old(Counters()), old(Top()), k)
      ensures Counters() == E.AfterStmt(s, old(Counters())) && breakLabels == old(breakLabels)
      decreases s, 0
    {
      hide E.Plan, E.Divide, E.LabelMap, E.StmtCode, E.StmtsCode, E.CasesCode, E.TreeCode, E.AfterStmt, E.AfterCases, E.AfterTree;
      ghost var n, brk, after := Counters(), Top(), E.Plan(s, Counters()).after;
      var labels, otherLabel, root := BuildSelectTree(s);
      var end := NextUnconditional();
      var default := if s.other.Some? then otherLabel else end;
      ghost var k1 := [LBL(end)] + k;
      ghost var n1 := E.AfterCases(s.cases, after);
      ghost var k2 := if s.other.Some? then [LBL(default)] + E.StmtsCode(s.other.value, n1, brk, [JMP(end, -1)] + k1) else k1;
      ghost var k3 := E.CasesCode(s.cases, labels, end, after, brk, k2);
      SelectLines(s, n, brk, k, k1, k2, k3, labels, root, end, default, Counters());
      EmitTree(s.selector, root, labels, default, k3);
      EmitCases(s.cases, labels, end, k2);
      EmitOther(s.other, default, end, k1);
      AddInstruction(LBL(end), k);
    }

    /** The other part of a select, if there is one. */
    method EmitOther(other: Option<Stmts>, default: int, end: int, ghost k: seq<Instr>)
      modifies this
      ensures block + k == old(block) +
        if other.Some? then [LBL(default)] + E.StmtsCode(other.value, old(Counters()), old(Top()), [JMP(end, -1)] + k) else k
      ensures Counters() == (if other.Some? then E.AfterStmts(other.value, old(Counters())) else old(Counters()))
      ensures breakLabels == old(breakLabels)
      decreases other
    {
      if other.Some? {
        AddInstruction(LBL(default), E.StmtsCode(other.value, Counters(), Top(), [JMP(end, -1)] + k));
        EmitStatements(other.value, [JMP(end, -1)] + k);
        AddInstruction(JMP(end, -1), k);
      }
    }

    static lemma SelectLines(s: Stmt, n: E.Labels, brk: int, k: seq<Instr>, k1: seq<Instr>, k2: seq<Instr>, k3: seq<Instr>,
                             labels: map<int, int>, root: E.Node, end: int, default: int, treeStart: E.Labels)
      requires s.Select? && |Values(s.cases)| >= 2
      requires labels == E.LabelMap(Values(s.cases), n.conditional + 1)
      requires var last := n.conditional + |Values(s.cases)| + if s.other.Some? then 1 else 0;
        && (root, treeStart.conditional) == E.Divide(Values(s.cases), 0, |Values(s.cases)| - 1, last)
        && end == treeStart.unconditional == n.unconditional + 1
        && default == if s.other.Some? then last else end
      requires k1 == [LBL(end)] + k
      requires var p := E.Plan(s, n);
        && k2 == (if s.other.Some?
                  then [LBL(default)] + E.StmtsCode(s.other.value, E.AfterCases(s.cases, p.after), brk, [JMP(end, -1)] + k1)
                  else k1)
        && k3 == E.CasesCode(s.cases, labels, end, p.after, brk, k2)
      ensures var p := E.Plan(s, n);
        && E.StmtCode(s, n, brk, k) == E.TreeCode(s.selector, root, labels, default, treeStart, k3)
        && p.after == E.AfterTree(s.selector, root, treeStart)
        && E.AfterStmt(s, n) == if s.other.Some? then E.AfterStmts(s.other.value, E.AfterCases(s.cases, p.after))
                                else E.AfterCases(s.cases, p.after)
    {
      hide E.Divide, E.LabelMap, E.TreeCode, E.CasesCode, E.StmtsCode;
      Two(JMP(end, -1), LBL(end), k);
      assert E.Plan(s, n).treeStart == treeStart;
    }

    /** A select with one label. */
    method EmitSelectSingle(s: Stmt, ghost k: seq<Instr>)
      requires s.Select? && |Values(s.cases)| < 2
      modifies this
      ensures block + k == old(block) + E.StmtCode(s, old(Counters()), old(Top()), k)
      ensures Counters() == E.AfterStmt(s, old(Counters())) && breakLabels == old(breakLabels)
      decreases s, 0
    {
      hide E.ExprCode, E.StmtsCode, E.StmtCode, E.SingleTail, E.AfterCases, E.AfterStmt;
      var Select(e, cases, other) := s;
      ghost var n, brk, n1 := Counters(), Top(), E.SingleStart(other, Counters());
      ghost var n2 := E.AfterExpr(e, n1);
      var end := NextUnconditional();
      var otherLabel := 0;
      if other.Some? { otherLabel := NextConditional(); }
      var exit := if other.Some? then otherLabel else end;
      ghost var k2, k3, k4 := SingleLines(s, n, brk, k, end, exit);
      EmitComparison(if cases.Case? then cases.value else 0, e, Eql, [JMP(exit, 0)] + k4);
      AddInstruction(JMP(exit, 0), k4);
      if cases.Case? { EmitStatements(cases.body, k3); }
      AddInstruction(JMP(end, -1), k2);
      if other.Some? {
        AddInstruction(LBL(otherLabel), E.StmtsCode(other.value, Counters(), brk, [LBL(end)] + k));
        EmitStatements(other.value, [LBL(end)] + k);
      }
      AddInstruction(LBL(end), k);
    }

    static lemma SingleLines(s: Stmt, n: E.Labels, brk: int, k: seq<Instr>, end: int, exit: int)
      returns (k2: seq<Instr>, k3: seq<Instr>, k4: seq<Instr>)
      requires s.Select? && |Values(s.cases)| < 2
      requires var n1 := E.SingleStart(s.other, n);
        end == n1.unconditional && exit == if s.other.Some? then n1.conditional else end
      ensures var n1 := E.SingleStart(s.other, n);
        var n2 := E.AfterExpr(s.selector, n1);
        var n3 := if s.cases.Case? then E.AfterStmts(s.cases.body, n2) else n2;
        && k2 == (if s.other.Some? then [LBL(exit)] + E.StmtsCode(s.other.value, n3, brk, [LBL(end)] + k) else [LBL(end)] + k)
        && k3 == [JMP(end, -1)] + k2
        && k4 == (if s.cases.Case? then E.StmtsCode(s.cases.body, n2, brk, k3) else k3)
        && E.StmtCode(s, n, brk, k) == [LOAD_INT_LIT(if s.cases.Case? then s.cases.value else 0)]
             + E.ExprCode(s.selector, n1, [INT_OP(Eql)] + ([JMP(exit, 0)] + k4))
        && E.AfterStmt(s, n) == if s.other.Some? then E.AfterStmts(s.other.value, n3) else n3
    {
      hide E.ExprCode, E.StmtsCode, E.AfterStmts;
      var n1 := E.SingleStart(s.other, n);
      var n2 := E.AfterExpr(s.selector, n1);
      if s.cases.Case? { OneCase(s.cases, n2); }
      var n3 := E.AfterCases(s.cases, n2);
      k2 := if s.other.Some? then [LBL(exit)] + E.StmtsCode(s.other.value, n3, brk, [LBL(end)] + k) else [LBL(end)] + k;
      k3 := [JMP(end, -1)] + k2;
      assert E.SingleTail(s.other, n1, n3, brk, k) == k3;
      k4 := if s.cases.Case? then E.StmtsCode(s.cases.body, n2, brk, k3) else k3;
      Two(INT_OP(Eql), JMP(exit, 0), k4);
    }

    method EmitSelect(s: Stmt, ghost k: seq<Instr>)
      requires s.Select?
      modifies this
      ensures block + k == old(block) + E.StmtCode(s, old(Counters()), old(Top()), k)
      ensures Counters() == E.AfterStmt(s, old(Counters())) && breakLabels == old(breakLabels)
      decreases s, 1
    {
      hide E.StmtCode, E.AfterStmt;
      if |Values(s.cases)| > 1 { EmitSelectTree(s, k); } else { EmitSelectSingle(s, k); }
    }

    static lemma OneCase(cases: Cases, n: E.Labels)
      requires cases.Case? && |Values(cases)| < 2
      ensures E.AfterCases(cases, n) == E.AfterStmts(cases.body, n)
    {
      S.SingleCase(cases);
    }

    // ----- if -----

    method EmitIf(s: Stmt, ghost k: seq<Instr>)
      requires s.If?
      modifies this
      ensures block + k == old(block) + E.StmtCode(s, old(Counters()), old(Top()), k)
      ensures Counters() == E.AfterStmt(s, old(Counters())) && breakLabels == old(breakLabels)
      decreases s, 0
    {
      var end := NextUnconditional();
      var next := NextConditional();
      EmitIfChain(s.chain, next, end, [LBL(end)] + k);
      AddInstruction(LBL(end), k);
    }

    method EmitIfChain(chain: Chain, next: int, end: int, ghost k: seq<Instr>)
      modifies this
      ensures block + k == old(block) + E.ChainCode(chain, next, end, old(Counters()), old(Top()), k)
      ensures Counters() == E.AfterChain(chain, old(Counters())) && breakLabels == old(breakLabels)
      decreases chain, 1
    {
      ghost var n, brk := Counters(), Top();
      ghost var n1 := E.AfterExpr(chain.test, n).NextConditional();
      ghost var n2 := E.AfterStmts(chain.body, n1);
      ghost var k1, k2, k3, i := ChainLines(chain, next, end, n, brk, k);
      hide E.ChainCode, E.ExprCode, E.StmtsCode, E.ElseCode, E.AfterChain, E.AfterElse, E.AfterStmts, E.Guard;
      AddInstruction(LBL(next), E.ExprCode(chain.test, n, [i] + k3));
      EmitExpression(chain.test, [i] + k3);
      var conditional := NextConditional();
      AddInstruction(JMP(if !chain.orElse.NoElse? then conditional else end, 0), k3);
      EmitStatements(chain.body, [JMP(end, -1)] + k2);
      AddInstruction(JMP(end, -1), k2);
      // an empty body would put the jump right in front of its label
      if chain.body.Nil? && !chain.orElse.ElseIf? { AddInstruction(POP_INT, k1); }
      EmitElse(chain.orElse, conditional, end, k);
    }

    static lemma ChainLines(chain: Chain, next: int, end: int, n: E.Labels, brk: int, k: seq<Instr>)
      returns (k1: seq<Instr>, k2: seq<Instr>, k3: seq<Instr>, i: Instr)
      ensures var n1 := E.AfterExpr(chain.test, n).NextConditional();
        && k1 == E.ElseCode(chain.orElse, n1.conditional, end, E.AfterStmts(chain.body, n1), brk, k)
        && k2 == (if chain.body.Nil? && !chain.orElse.ElseIf? then [POP_INT] + k1 else k1)
        && k3 == E.StmtsCode(chain.body, n1, brk, [JMP(end, -1)] + k2)
        && i == JMP(if chain.orElse.NoElse? then end else n1.conditional, 0)
        && E.ChainCode(chain, next, end, n, brk, k) == [LBL(next)] + E.ExprCode(chain.test, n, [i] + k3)
        && E.AfterChain(chain, n) == E.AfterElse(chain.orElse, E.AfterStmts(chain.body, n1))
    {
      hide E.ExprCode, E.StmtsCode, E.ElseCode, E.AfterStmts;
      var n1 := E.AfterExpr(chain.test, n).NextConditional();
      k1 := E.ElseCode(chain.orElse, n1.conditional, end, E.AfterStmts(chain.body, n1), brk, k);
      k2 := if chain.body.Nil? && !chain.orElse.ElseIf? then [POP_INT] + k1 else k1;
      assert k2 == E.Guard(chain) + k1;
      assert [JMP(end, -1)] + E.Guard(chain) + k1 == [JMP(end, -1)] + k2;
      k3 := E.StmtsCode(chain.body, n1, brk, [JMP(end, -1)] + k2);
      i := JMP(if chain.orElse.NoElse? then end else n1.conditional, 0);
    }

    method EmitElse(orElse: Else, conditional: int, end: int, ghost k: seq<Instr>)
      modifies this
      ensures block + k == old(block) + E.ElseCode(orElse, conditional, end, old(Counters()), old(Top()), k)
      ensures Counters() == E.AfterElse(orElse, old(Counters())) && breakLabels == old(breakLabels)
      decreases orElse, 0
    {
      match orElse
      case NoElse =>
      case ElseIf(next) => EmitIfChain(next, conditional, end, k);
      case Otherwise(rest) =>
        AddInstruction(LBL(conditional), E.StmtsCode(rest, Counters(), Top(), k));
        EmitStatements(rest, k);
    }

    // ----- Loops -----

    method PushBreak(l: int)
      modifies this`breakLabels
      ensures breakLabels == old(breakLabels) + [l] && Top() == l
    {
      breakLabels := breakLabels + [l];
    }

    method PopBreak() returns (l: int)
      requires breakLabels != []
      modifies this`breakLabels
      ensures l == old(Top()) && breakLabels == old(breakLabels)[..|old(breakLabels)| - 1]
    {
      l := Top();
      breakLabels := breakLabels[..|breakLabels| - 1];
    }

    method EmitWhile(s: Stmt, ghost k: seq<Instr>)
      requires s.While?
      modifies this
      ensures block + k == old(block) + E.StmtCode(s, old(Counters()), old(Top()), k)
      ensures Counters() == E.AfterStmt(s, old(Counters())) && breakLabels == old(breakLabels)
      decreases s, 0
    {
      ghost var n1 := Counters().NextUnconditional();
      ghost var n2 := E.AfterExpr(s.test, n1).NextConditional();
      ghost var b := n2.conditional;
      ghost var k1 := [JMP(n1.unconditional, -1)] + ([LBL(b)] + k);
      ghost var k2 := [JMP(b, 0)] + E.StmtsCode(s.body, n2, b, k1);
      Two(JMP(n1.unconditional, -1), LBL(b), k);
      var unconditional := NextUnconditional();
      AddInstruction(LBL(unconditional), E.ExprCode(s.test, n1, k2));
      EmitExpression(s.test, k2);
      var breakLabel := NextConditional();
      PushBreak(breakLabel);
      AddInstruction(JMP(breakLabel, 0), E.StmtsCode(s.body, n2, b, k1));
      EmitStatements(s.body, k1);
      AddInstruction(JMP(unconditional, -1), [LBL(b)] + k);
      breakLabel := PopBreak();
      AddInstruction(LBL(breakLabel), k);
    }

    method EmitDoWhile(s: Stmt, ghost k: seq<Instr>)
      requires s.DoWhile?
      modifies this
      ensures block + k == old(block) + E.StmtCode(s, old(Counters()), old(Top()), k)
      ensures Counters() == E.AfterStmt(s, old(Counters())) && breakLabels == old(breakLabels)
      decreases s, 0
    {
      ghost var n1 := Counters().NextConditional().NextUnconditional();
      ghost var c, b, n2 := n1.conditional, n1.unconditional, E.AfterStmts(s.body, n1);
      ghost var k1 := [JMP(c, 1)] + ([LBL(b)] + k);
      Two(JMP(c, 1), LBL(b), k);
      var conditional := NextConditional();
      var breakLabel := NextUnconditional();
      PushBreak(breakLabel);
      AddInstruction(LBL(conditional), E.StmtsCode(s.body, n1, b, E.ExprCode(s.test, n2, k1)));
      EmitStatements(s.body, E.ExprCode(s.test, n2, k1));
      EmitExpression(s.test, k1);
      AddInstruction(JMP(conditional, 1), [LBL(b)] + k);
      breakLabel := PopBreak();
      AddInstruction(LBL(breakLabel), k);
    }

    method EmitFor(s: Stmt, ghost k: seq<Instr>)
      requires s.For?
      modifies this
      ensures block + k == old(block) + E.StmtCode(s, old(Counters()), old(Top()), k)
      ensures Counters() == E.AfterStmt(s, old(Counters())) && breakLabels == old(breakLabels)
      decreases s, 0
    {
      ghost var n1 := E.AfterStmt(s.pre, Counters()).NextUnconditional();
      ghost var n2 := E.AfterExpr(s.test, n1).NextConditional();
      ghost var b, n3 := n2.conditional, E.AfterStmts(s.body, n2);
      ghost var k1 := [JMP(n1.unconditional, -1)] + ([LBL(b)] + k);
      ghost var k2 := E.StmtCode(s.update, n3, b, k1);
      ghost var k3 := [JMP(b, 0)] + E.StmtsCode(s.body, n2, b, k2);
      ghost var k4 := [LBL(n1.unconditional)] + E.ExprCode(s.test, n1, k3);
      Two(JMP(n1.unconditional, -1), LBL(b), k);
      EmitStatement(s.pre, k4);
      var unconditional := NextUnconditional();
      AddInstruction(LBL(unconditional), E.ExprCode(s.test, n1, k3));
      EmitExpression(s.test, k3);
      var breakLabel := NextConditional();
      PushBreak(breakLabel);
      AddInstruction(JMP(breakLabel, 0), E.StmtsCode(s.body, n2, b, k2));
      EmitStatements(s.body, k2);
      EmitStatement(s.update, k1);
      AddInstruction(JMP(unconditional, -1), [LBL(b)] + k);
      breakLabel := PopBreak();
      AddInstruction(LBL(breakLabel), k);
    }

    // ----- Calls -----

    method EmitMethodCallParameters(args: seq<Expr>, ghost k: seq<Instr>)
      modifies this`block, this`conditionalLabel, this`unconditionalLabel
      ensures block + k == old(block) + E.ArgsCode(args, old(Counters()), k)
      ensures Counters() == E.AfterArgs(args, old(Counters()))
    {
      hide E.ExprCode, E.AfterExpr;
      var i := 0;
      assert args[0..] == args;
      while i < |args|
        invariant 0 <= i <= |args|
        invariant block + E.ArgsCode(args[i..], Counters(), k) == old(block) + E.ArgsCode(args, old(Counters()), k)
        invariant E.AfterArgs(args[i..], Counters()) == E.AfterArgs(args, old(Counters()))
      {
        assert args[i..][0] == args[i] && args[i..][1..] == args[i + 1..];
        EmitExpression(args[i], E.ArgsCode(args[i + 1..], E.AfterExpr(args[i], Counters()), k));
        i := i + 1;
      }
      assert args[i..] == [];
    }

    /** A call of a method of the same instance; its value is stored, dropped, or there is none. */
    method EmitMethodCallStatement(s: Stmt, ghost k: seq<Instr>)
      requires s.Call?
      modifies this
      ensures block + k == old(block) + E.StmtCode(s, old(Counters()), old(Top()), k)
      ensures Counters() == E.AfterStmt(s, old(Counters())) && breakLabels == old(breakLabels)
      decreases s, 0
    {
      hide E.ArgsCode, E.AfterArgs;
      ghost var k1 := E.CallTail(s.id, s.dest)[2..] + k;
      assert E.CallTail(s.id, s.dest) + k == [LOAD_INST_MEM] + ([MTHD_CALL(s.id)] + k1);
      EmitMethodCallParameters(s.args, E.CallTail(s.id, s.dest) + k);
      AddInstruction(LOAD_INST_MEM, [MTHD_CALL(s.id)] + k1);
      AddInstruction(MTHD_CALL(s.id), k1);
      match s.dest
      case Nowhere => assert k1 == k;
      case Dropped => AddInstruction(POP_INT, k);
      case Into(x) => AddInstruction(STOR_INT_VAR(x, LOCL), k);
    }

    // ----- Statements -----

    method EmitAssignment(s: Stmt, ghost k: seq<Instr>)
      requires s.Assign? || s.OpAssign?
      modifies this
      ensures block + k == old(block) + E.StmtCode(s, old(Counters()), old(Top()), k)
      ensures Counters() == E.AfterStmt(s, old(Counters())) && breakLabels == old(breakLabels)
      decreases s, 0
    {
      var x := s.slot;
      ghost var k1 := [STOR_INT_VAR(x, LOCL)] + k;
      if s.OpAssign? {
        ghost var k2 := [INT_OP(s.op)] + k1;
        Three(LOAD_INT_VAR(x, LOCL), INT_OP(s.op), STOR_INT_VAR(x, LOCL), k);
        EmitExpression(s.value, [LOAD_INT_VAR(x, LOCL)] + k2);
        AddInstruction(LOAD_INT_VAR(x, LOCL), k2);
        AddInstruction(INT_OP(s.op), k1);
      } else {
        EmitExpression(s.value, k1);
      }
      AddInstruction(STOR_INT_VAR(x, LOCL), k);
    }

    /** The same for a variable of the own instance: the instance goes on top of the value. */
    method EmitFieldAssignment(s: Stmt, ghost k: seq<Instr>)
      requires s.SetField? || s.OpSetField?
      modifies this
      ensures block + k == old(block) + E.StmtCode(s, old(Counters()), old(Top()), k)
      ensures Counters() == E.AfterStmt(s, old(Counters())) && breakLabels == old(breakLabels)
      decreases s, 0
    {
      var x := s.slot;
      ghost var store := [STOR_INT_VAR(x, INST)] + k;
      assert E.FieldStore(x) + k == [LOAD_INST_MEM] + store;
      if s.OpSetField? {
        ghost var k1 := [INT_OP(s.op)] + (E.FieldStore(x) + k);
        ghost var k2 := [LOAD_INT_VAR(x, INST)] + k1;
        assert E.FieldChange(s.op, x) + k == [LOAD_INST_MEM] + k2;
        EmitExpression(s.value, [LOAD_INST_MEM] + k2);
        AddInstruction(LOAD_INST_MEM, k2);
        AddInstruction(LOAD_INT_VAR(x, INST), k1);
        AddInstruction(INT_OP(s.op), E.FieldStore(x) + k);
      } else {
        EmitExpression(s.value, E.FieldStore(x) + k);
      }
      AddInstruction(LOAD_INST_MEM, store);
      AddInstruction(STOR_INT_VAR(x, INST), k);
    }

    method EmitStatement(s: Stmt, ghost k: seq<Instr>)
      modifies this
      ensures block + k == old(block) + E.StmtCode(s, old(Counters()), old(Top()), k)
      ensures Counters() == E.AfterStmt(s, old(Counters())) && breakLabels == old(breakLabels)
      decreases s, 2
    {
      match s
      case Assign(_, _) => EmitAssignment(s, k);
      case OpAssign(_, _, _) => EmitAssignment(s, k);
      case SetField(_, _) => EmitFieldAssignment(s, k);
      case OpSetField(_, _, _) => EmitFieldAssignment(s, k);
      case If(_) => EmitIf(s, k);
      case While(_, _) => EmitWhile(s, k);
      case DoWhile(_, _) => EmitDoWhile(s, k);
      case For(_, _, _, _) => EmitFor(s, k);
      case Select(_, _, _) => EmitSelect(s, k);
      case Call(_, _, _) => EmitMethodCallStatement(s, k);
      case Empty =>
      case Break => AddInstruction(JMP(Top(), -1), k);
      case Return(e) =>
        if e.Some? { EmitExpression(e.value, [RTRN] + k); }
        AddInstruction(RTRN, k);
    }

    method EmitStatements(ss: Stmts, ghost k: seq<Instr>)
      modifies this
      ensures block + k == old(block) + E.StmtsCode(ss, old(Counters()), old(Top()), k)
      ensures Counters() == E.AfterStmts(ss, old(Counters())) && breakLabels == old(breakLabels)
      decreases ss, 0
    {
      var rest := ss;
      while rest.Cons?
        invariant rest == ss || rest < ss
        invariant breakLabels == old(breakLabels)
        invariant block + E.StmtsCode(rest, Counters(), Top(), k)
               == old(block) + E.StmtsCode(ss, old(Counters()), old(Top()), k)
        invariant E.AfterStmts(rest, Counters()) == E.AfterStmts(ss, old(Counters()))
        decreases rest
      {
        EmitStatement(rest.head, E.StmtsCode(rest.tail, E.AfterStmt(rest.head, Counters()), Top(), k));
        rest := rest.tail;
      }
    }

    // ----- Methods -----

    /** The block of a method: parameters stored in reverse, statements, and a return if the last
        statement is not one. */
    method EmitMethod(r: Routine)
      requires breakLabels == []
      modifies this
      ensures block == E.RoutineCode(r, old(Counters()))
      ensures Counters() == E.AfterStmts(r.body, old(Counters())) && breakLabels == []
    {
      ghost var end := E.Epilogue(r);
      ghost var k := E.StmtsCode(r.body, Counters(), 0, end);
      NewBlock();
      var i := |r.params|;
      assert r.params[..i] == r.params;
      while i > 0
        invariant 0 <= i <= |r.params| && breakLabels == [] && Counters() == old(Counters())
        invariant block + E.Prologue(r.params[..i], k) == E.RoutineCode(r, old(Counters()))
      {
        i := i - 1;
        assert r.params[..i + 1][..i] == r.params[..i] && r.params[..i + 1][i] == r.params[i];
        AddInstruction(STOR_INT_VAR(r.params[i], LOCL), E.Prologue(r.params[..i], k));
      }
      EmitStatements(r.body, end);
      var endReturn := LastReturns(r.body);
      ghost var return' := if endReturn then [] else [RTRN];
      if r.constructs {
        AddInstruction(LOAD_INST_MEM, return');
      } else {
        assert end == return';
      }
      if !endReturn { AddInstruction(RTRN, []); }
      assert block + [] == block;
    }

    /** The blocks of a class, one method after the other. */
    method EmitClass(routines: seq<Routine>) returns (blocks: seq<seq<Instr>>)
      requires breakLabels == []
      modifies this
      ensures |blocks| == |routines| && breakLabels == []
      ensures forall i :: 0 <= i < |blocks| ==>
        blocks[i] == E.RoutineCode(routines[i], E.LabelsAt(routines, old(Counters()), i))
      ensures Counters() == E.LabelsAt(routines, old(Counters()), |routines|)
    {
      hide E.RoutineCode, E.AfterStmts;
      blocks := [];
      var i := 0;
      while i < |routines|
        invariant i == |blocks| <= |routines| && breakLabels == []
        invariant Counters() == E.LabelsAt(routines, old(Counters()), i)
        invariant forall j :: 0 <= j < i ==>
          blocks[j] == E.RoutineCode(routines[j], E.LabelsAt(routines, old(Counters()), j))
      {
        EmitMethod(routines[i]);
        blocks := blocks + [block];
        i := i + 1;
      }
    }
  }
}
