// Label discipline of statements, carried from the expressions.

module StmtDiscipline {
  import opened Wrappers
  import opened Words
  import opened Bytecode
  import opened Source
  import opened Emission
  import opened Discipline

  // ----- Counters only grow -----

  lemma {:induction false} DivideGrows(values: seq<int>, start: nat, end: nat, last: int)
    requires start < end < |values|
    ensures last < Divide(values, start, end, last).1
    decreases end - start
  {
    hide Divide;
    if end - start < 3 {
      DividePair(values, start, end, last);
    } else {
      var middle, from := DivideParts(values, start, end, last);
      DivideGrows(values, start, middle - 1, last);
      DivideGrows(values, from, end, Divide(values, start, middle - 1, last).1);
    }
  }

  lemma {:induction false} TreeOrdered(e: Expr, node: Node, n: Labels)
    ensures Ordered(n, AfterTree(e, node, n))
  {
    ExprOrdered(e, n);
    var n1 := AfterExpr(e, n);
    match node
    case Equal(_, _) =>
    case Less(_, _, left, right) =>
      TreeOrdered(e, left, n1);
      TreeOrdered(e, right, AfterTree(e, left, n1));
    case LessOrEqual(_, _, _, left, right) =>
      ExprOrdered(e, n1);
      var n2 := AfterExpr(e, n1);
      TreeOrdered(e, left, n2);
      TreeOrdered(e, right, AfterTree(e, left, n2));
  }

  lemma PlanOrdered(s: Stmt, n: Labels)
    requires s.Select? && |Values(s.cases)| >= 2
    ensures Ordered(n, Plan(s, n).treeStart) && Ordered(Plan(s, n).treeStart, Plan(s, n).after)
  {
    var values := Values(s.cases);
    DivideGrows(values, 0, |values| - 1, n.conditional + |values| + if s.other.Some? then 1 else 0);
    TreeOrdered(s.selector, Plan(s, n).root, Plan(s, n).treeStart);
  }

  lemma {:induction false} ArgsOrdered(args: seq<Expr>, n: Labels)
    ensures Ordered(n, AfterArgs(args, n))
  {
    if args != [] {
      ExprOrdered(args[0], n);
      ArgsOrdered(args[1..], AfterExpr(args[0], n));
    }
  }

  lemma {:induction false} StmtOrdered(s: Stmt, n: Labels)
    ensures Ordered(n, AfterStmt(s, n))
    decreases s
  {
    match s
    case Assign(_, e) => ExprOrdered(e, n);
    case OpAssign(_, _, e) => ExprOrdered(e, n);
    case SetField(_, e) => ExprOrdered(e, n);
    case OpSetField(_, _, e) => ExprOrdered(e, n);
    case If(chain) => ChainOrdered(chain, n.NextUnconditional().NextConditional());
    case While(test, body) =>
      ExprOrdered(test, n.NextUnconditional());
      StmtsOrdered(body, AfterExpr(test, n.NextUnconditional()).NextConditional());
    case DoWhile(body, test) =>
      StmtsOrdered(body, n.NextConditional().NextUnconditional());
      ExprOrdered(test, AfterStmts(body, n.NextConditional().NextUnconditional()));
    case For(pre, test, update, body) =>
      StmtOrdered(pre, n);
      var n1 := AfterStmt(pre, n).NextUnconditional();
      ExprOrdered(test, n1);
      var n2 := AfterExpr(test, n1).NextConditional();
      StmtsOrdered(body, n2);
      StmtOrdered(update, AfterStmts(body, n2));
    case Select(selector, cases, other) =>
      var n1 := SingleStart(other, n);
      if |Values(cases)| >= 2 {
        PlanOrdered(s, n);
        n1 := Plan(s, n).after;
      } else {
        ExprOrdered(selector, n1);
        n1 := AfterExpr(selector, n1);
      }
      CasesOrdered(cases, n1);
      if other.Some? { StmtsOrdered(other.value, AfterCases(cases, n1)); }
    case Call(_, args, _) => ArgsOrdered(args, n);
    case Empty =>
    case Break =>
    case Return(e) => if e.Some? { ExprOrdered(e.value, n); }
  }

  lemma {:induction false} StmtsOrdered(ss: Stmts, n: Labels)
    ensures Ordered(n, AfterStmts(ss, n))
    decreases ss
  {
    if ss.Cons? {
      StmtOrdered(ss.head, n);
      StmtsOrdered(ss.tail, AfterStmt(ss.head, n));
    }
  }

  lemma {:induction false} ChainOrdered(chain: Chain, n: Labels)
    ensures Ordered(n, AfterChain(chain, n))
    decreases chain
  {
    ExprOrdered(chain.test, n);
    var n1 := AfterExpr(chain.test, n).NextConditional();
    StmtsOrdered(chain.body, n1);
    var n2 := AfterStmts(chain.body, n1);
    match chain.orElse
    case NoElse =>
    case ElseIf(next) => ChainOrdered(next, n2);
    case Otherwise(rest) => StmtsOrdered(rest, n2);
  }

  lemma {:induction false} CasesOrdered(cases: Cases, n: Labels)
    ensures Ordered(n, AfterCases(cases, n))
    decreases cases
  {
    if cases.Case? {
      StmtsOrdered(cases.body, n);
      CasesOrdered(cases.rest, AfterStmts(cases.body, n));
    }
  }

  // ----- The search tree -----

  function Ids(node: Node): set<int> {
    match node
    case Equal(id, _) => {id}
    case Less(id, _, left, right) => {id} + Ids(left) + Ids(right)
    case LessOrEqual(id, _, _, left, right) => {id} + Ids(left) + Ids(right)
  }

  predicate DistinctIds(node: Node) {
    node.Equal? ||
    (node.id !in Ids(node.left) && node.id !in Ids(node.right) && Ids(node.left) !! Ids(node.right)
     && DistinctIds(node.left) && DistinctIds(node.right))
  }

  /** The values the tree compares for equality. */
  function Tested(node: Node): set<int> {
    match node
    case Equal(_, value) => {value}
    case Less(_, _, left, right) => Tested(left) + Tested(right)
    case LessOrEqual(_, value, _, left, right) => {value} + Tested(left) + Tested(right)
  }

  lemma DividesEvenly(values: seq<int>, start: nat, end: nat, last: int)
    requires start < end < |values| && end - start >= 3 && (end - start + 1) % 2 == 0
    ensures var middle := (end - start + 1) / 2 + start;
      var left := Divide(values, start, middle - 1, last);
      var right := Divide(values, middle, end, left.1);
      Divide(values, start, end, last) == (Less(right.1 + 1, values[middle], left.0, right.0), right.1 + 1)
  {
  }

  lemma DividesAround(values: seq<int>, start: nat, end: nat, last: int)
    requires start < end < |values| && end - start >= 3 && (end - start + 1) % 2 != 0
    ensures var middle := (end - start + 1) / 2 + start;
      var left := Divide(values, start, middle - 1, last);
      var right := Divide(values, middle + 1, end, left.1);
      Divide(values, start, end, last) == (LessOrEqual(right.1 + 1, values[middle], values[middle], left.0, right.0), right.1 + 1)
  {
  }

  /** The parts of a division of four or more values. */
  lemma DivideParts(values: seq<int>, start: nat, end: nat, last: int) returns (middle: nat, from: nat)
    requires start < end < |values| && end - start >= 3
    ensures start < middle - 1 < middle <= from < end && (from == middle || from == middle + 1)
    ensures 2 * (middle - start) <= end - start + 1 && 2 * (end - from + 1) <= end - start + 1
    ensures var left := Divide(values, start, middle - 1, last);
      var right := Divide(values, from, end, left.1);
      var id, v := right.1 + 1, values[middle];
      && (from == middle ==> Divide(values, start, end, last) == (Less(id, v, left.0, right.0), id))
      && (from == middle + 1 ==> Divide(values, start, end, last) == (LessOrEqual(id, v, v, left.0, right.0), id))
  {
    hide Divide;
    var size := end - start + 1;
    middle := size / 2 + start;
    from := if size % 2 == 0 then middle else middle + 1;
    if size % 2 == 0 { DividesEvenly(values, start, end, last); } else { DividesAround(values, start, end, last); }
  }

  lemma DividePair(values: seq<int>, start: nat, end: nat, last: int)
    requires start < end < |values| && end - start < 3
    ensures var (l, r) := (Equal(last + 2, values[start]), Equal(last + 3, values[end]));
      Divide(values, start, end, last) ==
        (if end == start + 1 then Less(last + 1, values[end], l, r)
         else LessOrEqual(last + 1, values[start + 1], values[end], l, r), last + 3)
  {
  }

  lemma {:induction false} DivideIds(values: seq<int>, start: nat, end: nat, last: int)
    requires start < end < |values|
    ensures var r := Divide(values, start, end, last);
      DistinctIds(r.0) && (forall id <- Ids(r.0) :: last < id <= r.1) && last < r.1
    decreases end - start
  {
    hide Divide;
    if end - start < 3 {
      DividePair(values, start, end, last);
      var node := Divide(values, start, end, last).0;
      assert node.left.Equal? && node.right.Equal? && Ids(node.left) == {last + 2} && Ids(node.right) == {last + 3};
    } else {
      var middle, from := DivideParts(values, start, end, last);
      DivideIds(values, start, middle - 1, last);
      var left := Divide(values, start, middle - 1, last);
      DivideIds(values, from, end, left.1);
      var right := Divide(values, from, end, left.1);
      JoinedIds(left.0, right.0, last, left.1, right.1, values[middle], from == middle);
    }
  }

  lemma JoinedIds(left: Node, right: Node, last: int, last1: int, last2: int, v: int, even: bool)
    requires DistinctIds(left) && DistinctIds(right) && last < last1 < last2
    requires (forall id <- Ids(left) :: last < id <= last1) && (forall id <- Ids(right) :: last1 < id <= last2)
    ensures var node := if even then Less(last2 + 1, v, left, right) else LessOrEqual(last2 + 1, v, v, left, right);
      DistinctIds(node) && forall id <- Ids(node) :: last < id <= last2 + 1
  {
    forall id | id in Ids(left) ensures id !in Ids(right) {}
    assert Ids(left) * Ids(right) == {};
    assert last2 + 1 !in Ids(left) && last2 + 1 !in Ids(right);
    var node := if even then Less(last2 + 1, v, left, right) else LessOrEqual(last2 + 1, v, v, left, right);
    assert Ids(node) == {last2 + 1} + Ids(left) + Ids(right);
  }

  lemma {:induction false} DivideTests(values: seq<int>, start: nat, end: nat, last: int)
    requires start < end < |values|
    ensures forall v <- Tested(Divide(values, start, end, last).0) :: v in values
    decreases end - start
  {
    hide Divide;
    if end - start < 3 {
      DividePair(values, start, end, last);
      var node := Divide(values, start, end, last).0;
      assert Tested(node) <= {values[start], values[start + 1], values[end]};
      assert values[start] in values && values[start + 1] in values && values[end] in values;
    } else {
      var middle, from := DivideParts(values, start, end, last);
      var left := Divide(values, start, middle - 1, last);
      var right := Divide(values, from, end, left.1);
      DivideTests(values, start, middle - 1, last);
      DivideTests(values, from, end, left.1);
      assert Tested(Divide(values, start, end, last).0) <= Tested(left.0) + Tested(right.0) + {values[middle]};
      assert values[middle] in values;
    }
  }

  /** An expression in front of code that is disciplined between lo and hi. */
  lemma ExprBefore(e: Expr, n: Labels, lo: Labels, hi: Labels, open: set<int>, code: seq<Instr>, k: seq<Instr>)
    requires Disciplined(code, lo, hi, open, k) && Apart(lo, hi) && Ordered(lo, n) && Ordered(AfterExpr(e, n), hi)
    requires NoneBetween(Marks(code), n, AfterExpr(e, n))
    ensures Disciplined(ExprCode(e, n, code), lo, hi, open, k)
    ensures forall l <- Marks(ExprCode(e, n, code)) :: l in Marks(code) || Between(l, n, AfterExpr(e, n))
    ensures Marks(code) <= Marks(ExprCode(e, n, code))
  {
    ExprOrdered(e, n);
    ExprDisciplined(e, n, open, code);
    Chained(ExprCode(e, n, code), code, lo, n, AfterExpr(e, n), hi, open, k);
  }

  /** One comparison of a tree node: its operator and the jumps that follow it. */
  lemma Compare(op: IntOp, i: Instr, j: Instr, lo: Labels, hi: Labels, open: set<int>, code: seq<Instr>, k: seq<Instr>)
    requires Disciplined(code, lo, hi, open, k) && i.JMP? && i.target in Marks(code)
    requires (j.JMP? && j.target in Marks(code) && j.cond < 0) || (!j.JMP? && !j.LBL?)
    ensures Disciplined([INT_OP(op), i, j] + code, lo, hi, open, k)
    ensures Marks([INT_OP(op), i, j] + code) == Marks(code)
  {
    hide Marks, Targets, Fine;
    if j.JMP? { Jumps(j, code, lo, hi, open, k); } else { Harmless(j, code, lo, hi, open, k); }
    Prepend(j, code);
    var k1 := [j] + code;
    Jumps(i, k1, lo, hi, open, k);
    Prepend(i, k1);
    var k2 := [i] + k1;
    Harmless(INT_OP(op), k2, lo, hi, open, k);
    Prepend(INT_OP(op), k2);
    assert [INT_OP(op), i, j] + code == [INT_OP(op)] + k2;
  }

  /** A node's own label and the literal it compares with. */
  lemma NodeHead(node: Node, lo: Labels, hi: Labels, open: set<int>, code: seq<Instr>, k: seq<Instr>)
    requires Disciplined(code, lo, hi, open, k) && Between(node.id, lo, hi) && node.id !in Marks(code)
    ensures Disciplined([LBL(node.id), LOAD_INT_LIT(node.value)] + code, lo, hi, open, k)
    ensures Marks([LBL(node.id), LOAD_INT_LIT(node.value)] + code) == Marks(code) + {node.id}
  {
    hide Marks, Targets, Fine;
    var lit := LOAD_INT_LIT(node.value);
    Harmless(lit, code, lo, hi, open, k);
    Prepend(lit, code);
    Placed(node.id, [lit] + code, lo, hi, open, k);
    Prepend(LBL(node.id), [lit] + code);
    assert [LBL(node.id), lit] + code == [LBL(node.id)] + ([lit] + code);
  }

  /** The labels a tree places: its ids and those of the selector's copies. */
  ghost predicate TreeMarks(e: Expr, node: Node, n: Labels, code: seq<Instr>, k: seq<Instr>) {
    && Marks(k) <= Marks(code) && node.id in Marks(code)
    && forall l <- Marks(code) :: l in Marks(k) || l in Ids(node) || Between(l, n, AfterTree(e, node, n))
  }

  /** What a tree needs of the code behind it. */
  ghost predicate TreeReady(e: Expr, node: Node, labels: map<int, int>, default: int, n: Labels, lo: Labels, hi: Labels,
                            code: seq<Instr>) {
    && Apart(lo, hi) && Ordered(lo, n) && Ordered(AfterTree(e, node, n), hi)
    && DistinctIds(node) && Ids(node) !! Marks(code)
    && (forall id <- Ids(node) :: lo.conditional < id <= n.conditional)
    && NoneBetween(Marks(code), n, AfterTree(e, node, n))
    && default in Marks(code) && (forall v <- Tested(node) :: LabelOf(labels, v) in Marks(code))
  }

  lemma TreeSteps(e: Expr, node: Node, n: Labels)
    ensures var n1 := AfterExpr(e, n);
      && Ordered(n, n1) && Ordered(n1, AfterTree(e, node, n))
      && (node.LessOrEqual? ==> Ordered(n1, AfterExpr(e, n1)) && Ordered(AfterExpr(e, n1), AfterTree(e, node, n)))
  {
    var n1 := AfterExpr(e, n);
    ExprOrdered(e, n);
    ExprOrdered(e, n1);
    if !node.Equal? {
      var m := if node.Less? then n1 else AfterExpr(e, n1);
      TreeOrdered(e, node.left, m);
      TreeOrdered(e, node.right, AfterTree(e, node.left, m));
    }
  }

  lemma {:induction false} TreeDisciplined(e: Expr, node: Node, labels: map<int, int>, default: int, n: Labels,
                                           lo: Labels, hi: Labels, open: set<int>, code: seq<Instr>, k: seq<Instr>)
    requires TreeReady(e, node, labels, default, n, lo, hi, code) && Disciplined(code, lo, hi, open, k)
    ensures Disciplined(TreeCode(e, node, labels, default, n, code), lo, hi, open, k)
    ensures TreeMarks(e, node, n, TreeCode(e, node, labels, default, n, code), code)
    decreases node, 2
  {
    hide Marks, Targets, Fine, Disciplined;
    var k1 := TreeBody(e, node, labels, default, n, lo, hi, open, code, k);
    TreeSteps(e, node, n);
    RootIn(node);
    if !node.Equal? { TreeChildren(node); }
    hide TreeCode, Ids, DistinctIds, AfterTree;
    ExprBefore(e, n, lo, hi, open, k1, k);
    NodeHead(node, lo, hi, open, ExprCode(e, n, k1), k);
  }

  function Children(node: Node): set<int> {
    if node.Equal? then {} else Ids(node.left) + Ids(node.right)
  }

  /** Everything behind a node's first comparison. */
  lemma {:induction false} TreeBody(e: Expr, node: Node, labels: map<int, int>, default: int, n: Labels,
                                    lo: Labels, hi: Labels, open: set<int>, code: seq<Instr>, k: seq<Instr>)
    returns (k1: seq<Instr>)
    requires TreeReady(e, node, labels, default, n, lo, hi, code) && Disciplined(code, lo, hi, open, k)
    ensures TreeCode(e, node, labels, default, n, code) == [LBL(node.id), LOAD_INT_LIT(node.value)] + ExprCode(e, n, k1)
    ensures Disciplined(k1, lo, hi, open, k) && Marks(code) <= Marks(k1)
    ensures forall l <- Marks(k1) ::
      l in Marks(code) || l in Children(node) || Between(l, AfterExpr(e, n), AfterTree(e, node, n))
    decreases node, 1
  {
    hide Marks, Targets, Fine, Disciplined;
    var n1 := AfterExpr(e, n);
    TreeSteps(e, node, n);
    if node.Equal? {
      var i, j := JMP(LabelOf(labels, node.value), 1), JMP(default, -1);
      assert node.value in Tested(node);
      Compare(Eql, i, j, lo, hi, open, code, k);
      k1 := [INT_OP(Eql), i, j] + code;
    } else {
      var m := if node.Less? then n1 else AfterExpr(e, n1);
      k1 := Halves(e, node, labels, default, n, m, lo, hi, open, code, k);
      if node.LessOrEqual? { k1 := EqualFirst(e, node, labels, default, n, lo, hi, open, code, k1, k); }
    }
  }

  /** The comparison for equality that comes before that for less. */
  lemma EqualFirst(e: Expr, node: Node, labels: map<int, int>, default: int, n: Labels, lo: Labels, hi: Labels, open: set<int>,
                   code: seq<Instr>, k1: seq<Instr>, k: seq<Instr>) returns (r: seq<Instr>)
    requires node.LessOrEqual? && TreeReady(e, node, labels, default, n, lo, hi, code) && Disciplined(k1, lo, hi, open, k)
    requires Marks(code) <= Marks(k1) && forall l <- Marks(k1) ::
      l in Marks(code) || l in Ids(node.left) + Ids(node.right) || Between(l, AfterExpr(e, AfterExpr(e, n)), AfterTree(e, node, n))
    ensures r == [INT_OP(Eql), JMP(LabelOf(labels, node.value), 1), LOAD_INT_LIT(node.value2)] + ExprCode(e, AfterExpr(e, n), k1)
    ensures Disciplined(r, lo, hi, open, k) && Marks(code) <= Marks(r)
    ensures forall l <- Marks(r) ::
      l in Marks(code) || l in Ids(node.left) + Ids(node.right) || Between(l, AfterExpr(e, n), AfterTree(e, node, n))
  {
    hide Marks, Targets, Fine, Disciplined;
    var n1 := AfterExpr(e, n);
    TreeSteps(e, node, n);
    TreeChildren(node);
    hide Ids, AfterTree;
    forall l | l in Marks(k1) ensures !Between(l, n1, AfterExpr(e, n1)) {}
    ExprBefore(e, n1, lo, hi, open, k1, k);
    var k2 := ExprCode(e, n1, k1);
    assert node.value in Tested(node);
    Compare(Eql, JMP(LabelOf(labels, node.value), 1), LOAD_INT_LIT(node.value2), lo, hi, open, k2, k);
    r := [INT_OP(Eql), JMP(LabelOf(labels, node.value), 1), LOAD_INT_LIT(node.value2)] + k2;
  }

  lemma TreeChildren(node: Node)
    requires !node.Equal?
    ensures forall id <- Ids(node.left) + Ids(node.right) :: id in Ids(node)
    ensures DistinctIds(node) ==> node.id !in Ids(node.left) + Ids(node.right)
  {
  }

  /** The right subtree leaves the left one what it needs. */
  lemma LeftReady(e: Expr, node: Node, labels: map<int, int>, default: int, n: Labels, m: Labels, lo: Labels, hi: Labels,
                  code: seq<Instr>, c1: seq<Instr>)
    requires !node.Equal? && TreeReady(e, node, labels, default, n, lo, hi, code) && Ordered(n, m)
    requires AfterTree(e, node, n) == AfterTree(e, node.right, AfterTree(e, node.left, m))
    requires TreeMarks(e, node.right, AfterTree(e, node.left, m), c1, code)
    ensures TreeReady(e, node.left, labels, default, m, lo, hi, c1)
  {
    hide Marks;
    var left, right := node.left, node.right;
    var m1 := AfterTree(e, left, m);
    TreeOrdered(e, left, m);
    TreeOrdered(e, right, m1);
    assert forall id <- Ids(left) + Ids(right) :: id in Ids(node);
    forall l | l in Marks(c1) ensures !Between(l, m, m1) && l !in Ids(left) {}
    forall id | id in Ids(left) ensures lo.conditional < id <= m.conditional { assert id in Ids(node); }
    forall v | v in Tested(left) ensures LabelOf(labels, v) in Marks(c1) { assert v in Tested(node); }
  }

  lemma RightReady(e: Expr, node: Node, labels: map<int, int>, default: int, n: Labels, m: Labels, lo: Labels, hi: Labels,
                   code: seq<Instr>)
    requires !node.Equal? && TreeReady(e, node, labels, default, n, lo, hi, code) && Ordered(n, m)
    requires AfterTree(e, node, n) == AfterTree(e, node.right, AfterTree(e, node.left, m))
    ensures TreeReady(e, node.right, labels, default, AfterTree(e, node.left, m), lo, hi, code)
  {
    hide Marks;
    var left, right := node.left, node.right;
    var m1 := AfterTree(e, left, m);
    TreeOrdered(e, left, m);
    TreeOrdered(e, right, m1);
    TreeChildren(node);
    forall id | id in Ids(right) ensures id !in Marks(code) && lo.conditional < id <= m1.conditional { assert id in Ids(node); }
    forall v | v in Tested(right) ensures LabelOf(labels, v) in Marks(code) { assert v in Tested(node); }
  }

  /** The branch of a node and its two subtrees; m is where the node's own comparisons stop. */
  lemma {:induction false} Halves(e: Expr, node: Node, labels: map<int, int>, default: int, n: Labels, m: Labels,
                                  lo: Labels, hi: Labels, open: set<int>, code: seq<Instr>, k: seq<Instr>)
    returns (k1: seq<Instr>)
    requires !node.Equal? && TreeReady(e, node, labels, default, n, lo, hi, code) && Disciplined(code, lo, hi, open, k)
    requires Ordered(n, m) && AfterTree(e, node, n) == AfterTree(e, node.right, AfterTree(e, node.left, m))
    ensures k1 == Branch(node.left, node.right)
      + TreeCode(e, node.left, labels, default, m, TreeCode(e, node.right, labels, default, AfterTree(e, node.left, m), code))
    ensures Disciplined(k1, lo, hi, open, k) && Marks(code) <= Marks(k1)
    ensures forall l <- Marks(k1) ::
      l in Marks(code) || l in Ids(node.left) + Ids(node.right) || Between(l, m, AfterTree(e, node, n))
    decreases node, 0
  {
    hide Marks, Targets, Fine, Disciplined, Ids, Tested, DistinctIds, AfterTree, TreeCode;
    var left, right := node.left, node.right;
    var m1 := AfterTree(e, left, m);
    TreeOrdered(e, left, m);
    TreeOrdered(e, right, m1);
    RightReady(e, node, labels, default, n, m, lo, hi, code);
    TreeDisciplined(e, right, labels, default, m1, lo, hi, open, code, k);
    var c1 := TreeCode(e, right, labels, default, m1, code);
    LeftReady(e, node, labels, default, n, m, lo, hi, code, c1);
    TreeDisciplined(e, left, labels, default, m, lo, hi, open, c1, k);
    var c2 := TreeCode(e, left, labels, default, m, c1);
    Compare(Les, JMP(left.id, 1), JMP(right.id, -1), lo, hi, open, c2, k);
    k1 := [INT_OP(Les), JMP(left.id, 1), JMP(right.id, -1)] + c2;
  }

  // ----- Statements -----

  /** Statement code starts with no label handed out before it. */
  /** code starts with an instruction of its own in front of k, and a label it starts with is new; or it is k. */
  predicate OwnHead(code: seq<Instr>, n: Labels, n': Labels, k: seq<Instr>) {
    code == k || (code != [] && (code[0].LBL? ==> Between(code[0].mark, n, n')))
  }

  lemma {:induction false} StmtHead(s: Stmt, n: Labels, brk: int, k: seq<Instr>)
    ensures OwnHead(StmtCode(s, n, brk, k), n, AfterStmt(s, n), k)
    decreases s
  {
    StmtOrdered(s, n);
    match s
    case Assign(x, e) => ExprHead(e, n, [STOR_INT_VAR(x, LOCL)] + k);
    case OpAssign(op, x, e) => ExprHead(e, n, [LOAD_INT_VAR(x, LOCL), INT_OP(op), STOR_INT_VAR(x, LOCL)] + k);
    case SetField(x, e) => ExprHead(e, n, FieldStore(x) + k);
    case OpSetField(op, x, e) => ExprHead(e, n, FieldChange(op, x) + k);
    case If(chain) => ChainOrdered(chain, n.NextUnconditional().NextConditional());
    case While(test, body) =>
      ExprOrdered(test, n.NextUnconditional());
      StmtsOrdered(body, AfterExpr(test, n.NextUnconditional()).NextConditional());
    case DoWhile(body, test) =>
      StmtsOrdered(body, n.NextConditional().NextUnconditional());
      ExprOrdered(test, AfterStmts(body, n.NextConditional().NextUnconditional()));
    case For(pre, test, update, body) => ForHead(s, n, brk, k);
    case Select(selector, cases, other) =>
      if |Values(cases)| >= 2 { SelectHead(s, n, brk, k); }
    case Call(id, args, dest) => ArgsHead(args, n, CallTail(id, dest) + k);
    case Empty =>
    case Break =>
    case Return(e) => if e.Some? { ExprHead(e.value, n, [RTRN] + k); }
  }

  lemma ArgsHead(args: seq<Expr>, n: Labels, k: seq<Instr>)
    requires k != [] && !k[0].LBL?
    ensures ArgsCode(args, n, k) != [] && !ArgsCode(args, n, k)[0].LBL?
  {
    if args != [] { ExprHead(args[0], n, ArgsCode(args[1..], AfterExpr(args[0], n), k)); }
  }

  /** A select starts with the label of its root. */
  lemma SelectHead(s: Stmt, n: Labels, brk: int, k: seq<Instr>)
    requires s.Select? && |Values(s.cases)| >= 2
    ensures StmtCode(s, n, brk, k) != []
    ensures var i := StmtCode(s, n, brk, k)[0]; i.LBL? ==> Between(i.mark, n, AfterStmt(s, n))
  {
    var values, p := Values(s.cases), Plan(s, n);
    var last := n.conditional + |values| + if s.other.Some? then 1 else 0;
    hide Divide, Ids, DistinctIds;
    DivideIds(values, 0, |values| - 1, last);
    RootIn(p.root);
    PlanOrdered(s, n);
    assert last < p.root.id <= p.treeStart.conditional;
    CasesOrdered(s.cases, p.after);
    if s.other.Some? { StmtsOrdered(s.other.value, AfterCases(s.cases, p.after)); }
    assert AfterStmt(s, n).conditional >= p.treeStart.conditional;
    assert StmtCode(s, n, brk, k)[0] == LBL(p.root.id);
  }

  lemma RootIn(node: Node)
    ensures node.id in Ids(node)
  {
  }

  lemma {:induction false} ForHead(s: Stmt, n: Labels, brk: int, k: seq<Instr>)
    requires s.For?
    ensures OwnHead(StmtCode(s, n, brk, k), n, AfterStmt(s, n), k)
    decreases s, 0
  {
    var For(pre, test, update, body) := s;
    var n0 := AfterStmt(pre, n);
    var n1 := n0.NextUnconditional();
    var n2 := AfterExpr(test, n1).NextConditional();
    StmtOrdered(pre, n);
    ExprOrdered(test, n1);
    StmtsOrdered(body, n2);
    StmtOrdered(update, AfterStmts(body, n2));
    StmtHead(pre, n, brk, [LBL(n1.unconditional)] + ExprCode(test, n1, [JMP(n2.conditional, 0)]
      + StmtsCode(body, n2, n2.conditional, StmtCode(update, AfterStmts(body, n2), n2.conditional,
                                                     [JMP(n1.unconditional, -1), LBL(n2.conditional)] + k))));
  }

  /** A jump to an older label in front of statements is not a branch to the next label. */
  lemma StmtsHead(ss: Stmts, n: Labels, brk: int, k: seq<Instr>, i: Instr)
    requires i.JMP? && !Between(i.target, n, AfterStmts(ss, n)) && !BranchesTo(i, k)
    ensures !BranchesTo(i, StmtsCode(ss, n, brk, k))
  {
    if ss.Cons? {
      StmtsOrdered(ss.tail, AfterStmt(ss.head, n));
      StmtOrdered(ss.head, n);
      StmtsHead(ss.tail, AfterStmt(ss.head, n), brk, k, i);
      StmtHead(ss.head, n, brk, StmtsCode(ss.tail, AfterStmt(ss.head, n), brk, k));
    }
  }

  /** Jumps to labels placed by now wait no longer. */
  lemma Close(code: seq<Instr>, n: Labels, n': Labels, waiting: set<int>, open: set<int>, k: seq<Instr>)
    requires Disciplined(code, n, n', waiting, k) && waiting <= open + Marks(code)
    ensures Disciplined(code, n, n', open, k)
  {
  }

  /** Code emitted between n and n' in front of after, all of it disciplined between lo and hi. */
  ghost predicate Before(code: seq<Instr>, n: Labels, n': Labels, lo: Labels, hi: Labels, open: set<int>, after: seq<Instr>,
                         k: seq<Instr>) {
    && Disciplined(code, lo, hi, open, k) && Marks(after) <= Marks(code)
    && forall l <- Marks(code) :: l in Marks(after) || Between(l, n, n')
  }

  /** Room for emitting between n and n' in front of code. */
  ghost predicate Room(n: Labels, n': Labels, lo: Labels, hi: Labels, open: set<int>, code: seq<Instr>, k: seq<Instr>) {
    && Disciplined(code, lo, hi, open, k) && Apart(lo, hi)
    && Ordered(lo, n) && Ordered(n, n') && Ordered(n', hi) && NoneBetween(Marks(code), n, n')
  }

  lemma ExprRoom(e: Expr, n: Labels, lo: Labels, hi: Labels, open: set<int>, code: seq<Instr>, k: seq<Instr>)
    requires Room(n, AfterExpr(e, n), lo, hi, open, code, k)
    ensures Before(ExprCode(e, n, code), n, AfterExpr(e, n), lo, hi, open, code, k)
  {
    ExprBefore(e, n, lo, hi, open, code, k);
  }

  lemma Append1(i: Instr, lo: Labels, hi: Labels, open: set<int>, code: seq<Instr>, k: seq<Instr>)
    requires Disciplined(code, lo, hi, open, k)
    requires i.LBL? ==> Between(i.mark, lo, hi) && i.mark !in Marks(code)
    requires i.JMP? ==> (i.target in Marks(code) || i.target in open) && !BranchesTo(i, code)
    ensures Disciplined([i] + code, lo, hi, open, k)
    ensures Marks([i] + code) == Marks(code) + if i.LBL? then {i.mark} else {}
  {
    Prepend(i, code);
    if i.JMP? { Jumps(i, code, lo, hi, open, k); }
    else if i.LBL? { Placed(i.mark, code, lo, hi, open, k); }
    else { Harmless(i, code, lo, hi, open, k); }
  }

  /** The end of a loop: back to the test at u, then the break label b. */
  lemma LoopEnd(u: int, b: int, lo: Labels, hi: Labels, open: set<int>, code: seq<Instr>, k: seq<Instr>)
    requires Disciplined(code, lo, hi, open, k) && u in open && Between(b, lo, hi) && b !in Marks(code)
    ensures Disciplined([JMP(u, -1), LBL(b)] + code, lo, hi, open, k)
    ensures Marks([JMP(u, -1), LBL(b)] + code) == Marks(code) + {b}
  {
    hide Marks, Targets, Fine, Disciplined;
    Append1(LBL(b), lo, hi, open, code, k);
    Append1(JMP(u, -1), lo, hi, open, [LBL(b)] + code, k);
    assert [JMP(u, -1), LBL(b)] + code == [JMP(u, -1)] + ([LBL(b)] + code);
  }

  /** Widening what jumps may wait for. */
  lemma Wait(code: seq<Instr>, n: Labels, n': Labels, open: set<int>, more: set<int>, k: seq<Instr>)
    requires Disciplined(code, n, n', open, k) && open <= more
    ensures Disciplined(code, n, n', more, k)
  {
  }

  lemma {:induction false} StmtsBefore(ss: Stmts, n: Labels, b: int, base: nat, inLoop: bool, lo: Labels, hi: Labels, open: set<int>,
                                       code: seq<Instr>, k: seq<Instr>)
    requires GoodStmts(ss, base, inLoop)
    requires Room(n, AfterStmts(ss, n), lo, hi, open, code, k) && (inLoop ==> b in open)
    ensures Before(StmtsCode(ss, n, b, code), n, AfterStmts(ss, n), lo, hi, open, code, k)
    decreases ss, 0
  {
    hide Marks, Disciplined;
    if ss.Cons? {
      var n1 := AfterStmt(ss.head, n);
      StmtOrdered(ss.head, n);
      StmtsOrdered(ss.tail, n1);
      StmtsBefore(ss.tail, n1, b, base, inLoop, lo, hi, open, code, k);
      StmtBefore(ss.head, n, b, base, inLoop, lo, hi, open, StmtsCode(ss.tail, n1, b, code), k);
    }
  }

  lemma {:induction false} ArgsBefore(args: seq<Expr>, n: Labels, lo: Labels, hi: Labels, open: set<int>, code: seq<Instr>, k: seq<Instr>)
    requires Room(n, AfterArgs(args, n), lo, hi, open, code, k)
    ensures Before(ArgsCode(args, n, code), n, AfterArgs(args, n), lo, hi, open, code, k)
  {
    hide Marks, Disciplined;
    if args != [] {
      var n1 := AfterExpr(args[0], n);
      ExprOrdered(args[0], n);
      ArgsOrdered(args[1..], n1);
      ArgsBefore(args[1..], n1, lo, hi, open, code, k);
      ExprRoom(args[0], n, lo, hi, open, ArgsCode(args[1..], n1, code), k);
    }
  }

  lemma CallBefore(id: MethodId, dest: Destination, lo: Labels, hi: Labels, open: set<int>, code: seq<Instr>, k: seq<Instr>)
    requires Disciplined(code, lo, hi, open, k)
    ensures Disciplined(CallTail(id, dest) + code, lo, hi, open, k) && Marks(CallTail(id, dest) + code) == Marks(code)
  {
    hide Marks, Targets, Fine, Disciplined;
    var k1 := code;
    match dest {
      case Nowhere =>
      case Dropped =>
        Append1(POP_INT, lo, hi, open, code, k);
        k1 := [POP_INT] + code;
      case Into(x) =>
        Append1(STOR_INT_VAR(x, LOCL), lo, hi, open, code, k);
        k1 := [STOR_INT_VAR(x, LOCL)] + code;
    }
    Append1(MTHD_CALL(id), lo, hi, open, k1, k);
    Append1(LOAD_INST_MEM, lo, hi, open, [MTHD_CALL(id)] + k1, k);
    assert CallTail(id, dest) + code == [LOAD_INST_MEM] + ([MTHD_CALL(id)] + k1);
  }

  lemma FieldStoreBefore(x: int, lo: Labels, hi: Labels, open: set<int>, code: seq<Instr>, k: seq<Instr>)
    requires Disciplined(code, lo, hi, open, k)
    ensures Disciplined(FieldStore(x) + code, lo, hi, open, k) && Marks(FieldStore(x) + code) == Marks(code)
  {
    hide Disciplined, Marks;
    Append1(STOR_INT_VAR(x, INST), lo, hi, open, code, k);
    Append1(LOAD_INST_MEM, lo, hi, open, [STOR_INT_VAR(x, INST)] + code, k);
    assert FieldStore(x) + code == [LOAD_INST_MEM] + ([STOR_INT_VAR(x, INST)] + code);
  }

  lemma FieldChangeBefore(op: IntOp, x: int, lo: Labels, hi: Labels, open: set<int>, code: seq<Instr>, k: seq<Instr>)
    requires Disciplined(code, lo, hi, open, k)
    ensures Disciplined(FieldChange(op, x) + code, lo, hi, open, k) && Marks(FieldChange(op, x) + code) == Marks(code)
  {
    hide Disciplined, Marks;
    var k1 := FieldStore(x) + code;
    var k2 := [INT_OP(op)] + k1;
    FieldStoreBefore(x, lo, hi, open, code, k);
    Append1(INT_OP(op), lo, hi, open, k1, k);
    Append1(LOAD_INT_VAR(x, INST), lo, hi, open, k2, k);
    Append1(LOAD_INST_MEM, lo, hi, open, [LOAD_INT_VAR(x, INST)] + k2, k);
    assert FieldChange(op, x) + code == [LOAD_INST_MEM] + ([LOAD_INT_VAR(x, INST)] + k2);
  }

  lemma {:induction false} StmtBefore(s: Stmt, n: Labels, b: int, base: nat, inLoop: bool, lo: Labels, hi: Labels, open: set<int>,
                                      code: seq<Instr>, k: seq<Instr>)
    requires GoodStmt(s, base, inLoop)
    requires Room(n, AfterStmt(s, n), lo, hi, open, code, k) && (inLoop ==> b in open)
    ensures Before(StmtCode(s, n, b, code), n, AfterStmt(s, n), lo, hi, open, code, k)
    decreases s, 2
  {
    hide Marks, Disciplined;
    match s
    case Assign(x, e) =>
      Append1(STOR_INT_VAR(x, LOCL), lo, hi, open, code, k);
      ExprRoom(e, n, lo, hi, open, [STOR_INT_VAR(x, LOCL)] + code, k);
    case OpAssign(op, x, e) =>
      var load, arith, store := LOAD_INT_VAR(x, LOCL), INT_OP(op), STOR_INT_VAR(x, LOCL);
      Append1(store, lo, hi, open, code, k);
      Append1(arith, lo, hi, open, [store] + code, k);
      Append1(load, lo, hi, open, [arith] + ([store] + code), k);
      assert [load, arith, store] + code == [load] + ([arith] + ([store] + code));
      ExprRoom(e, n, lo, hi, open, [load, arith, store] + code, k);
    case SetField(x, e) =>
      FieldStoreBefore(x, lo, hi, open, code, k);
      ExprRoom(e, n, lo, hi, open, FieldStore(x) + code, k);
    case OpSetField(op, x, e) =>
      FieldChangeBefore(op, x, lo, hi, open, code, k);
      ExprRoom(e, n, lo, hi, open, FieldChange(op, x) + code, k);
    case If(chain) =>
      var n1 := n.NextUnconditional().NextConditional();
      var end := n1.unconditional;
      ChainOrdered(chain, n1);
      Append1(LBL(end), lo, hi, open, code, k);
      ChainBefore(chain, n1.conditional, end, n1, b, base, inLoop, lo, hi, open, [LBL(end)] + code, k);
    case While(test, body) => WhileBefore(s, n, b, base, inLoop, lo, hi, open, code, k);
    case DoWhile(body, test) => DoWhileBefore(s, n, b, base, inLoop, lo, hi, open, code, k);
    case For(pre, test, update, body) => ForBefore(s, n, b, base, inLoop, lo, hi, open, code, k);
    case Select(selector, cases, other) =>
      if |Values(cases)| >= 2 { SelectBefore(s, n, b, base, inLoop, lo, hi, open, code, k); }
      else { SingleBefore(s, n, b, base, inLoop, lo, hi, open, code, k); }
    case Call(id, args, dest) =>
      CallBefore(id, dest, lo, hi, open, code, k);
      ArgsBefore(args, n, lo, hi, open, CallTail(id, dest) + code, k);
    case Empty =>
    case Break => Append1(JMP(b, -1), lo, hi, open, code, k);
    case Return(e) =>
      Append1(RTRN, lo, hi, open, code, k);
      if e.Some? { ExprRoom(e.value, n, lo, hi, open, [RTRN] + code, k); }
  }

  lemma {:induction false} WhileBefore(s: Stmt, n: Labels, b: int, base: nat, inLoop: bool, lo: Labels, hi: Labels, open: set<int>,
                                       code: seq<Instr>, k: seq<Instr>)
    requires GoodStmt(s, base, inLoop)
    requires s.While?
    requires Room(n, AfterStmt(s, n), lo, hi, open, code, k) && (inLoop ==> b in open)
    ensures Before(StmtCode(s, n, b, code), n, AfterStmt(s, n), lo, hi, open, code, k)
    decreases s, 0
  {
    hide Marks, Disciplined;
    hide ExprCode, StmtsCode, AfterExpr, AfterStmts;
    var While(test, body) := s;
    var n1 := n.NextUnconditional();
    var n2 := AfterExpr(test, n1).NextConditional();
    var u, e, n' := n1.unconditional, n2.conditional, AfterStmt(s, n);
    ExprOrdered(test, n1);
    StmtsOrdered(body, n2);
    var more := open + {u, e};
    Wait(code, lo, hi, open, more, k);
    LoopEnd(u, e, lo, hi, more, code, k);
    var k1 := [JMP(u, -1), LBL(e)] + code;
    var r := LoopBefore(test, body, n1, n2, n', base, lo, hi, more, k1, k);
    Close(r, lo, hi, more, open, k);
  }

  lemma {:induction false} DoWhileBefore(s: Stmt, n: Labels, b: int, base: nat, inLoop: bool, lo: Labels, hi: Labels, open: set<int>,
                                         code: seq<Instr>, k: seq<Instr>)
    requires GoodStmt(s, base, inLoop)
    requires s.DoWhile?
    requires Room(n, AfterStmt(s, n), lo, hi, open, code, k) && (inLoop ==> b in open)
    ensures Before(StmtCode(s, n, b, code), n, AfterStmt(s, n), lo, hi, open, code, k)
    decreases s, 0
  {
    hide Marks, Disciplined;
    var DoWhile(body, test) := s;
    var n1 := n.NextConditional().NextUnconditional();
    var n2 := AfterStmts(body, n1);
    var c, e := n1.conditional, n1.unconditional;
    StmtsOrdered(body, n1);
    ExprOrdered(test, n2);
    var more := open + {c, e};
    Wait(code, lo, hi, open, more, k);
    Append1(LBL(e), lo, hi, more, code, k);
    Append1(JMP(c, 1), lo, hi, more, [LBL(e)] + code, k);
    var k1 := [JMP(c, 1), LBL(e)] + code;
    assert k1 == [JMP(c, 1)] + ([LBL(e)] + code);
    ExprRoom(test, n2, lo, hi, more, k1, k);
    var k2 := ExprCode(test, n2, k1);
    StmtsBefore(body, n1, e, base, true, lo, hi, more, k2, k);
    var k3 := StmtsCode(body, n1, e, k2);
    Append1(LBL(c), lo, hi, more, k3, k);
    Close([LBL(c)] + k3, lo, hi, more, open, k);
  }

  lemma {:induction false} ForBefore(s: Stmt, n: Labels, b: int, base: nat, inLoop: bool, lo: Labels, hi: Labels, open: set<int>,
                                     code: seq<Instr>, k: seq<Instr>)
    requires GoodStmt(s, base, inLoop)
    requires s.For?
    requires Room(n, AfterStmt(s, n), lo, hi, open, code, k) && (inLoop ==> b in open)
    ensures Before(StmtCode(s, n, b, code), n, AfterStmt(s, n), lo, hi, open, code, k)
    decreases s, 1
  {
    hide Marks, Disciplined, ExprCode, StmtsCode, AfterExpr, AfterStmts;
    var For(pre, test, update, body) := s;
    var n0 := AfterStmt(pre, n);
    var n1 := n0.NextUnconditional();
    var n2 := AfterExpr(test, n1).NextConditional();
    var n3 := AfterStmts(body, n2);
    StmtOrdered(pre, n);
    ExprOrdered(test, n1);
    StmtsOrdered(body, n2);
    StmtOrdered(update, n3);
    var k5 := ForLoopBefore(s, n0, n1, n2, n3, base, inLoop, lo, hi, open, code, k);
    StmtBefore(pre, n, b, base, inLoop, lo, hi, open, k5, k);
  }

  /** A while or for loop up to the end of its body, in front of code that has its break label. */
  lemma {:induction false} LoopBefore(test: Expr, body: Stmts, n1: Labels, n2: Labels, n3: Labels, base: nat, lo: Labels, hi: Labels,
                                      more: set<int>, code: seq<Instr>, k: seq<Instr>) returns (r: seq<Instr>)
    requires GoodExpr(test, base) && GoodStmts(body, base, true)
    requires n2 == AfterExpr(test, n1).NextConditional() && n3 == AfterStmts(body, n2)
    requires Ordered(lo, n1) && Ordered(n1, AfterExpr(test, n1)) && Room(n2, n3, lo, hi, more, code, k)
    requires NoneBetween(Marks(code), n1, AfterExpr(test, n1))
    requires lo.unconditional < n1.unconditional && n1.unconditional !in Marks(code)
    requires n2.conditional in more * Marks(code) && !BranchesTo(JMP(n2.conditional, 0), code)
    ensures r == [LBL(n1.unconditional)] + ExprCode(test, n1, [JMP(n2.conditional, 0)]
                                                              + StmtsCode(body, n2, n2.conditional, code))
    ensures Disciplined(r, lo, hi, more, k) && Marks(code) <= Marks(r) && n1.unconditional in Marks(r)
    ensures forall l <- Marks(r) :: l in Marks(code) || l == n1.unconditional || Between(l, n1, n3)
    decreases body, 1
  {
    hide Marks, Disciplined, ExprCode, StmtsCode, AfterExpr, AfterStmts, GoodExpr, GoodStmts;
    var u, e := n1.unconditional, n2.conditional;
    StmtsBefore(body, n2, e, base, true, lo, hi, more, code, k);
    var k3 := StmtsCode(body, n2, e, code);
    StmtsHead(body, n2, e, code, JMP(e, 0));
    Append1(JMP(e, 0), lo, hi, more, k3, k);
    ExprRoom(test, n1, lo, hi, more, [JMP(e, 0)] + k3, k);
    var k4 := ExprCode(test, n1, [JMP(e, 0)] + k3);
    Append1(LBL(u), lo, hi, more, k4, k);
    r := [LBL(u)] + k4;
  }

  /** A for loop from its start label on. */
  lemma {:induction false} ForLoopBefore(s: Stmt, n: Labels, n1: Labels, n2: Labels, n3: Labels, base: nat, inLoop: bool, lo: Labels,
                                         hi: Labels, open: set<int>, code: seq<Instr>, k: seq<Instr>) returns (r: seq<Instr>)
    requires s.For? && GoodStmt(s, base, inLoop)
    requires n1 == n.NextUnconditional() && n2 == AfterExpr(s.test, n1).NextConditional() && n3 == AfterStmts(s.body, n2)
    requires Ordered(n1, AfterExpr(s.test, n1)) && Ordered(n2, n3) && Ordered(n3, AfterStmt(s.update, n3))
    requires Room(n, AfterStmt(s.update, n3), lo, hi, open, code, k)
    ensures var u, e := n1.unconditional, n2.conditional;
      var k1 := [JMP(u, -1), LBL(e)] + code;
      r == [LBL(u)] + ExprCode(s.test, n1, [JMP(e, 0)] + StmtsCode(s.body, n2, e, StmtCode(s.update, n3, e, k1)))
    ensures Before(r, n, AfterStmt(s.update, n3), lo, hi, open, code, k)
    decreases s, 0
  {
    assert GoodExpr(s.test, base) && GoodStmts(s.body, base, true) && GoodStmt(s.update, base, true);
    hide Marks, Disciplined, ExprCode, StmtsCode, StmtCode, AfterExpr, AfterStmts, AfterStmt, GoodStmt, GoodStmts;
    var For(pre, test, update, body) := s;
    var u, e := n1.unconditional, n2.conditional;
    var more := open + {u, e};
    Wait(code, lo, hi, open, more, k);
    LoopEnd(u, e, lo, hi, more, code, k);
    var k1 := [JMP(u, -1), LBL(e)] + code;
    StmtBefore(update, n3, e, base, true, lo, hi, more, k1, k);
    var k2 := StmtCode(update, n3, e, k1);
    StmtHead(update, n3, e, k1);
    r := LoopBefore(test, body, n1, n2, n3, base, lo, hi, more, k2, k);
    Close(r, lo, hi, more, open, k);
  }

  // ----- if chains -----

  predicate GoodElse(orElse: Else, base: nat, inLoop: bool) {
    match orElse
    case NoElse => true
    case ElseIf(next) => GoodChain(next, base, inLoop)
    case Otherwise(rest) => GoodStmts(rest, base, inLoop)
  }

  lemma {:induction false} ElseBefore(orElse: Else, c: int, end: int, n: Labels, n': Labels, b: int, base: nat, inLoop: bool, lo: Labels, hi: Labels,
                                      open: set<int>, code: seq<Instr>, k: seq<Instr>) returns (r: seq<Instr>)
    requires GoodElse(orElse, base, inLoop)
    requires n' == AfterElse(orElse, n)
    requires Room(n, n', lo, hi, open, code, k) && (inLoop ==> b in open) && end in Marks(code)
    requires Between(c, lo, hi) && c !in Marks(code) && !Between(c, n, n') && c <= n.conditional
    ensures r == ElseCode(orElse, c, end, n, b, code)
    ensures Disciplined(r, lo, hi, open, k) && Marks(code) <= Marks(r)
    ensures forall l <- Marks(r) :: l in Marks(code) || l == c || Between(l, n, n')
    ensures !orElse.NoElse? ==> c in Marks(r)
    decreases orElse, 0
  {
    hide Marks, Disciplined;
    r := ElseCode(orElse, c, end, n, b, code);
    match orElse
    case NoElse =>
    case ElseIf(next) => ChainBefore(next, c, end, n, b, base, inLoop, lo, hi, open, code, k);
    case Otherwise(rest) =>
      StmtsBefore(rest, n, b, base, inLoop, lo, hi, open, code, k);
      Append1(LBL(c), lo, hi, open, StmtsCode(rest, n, b, code), k);
  }

  lemma GuardBefore(chain: Chain, lo: Labels, hi: Labels, open: set<int>, code: seq<Instr>, k: seq<Instr>) returns (r: seq<Instr>)
    requires Disciplined(code, lo, hi, open, k)
    ensures r == Guard(chain) + code && Disciplined(r, lo, hi, open, k) && Marks(r) == Marks(code)
  {
    hide Marks, Targets, Fine, Disciplined;
    r := code;
    if chain.body.Nil? && !chain.orElse.ElseIf? {
      Append1(POP_INT, lo, hi, open, code, k);
      r := [POP_INT] + code;
    }
    assert r == Guard(chain) + code;
  }

  /** The jump over the rest of the chain, guarded when the body is empty. */
  lemma SkipRest(chain: Chain, end: int, lo: Labels, hi: Labels, open: set<int>, code: seq<Instr>, k: seq<Instr>)
    requires Disciplined(code, lo, hi, open, k) && end in Marks(code)
    ensures var r := [JMP(end, -1)] + Guard(chain) + code;
      Disciplined(r, lo, hi, open, k) && Marks(r) == Marks(code) && r[0] == JMP(end, -1)
  {
    hide Marks, Disciplined;
    var k1 := GuardBefore(chain, lo, hi, open, code, k);
    hide Guard;
    Append1(JMP(end, -1), lo, hi, open, k1, k);
    assert [JMP(end, -1)] + Guard(chain) + code == [JMP(end, -1)] + k1;
  }

  lemma {:induction false} ChainBefore(chain: Chain, next: int, end: int, n: Labels, b: int, base: nat, inLoop: bool, lo: Labels, hi: Labels,
                                       open: set<int>, code: seq<Instr>, k: seq<Instr>)
    requires GoodChain(chain, base, inLoop)
    requires Room(n, AfterChain(chain, n), lo, hi, open, code, k) && (inLoop ==> b in open) && end in Marks(code)
    requires Between(next, lo, hi) && next !in Marks(code) && next <= n.conditional
    ensures var r := ChainCode(chain, next, end, n, b, code);
      && Disciplined(r, lo, hi, open, k) && Marks(code) <= Marks(r) && next in Marks(r)
      && forall l <- Marks(r) :: l in Marks(code) || l == next || Between(l, n, AfterChain(chain, n))
    decreases chain, 1
  {
    hide Marks, Disciplined;
    var nt := AfterExpr(chain.test, n);
    var n1 := nt.NextConditional();
    var n2 := AfterStmts(chain.body, n1);
    var n', c := AfterChain(chain, n), n1.conditional;
    ExprOrdered(chain.test, n);
    StmtsOrdered(chain.body, n1);
    ElseOrdered(chain.orElse, n2, n');
    var k0 := ElseBefore(chain.orElse, c, end, n2, n', b, base, inLoop, lo, hi, open, code, k);
    SkipRest(chain, end, lo, hi, open, k0, k);
    var k1 := [JMP(end, -1)] + Guard(chain) + k0;
    StmtsBefore(chain.body, n1, b, base, inLoop, lo, hi, open, k1, k);
    var k2 := StmtsCode(chain.body, n1, b, k1);
    var i := JMP(if chain.orElse.NoElse? then end else c, 0);
    StmtsHead(chain.body, n1, b, k1, i);
    Append1(i, lo, hi, open, k2, k);
    ExprRoom(chain.test, n, lo, hi, open, [i] + k2, k);
    Append1(LBL(next), lo, hi, open, ExprCode(chain.test, n, [i] + k2), k);
  }

  lemma ElseOrdered(orElse: Else, n: Labels, n': Labels)
    requires n' == AfterElse(orElse, n)
    ensures Ordered(n, n')
  {
    match orElse
    case NoElse =>
    case ElseIf(next) => ChainOrdered(next, n);
    case Otherwise(rest) => StmtsOrdered(rest, n);
  }

  // ----- select -----

  lemma SingleCase(cases: Cases)
    requires cases.Case?
    ensures |Values(cases)| < 2 ==> cases.rest.NoCase?
  {
    if cases.rest.Case? { assert |Values(cases.rest)| >= 1; }
  }

  lemma {:induction false} SingleBefore(s: Stmt, n: Labels, b: int, base: nat, inLoop: bool, lo: Labels, hi: Labels, open: set<int>,
                                        code: seq<Instr>, k: seq<Instr>)
    requires GoodStmt(s, base, inLoop)
    requires s.Select? && |Values(s.cases)| < 2
    requires Room(n, AfterStmt(s, n), lo, hi, open, code, k) && (inLoop ==> b in open)
    ensures Before(StmtCode(s, n, b, code), n, AfterStmt(s, n), lo, hi, open, code, k)
    decreases s, 1
  {
    hide Marks, Disciplined, StmtCode, StmtsCode, ExprCode, SingleTail, AfterExpr, AfterCases, AfterStmts;
    var Select(e, cases, other) := s;
    var n1 := SingleStart(other, n);
    var n2 := AfterExpr(e, n1);
    var n3 := if cases.Case? then AfterStmts(cases.body, n2) else n2;
    SingleShape(s, n, b, code);
    ExprOrdered(e, n1);
    if cases.Case? { StmtsOrdered(cases.body, n2); }
    if other.Some? { StmtsOrdered(other.value, n3); }
    var k2 := SingleTailBefore(other, n1, n3, b, base, inLoop, lo, hi, open, code, k);
    var k3 := k2;
    var i := JMP(if other.Some? then n1.conditional else n1.unconditional, 0);
    assert k2[0] == JMP(n1.unconditional, -1);
    if cases.Case? {
      StmtsBefore(cases.body, n2, b, base, inLoop, lo, hi, open, k2, k);
      k3 := StmtsCode(cases.body, n2, b, k2);
      StmtsHead(cases.body, n2, b, k2, i);
    }
    Append1(i, lo, hi, open, k3, k);
    Append1(INT_OP(Eql), lo, hi, open, [i] + k3, k);
    var k4 := [INT_OP(Eql)] + ([i] + k3);
    ExprRoom(e, n1, lo, hi, open, k4, k);
    var lit := LOAD_INT_LIT(if cases.Case? then cases.value else 0);
    Append1(lit, lo, hi, open, ExprCode(e, n1, k4), k);
  }

  lemma SingleShape(s: Stmt, n: Labels, b: int, code: seq<Instr>)
    requires s.Select? && |Values(s.cases)| < 2
    ensures var n1 := SingleStart(s.other, n);
      var n2 := AfterExpr(s.selector, n1);
      var n3 := if s.cases.Case? then AfterStmts(s.cases.body, n2) else n2;
      var k2 := SingleTail(s.other, n1, n3, b, code);
      var i := JMP(if s.other.Some? then n1.conditional else n1.unconditional, 0);
      && StmtCode(s, n, b, code) == [LOAD_INT_LIT(if s.cases.Case? then s.cases.value else 0)]
           + ExprCode(s.selector, n1, [INT_OP(Eql)]
                                      + ([i] + if s.cases.Case? then StmtsCode(s.cases.body, n2, b, k2) else k2))
      && AfterStmt(s, n) == if s.other.Some? then AfterStmts(s.other.value, n3) else n3
  {
    hide ExprCode, StmtsCode, SingleTail, AfterStmts;
    var n1 := SingleStart(s.other, n);
    var n2 := AfterExpr(s.selector, n1);
    if s.cases.Case? {
      SingleCase(s.cases);
      assert AfterCases(s.cases.rest, AfterStmts(s.cases.body, n2)) == AfterStmts(s.cases.body, n2);
    }
    var n3 := AfterCases(s.cases, n2);
    var k2 := SingleTail(s.other, n1, n3, b, code);
    var k3 := if s.cases.Case? then StmtsCode(s.cases.body, n2, b, k2) else k2;
    var i := JMP(if s.other.Some? then n1.conditional else n1.unconditional, 0);
    assert [INT_OP(Eql), i] + k3 == [INT_OP(Eql)] + ([i] + k3);
  }

  /** The jump to the end, the other part and the end label. */
  lemma {:induction false} SingleTailBefore(other: Option<Stmts>, n1: Labels, n: Labels, b: int, base: nat, inLoop: bool, lo: Labels,
                                            hi: Labels, open: set<int>, code: seq<Instr>, k: seq<Instr>) returns (r: seq<Instr>)
    requires other.Some? ==> GoodStmts(other.value, base, inLoop)
    requires Room(n, if other.Some? then AfterStmts(other.value, n) else n, lo, hi, open, code, k) && (inLoop ==> b in open)
    requires var u, c := n1.unconditional, n1.conditional;
      && lo.unconditional < u <= n.unconditional && u !in Marks(code)
      && (other.Some? ==> lo.conditional < c <= n.conditional && c !in Marks(code))
    ensures r == SingleTail(other, n1, n, b, code) && r != [] && r[0] == JMP(n1.unconditional, -1)
    ensures Disciplined(r, lo, hi, open, k) && Marks(code) <= Marks(r)
    ensures n1.unconditional in Marks(r) && (other.Some? ==> n1.conditional in Marks(r))
    ensures forall l <- Marks(r) ::
      || l in Marks(code) || l == n1.unconditional
      || (other.Some? && (l == n1.conditional || Between(l, n, AfterStmts(other.value, n))))
    decreases other, 0
  {
    hide Marks, Disciplined, AfterStmts, StmtsCode;
    var u, c := n1.unconditional, n1.conditional;
    Append1(LBL(u), lo, hi, open, code, k);
    var k1 := [LBL(u)] + code;
    if other.Some? {
      StmtsBefore(other.value, n, b, base, inLoop, lo, hi, open, k1, k);
      var k2 := StmtsCode(other.value, n, b, k1);
      Append1(LBL(c), lo, hi, open, k2, k);
      k1 := [LBL(c)] + k2;
    }
    Append1(JMP(u, -1), lo, hi, open, k1, k);
    r := [JMP(u, -1)] + k1;
  }

  /** The labels of the cases, one for each value. */
  function CaseLabels(cases: Cases, labels: map<int, int>): set<int> {
    match cases
    case NoCase => {}
    case Case(value, _, rest) => {LabelOf(labels, value)} + CaseLabels(rest, labels)
  }

  predicate DistinctLabels(cases: Cases, labels: map<int, int>) {
    cases.Case? ==> LabelOf(labels, cases.value) !in CaseLabels(cases.rest, labels) && DistinctLabels(cases.rest, labels)
  }

  lemma {:induction false} LabelMapAt(values: seq<int>, first: int, i: nat)
    requires i < |values| && Sorted(values)
    ensures values[i] in LabelMap(values, first) && LabelMap(values, first)[values[i]] == first + i
  {
    var last := |values| - 1;
    if i < last {
      assert values[..last][i] == values[i] && values[i] < values[last];
      LabelMapAt(values[..last], first, i);
    }
  }

  /** Suffixes of the sorted values keep their labels, which grow with the position. */
  lemma {:induction false} CaseLabelsAt(cases: Cases, all: seq<int>, i: nat, first: int)
    requires Sorted(all) && i <= |all| && Values(cases) == all[i..]
    ensures var labels := LabelMap(all, first);
      && DistinctLabels(cases, labels)
      && (forall l <- CaseLabels(cases, labels) :: first + i <= l < first + |all|)
      && (forall v <- Values(cases) :: LabelOf(labels, v) in CaseLabels(cases, labels))
  {
    if cases.Case? {
      assert all[i..][0] == all[i] && all[i..][1..] == all[i + 1..];
      assert Values(cases)[1..] == Values(cases.rest);
      LabelMapAt(all, first, i);
      CaseLabelsAt(cases.rest, all, i + 1, first);
    } else {
      assert Values(cases) == [];
    }
  }

  lemma {:induction false} CasesBefore(cases: Cases, labels: map<int, int>, end: int, n: Labels, b: int, base: nat, inLoop: bool, lo: Labels, hi: Labels,
                                       open: set<int>, code: seq<Instr>, k: seq<Instr>)
    requires GoodCases(cases, base, inLoop)
    requires Room(n, AfterCases(cases, n), lo, hi, open, code, k) && (inLoop ==> b in open) && end in Marks(code)
    requires DistinctLabels(cases, labels) && CaseLabels(cases, labels) !! Marks(code)
    requires forall l <- CaseLabels(cases, labels) :: lo.conditional < l <= n.conditional
    ensures var r := CasesCode(cases, labels, end, n, b, code);
      && Disciplined(r, lo, hi, open, k) && Marks(code) <= Marks(r) && CaseLabels(cases, labels) <= Marks(r)
      && forall l <- Marks(r) :: l in Marks(code) || l in CaseLabels(cases, labels) || Between(l, n, AfterCases(cases, n))
    decreases cases, 0
  {
    hide Marks, Disciplined;
    if cases.NoCase? { return; }
    var Case(value, body, rest) := cases;
    var n1 := AfterStmts(body, n);
    var l := LabelOf(labels, value);
    StmtsOrdered(body, n);
    CasesOrdered(rest, n1);
    CasesBefore(rest, labels, end, n1, b, base, inLoop, lo, hi, open, code, k);
    var k1 := CasesCode(rest, labels, end, n1, b, code);
    Append1(JMP(end, -1), lo, hi, open, k1, k);
    var k2 := [JMP(end, -1)] + k1;
    StmtsBefore(body, n, b, base, inLoop, lo, hi, open, k2, k);
    Append1(LBL(l), lo, hi, open, StmtsCode(body, n, b, k2), k);
  }

  lemma {:induction false} SelectBefore(s: Stmt, n: Labels, b: int, base: nat, inLoop: bool, lo: Labels, hi: Labels, open: set<int>,
                                        code: seq<Instr>, k: seq<Instr>)
    requires GoodStmt(s, base, inLoop)
    requires s.Select? && |Values(s.cases)| >= 2 && Sorted(Values(s.cases))
    requires Room(n, AfterStmt(s, n), lo, hi, open, code, k) && (inLoop ==> b in open)
    ensures Before(StmtCode(s, n, b, code), n, AfterStmt(s, n), lo, hi, open, code, k)
    decreases s, 1
  {
    hide Marks, Disciplined, Plan, StmtCode, AfterStmt, Ids, DistinctIds, Tested, CaseLabels, DistinctLabels;
    var p := Plan(s, n);
    var k4 := SelectTail(s, n, b, base, inLoop, lo, hi, open, code, k);
    SelectNumbers(s, n);
    SelectReady(s, n, lo, hi, open, code, k, k4);
    TreeDisciplined(s.selector, p.root, p.labels, p.default, p.treeStart, lo, hi, open, k4, k);
  }

  /** The statements of a select leave its tree what it needs. */
  lemma SelectReady(s: Stmt, n: Labels, lo: Labels, hi: Labels, open: set<int>, code: seq<Instr>, k: seq<Instr>, k4: seq<Instr>)
    requires s.Select? && |Values(s.cases)| >= 2 && Sorted(Values(s.cases))
    requires Room(n, AfterStmt(s, n), lo, hi, open, code, k)
    requires var p := Plan(s, n);
      && p.default in Marks(k4) && CaseLabels(s.cases, p.labels) <= Marks(k4)
      && Ordered(p.after, AfterStmt(s, n))
      && forall l <- Marks(k4) :: l in Marks(code) || l == p.end || l == p.default || l in CaseLabels(s.cases, p.labels)
                                  || Between(l, p.after, AfterStmt(s, n))
    ensures var p := Plan(s, n);
      TreeReady(s.selector, p.root, p.labels, p.default, p.treeStart, lo, hi, k4)
  {
    hide Marks, Disciplined, StmtCode, AfterStmt;
    SelectNumbers(s, n);
    var p, n' := Plan(s, n), AfterStmt(s, n);
    hide Plan, Ids, DistinctIds, Tested, CaseLabels, DistinctLabels;
    forall id | id in Ids(p.root) ensures id !in Marks(k4) && lo.conditional < id <= p.treeStart.conditional {
      assert Between(id, n, p.treeStart) && !Between(id, p.after, n');
    }
    forall l | l in Marks(k4) ensures !Between(l, p.treeStart, p.after) {}
  }

  /** The statements of a select, behind its tree. */
  lemma {:induction false} SelectTail(s: Stmt, n: Labels, b: int, base: nat, inLoop: bool, lo: Labels, hi: Labels, open: set<int>,
                                      code: seq<Instr>, k: seq<Instr>) returns (k4: seq<Instr>)
    requires GoodStmt(s, base, inLoop)
    requires s.Select? && |Values(s.cases)| >= 2
    requires Room(n, AfterStmt(s, n), lo, hi, open, code, k) && (inLoop ==> b in open)
    ensures var p := Plan(s, n);
      && StmtCode(s, n, b, code) == TreeCode(s.selector, p.root, p.labels, p.default, p.treeStart, k4)
      && Disciplined(k4, lo, hi, open, k) && Marks(code) <= Marks(k4)
      && p.default in Marks(k4) && CaseLabels(s.cases, p.labels) <= Marks(k4)
      && Ordered(p.after, AfterStmt(s, n))
      && forall l <- Marks(k4) :: l in Marks(code) || l == p.end || l == p.default || l in CaseLabels(s.cases, p.labels)
                                  || Between(l, p.after, AfterStmt(s, n))
    decreases s, 0
  {
    hide Marks, Disciplined;
    var Select(e, cases, other) := s;
    var p := Plan(s, n);
    var n1, n2 := p.after, AfterCases(cases, p.after);
    SelectNumbers(s, n);
    CasesOrdered(cases, n1);
    if other.Some? { StmtsOrdered(other.value, n2); }
    var k1 := OtherBefore(other, n2, p.end, p.default, b, base, inLoop, lo, hi, open, code, k);
    k4 := CasesCode(cases, p.labels, p.end, n1, b, k1);
    assert StmtCode(s, n, b, code) == TreeCode(e, p.root, p.labels, p.default, p.treeStart, k4);
    hide Plan, StmtCode;
    assert Room(n1, n2, lo, hi, open, k1, k);
    forall l | l in CaseLabels(cases, p.labels) ensures l !in Marks(k1) && lo.conditional < l <= n1.conditional {
      assert Between(l, n, AfterStmt(s, n));
    }
    CasesBefore(cases, p.labels, p.end, n1, b, base, inLoop, lo, hi, open, k1, k);
  }

  /** How the labels of a select lie: cases, other, tree nodes, then those of the selector's copies. */
  lemma SelectNumbers(s: Stmt, n: Labels)
    requires s.Select? && |Values(s.cases)| >= 2 && Sorted(Values(s.cases))
    ensures var p, m := Plan(s, n), n.conditional + |Values(s.cases)|;
      && p.after == AfterTree(s.selector, p.root, p.treeStart)
      && p.treeStart.unconditional == n.unconditional + 1 == p.end
      && p.default == (if s.other.Some? then m + 1 else p.end)
      && DistinctLabels(s.cases, p.labels)
      && (forall l <- CaseLabels(s.cases, p.labels) :: n.conditional < l <= m)
      && DistinctIds(p.root)
      && (forall id <- Ids(p.root) :: m + (if s.other.Some? then 1 else 0) < id <= p.treeStart.conditional)
      && m + (if s.other.Some? then 1 else 0) < p.treeStart.conditional
      && (forall v <- Tested(p.root) :: LabelOf(p.labels, v) in CaseLabels(s.cases, p.labels))
      && Ordered(p.treeStart, p.after)
    ensures Ordered(n, Plan(s, n).treeStart)
  {
    hide Divide, LabelMap, LabelOf, CaseLabels, DistinctLabels, Ids, DistinctIds, Tested, AfterTree;
    var values, p := Values(s.cases), Plan(s, n);
    var last := n.conditional + |values| + if s.other.Some? then 1 else 0;
    PlanOrdered(s, n);
    DivideIds(values, 0, |values| - 1, last);
    DivideTests(values, 0, |values| - 1, last);
    WholeSeq(values);
    CaseLabelsAt(s.cases, values, 0, n.conditional + 1);
  }

  lemma WholeSeq<T>(s: seq<T>)
    ensures s[0..] == s
  {
  }

  /** The other branch of a select, if there is one, and the end label. */
  lemma {:induction false} OtherBefore(other: Option<Stmts>, n: Labels, end: int, default: int, b: int, base: nat, inLoop: bool,
                                       lo: Labels, hi: Labels, open: set<int>, code: seq<Instr>, k: seq<Instr>)
    returns (r: seq<Instr>)
    requires other.Some? ==> GoodStmts(other.value, base, inLoop)
    requires Room(n, if other.Some? then AfterStmts(other.value, n) else n, lo, hi, open, code, k) && (inLoop ==> b in open)
    requires Between(end, lo, hi) && end !in Marks(code) && end <= n.unconditional && lo.unconditional < end
    requires if other.None? then default == end
             else lo.conditional < default <= n.conditional && default !in Marks(code)
    ensures r == if other.Some?
                 then [LBL(default)] + StmtsCode(other.value, n, b, [JMP(end, -1), LBL(end)] + code)
                 else [LBL(end)] + code
    ensures Disciplined(r, lo, hi, open, k) && Marks(code) <= Marks(r) && end in Marks(r) && default in Marks(r)
    ensures forall l <- Marks(r) :: l in Marks(code) || l == end || l == default
                                    || (other.Some? && Between(l, n, AfterStmts(other.value, n)))
    decreases other, 0
  {
    hide Marks, Disciplined;
    Append1(LBL(end), lo, hi, open, code, k);
    r := [LBL(end)] + code;
    if other.Some? {
      Append1(JMP(end, -1), lo, hi, open, r, k);
      var k2 := [JMP(end, -1), LBL(end)] + code;
      assert k2 == [JMP(end, -1)] + r;
      StmtsBefore(other.value, n, b, base, inLoop, lo, hi, open, k2, k);
      var k3 := StmtsCode(other.value, n, b, k2);
      Append1(LBL(default), lo, hi, open, k3, k);
      r := [LBL(default)] + k3;
    }
  }
}
