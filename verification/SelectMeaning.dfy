// The comparison tree of a select: as a search tree over the case values, and as the code that
// reaches exactly the statements of the selector's value.

module SelectMeaning {
  import opened Wrappers
  import opened Words
  import opened Bytecode
  import opened Source
  import opened Emission
  import opened Discipline
  import opened StmtDiscipline
  import opened Placement
  import opened ExprMeaning

  /** Whether the comparisons from node on find v. */
  predicate Finds(node: Node, v: int) {
    match node
    case Equal(_, value) => v == value
    case Less(_, value, left, right) => Finds(if v < value then left else right, v)
    case LessOrEqual(_, value, value2, left, right) => v == value || Finds(if v < value2 then left else right, v)
  }

  /** Nodes a dispatch of v visits. */
  function Visits(node: Node, v: int): nat {
    match node
    case Equal(_, _) => 1
    case Less(_, value, left, right) => 1 + Visits(if v < value then left else right, v)
    case LessOrEqual(_, value, value2, left, right) =>
      if v == value then 1 else 1 + Visits(if v < value2 then left else right, v)
  }

  predicate Among(values: seq<int>, start: nat, end: nat, v: int)
    requires end < |values|
  {
    exists i :: start <= i <= end && values[i] == v
  }

  lemma AmongParts(values: seq<int>, start: nat, middle: nat, from: nat, end: nat, v: int)
    requires Sorted(values) && start < middle <= from <= end < |values| && from <= middle + 1
    ensures Among(values, start, end, v) <==>
      (from == middle + 1 && v == values[middle])
      || if v < values[middle] then Among(values, start, middle - 1, v) else Among(values, from, end, v)
  {
  }

  /** Every value is found, and nothing else is. */
  lemma {:induction false} DivideFinds(values: seq<int>, start: nat, end: nat, last: int, v: int)
    requires Sorted(values) && start < end < |values|
    ensures Finds(Divide(values, start, end, last).0, v) <==> Among(values, start, end, v)
    decreases end - start
  {
    hide Divide;
    if end - start < 3 {
      DividePair(values, start, end, last);
      FindsPair(values, start, end, last, v);
    } else {
      var middle, from := DivideParts(values, start, end, last);
      var left := Divide(values, start, middle - 1, last);
      var right := Divide(values, from, end, left.1);
      DivideFinds(values, start, middle - 1, last, v);
      DivideFinds(values, from, end, left.1, v);
      AmongParts(values, start, middle, from, end, v);
      hide Among;
      var id, w := right.1 + 1, values[middle];
      assert Finds(Less(id, w, left.0, right.0), v) == Finds(if v < w then left.0 else right.0, v);
      assert Finds(LessOrEqual(id, w, w, left.0, right.0), v) == (v == w || Finds(if v < w then left.0 else right.0, v));
    }
  }

  lemma FindsPair(values: seq<int>, start: nat, end: nat, last: int, v: int)
    requires Sorted(values) && start < end < |values| && end - start < 3
    ensures var (l, r) := (Equal(last + 2, values[start]), Equal(last + 3, values[end]));
      Among(values, start, end, v) <==>
        Finds(if end == start + 1 then Less(last + 1, values[end], l, r)
              else LessOrEqual(last + 1, values[start + 1], values[end], l, r), v)
  {
    var (l, r) := (Equal(last + 2, values[start]), Equal(last + 3, values[end]));
    assert Finds(l, v) == (v == values[start]) && Finds(r, v) == (v == values[end]);
  }

  /** The dispatch over n values visits at most floor(log2 n) + 1 nodes. */
  lemma {:induction false} DivideBalanced(values: seq<int>, start: nat, end: nat, last: int, v: int)
    requires start < end < |values|
    ensures Visits(Divide(values, start, end, last).0, v) >= 1
    ensures Pow2(Visits(Divide(values, start, end, last).0, v) - 1) <= end - start + 1
    decreases end - start
  {
    hide Divide;
    if end - start < 3 {
      DividePair(values, start, end, last);
      VisitsPair(values, start, end, last, v);
    } else {
      var middle, from := DivideParts(values, start, end, last);
      var left := Divide(values, start, middle - 1, last);
      var right := Divide(values, from, end, left.1);
      DivideBalanced(values, start, middle - 1, last, v);
      DivideBalanced(values, from, end, left.1, v);
      var id, w := right.1 + 1, values[middle];
      var node := if from == middle then Less(id, w, left.0, right.0) else LessOrEqual(id, w, w, left.0, right.0);
      VisitsBelow(node, v);
    }
  }

  lemma VisitsBelow(node: Node, v: int)
    requires !node.Equal? && Visits(node.left, v) >= 1 && Visits(node.right, v) >= 1
    ensures Visits(node, v) == 1 || Visits(node, v) == 1 + Visits(node.left, v) || Visits(node, v) == 1 + Visits(node.right, v)
    ensures Visits(node, v) >= 1
    ensures Pow2(Visits(node, v) - 1) == 1 || Pow2(Visits(node, v) - 1) == 2 * Pow2(Visits(node.left, v) - 1)
            || Pow2(Visits(node, v) - 1) == 2 * Pow2(Visits(node.right, v) - 1)
  {
  }

  lemma VisitsPair(values: seq<int>, start: nat, end: nat, last: int, v: int)
    requires start < end < |values| && end - start < 3
    ensures var (l, r) := (Equal(last + 2, values[start]), Equal(last + 3, values[end]));
      var visits := Visits(if end == start + 1 then Less(last + 1, values[end], l, r)
                           else LessOrEqual(last + 1, values[start + 1], values[end], l, r), v);
      1 <= visits <= 2 && Pow2(visits - 1) <= 2
  {
    var (l, r) := (Equal(last + 2, values[start]), Equal(last + 3, values[end]));
    assert Visits(l, v) == 1 && Visits(r, v) == 1;
    assert Pow2(1) == 2 * Pow2(0);
  }

  // ----- The tree's code -----

  function At(code: seq<Instr>, l: int): seq<Instr> {
    var t := AfterLabel(code, l);
    if t.None? then [] else t.value
  }

  /** l is placed in code, behind everything in front of k. */
  predicate Ahead(code: seq<Instr>, l: int, k: seq<Instr>) {
    AfterLabel(code, l).Some? && |At(code, l)| <= |k|
  }

  lemma {:induction false} PureEval(h: Host, e: Expr, env: Env)
    requires Pure(e)
    ensures Eval(h, e, env).Some? ==> Eval(h, e, env).value.1 == env
  {
    match e
    case IntLit(_) =>
    case Variable(_) =>
    case Field(_) =>
    case Calculated(_, left, right) =>
      PureEval(h, left, env);
      PureEval(h, right, env);
    case Logic(_, right, left) =>
      PureEval(h, left, env);
      PureEval(h, right, env);
    case Cond(test, yes, no) =>
      PureEval(h, test, env);
      PureEval(h, yes, env);
      PureEval(h, no, env);
  }

  /** The state a comparison, or a whole dispatch, leaves: nothing but the scratch slot may differ. */
  ghost predicate Untouched(env: Env, m: Machine, m': Machine, base: nat) {
    Agree(env, m', base) && SameFrame(m, m') && m'.stack == m.stack
  }

  /** Compares the selector with w and branches to l when the comparison holds. */
  lemma Comparison(a: Activation, e: Expr, n: Labels, w: int, op: IntOp, l: int, k: seq<Instr>, env: Env, v: int, m: Machine,
                   fuel: nat, base: nat) returns (m': Machine)
    requires Runnable(a) && GoodExpr(e, base) && Agree(env, m, base) && Eval(a.host, e, env) == Some((v, env))
    requires IsSuffix(ExprCode(e, n, [INT_OP(op), JMP(l, 1)] + k), a.code) && op in {Eql, Les} && Ahead(a.code, l, k)
    ensures var holds := if op == Eql then v == w else v < w;
      Run(a, [LOAD_INT_LIT(w)] + ExprCode(e, n, [INT_OP(op), JMP(l, 1)] + k), m, fuel) ==
        Run(a, if holds then At(a.code, l) else k, m', fuel)
    ensures Untouched(env, m, m', base)
  {
    hide Run, Fine, OneWord, ExprCode, IsSuffix, Eval, GoodExpr;
    var k1 := [INT_OP(op), JMP(l, 1)] + k;
    assert k1 == [INT_OP(op)] + ([JMP(l, 1)] + k);
    Do(a, LOAD_INT_LIT(w), ExprCode(e, n, k1), m, fuel);
    Literal(a.host, w, m);
    var m1 := m.(stack := [w] + m.stack);
    var m2 := ExprComputes(a, e, n, k1, env, m1, fuel, base);
    var holds := if op == Eql then v == w else v < w;
    Do(a, INT_OP(op), [JMP(l, 1)] + k, m2, fuel);
    Calculates(a.host, op, m2, v, w, m.stack);
    var m3 := m2.(stack := [Bool(holds)] + m.stack);
    BranchTo(a, l, 1, k, At(a.code, l), m3, fuel);
    Popped(Bool(holds), m.stack);
    m' := m3.(stack := m.stack);
  }

  lemma ComparisonFaults(a: Activation, e: Expr, n: Labels, w: int, k: seq<Instr>, env: Env, m: Machine, fuel: nat, base: nat)
    requires Runnable(a) && GoodExpr(e, base) && Agree(env, m, base) && Eval(a.host, e, env).None?
    requires IsSuffix(ExprCode(e, n, k), a.code)
    ensures Run(a, [LOAD_INT_LIT(w)] + ExprCode(e, n, k), m, fuel) == Fault
  {
    hide Run, Fine, OneWord, ExprCode, IsSuffix, Eval, GoodExpr;
    Do(a, LOAD_INT_LIT(w), ExprCode(e, n, k), m, fuel);
    Literal(a.host, w, m);
    var m2 := ExprComputes(a, e, n, k, env, m.(stack := [w] + m.stack), fuel, base);
  }

  /** The jump to the right subtree and both subtrees; m is the label count in front of them. */
  function Subtrees(e: Expr, node: Node, labels: map<int, int>, default: int, m: Labels, k: seq<Instr>): seq<Instr>
    requires !node.Equal?
  {
    [JMP(node.right.id, -1)]
    + TreeCode(e, node.left, labels, default, m, TreeCode(e, node.right, labels, default, AfterTree(e, node.left, m), k))
  }

  /** A node's code behind its label. */
  function NodeCode(e: Expr, node: Node, labels: map<int, int>, default: int, n: Labels, k: seq<Instr>): seq<Instr> {
    var n1 := AfterExpr(e, n);
    [LOAD_INT_LIT(node.value)] + ExprCode(e, n,
      match node
      case Equal(_, value) => [INT_OP(Eql), JMP(LabelOf(labels, value), 1)] + ([JMP(default, -1)] + k)
      case Less(_, _, left, _) => [INT_OP(Les), JMP(left.id, 1)] + Subtrees(e, node, labels, default, n1, k)
      case LessOrEqual(_, value, value2, left, _) =>
        [INT_OP(Eql), JMP(LabelOf(labels, value), 1)]
        + ([LOAD_INT_LIT(value2)]
           + ExprCode(e, n1, [INT_OP(Les), JMP(left.id, 1)] + Subtrees(e, node, labels, default, AfterExpr(e, n1), k))))
  }

  lemma TreeIsNode(e: Expr, node: Node, labels: map<int, int>, default: int, n: Labels, k: seq<Instr>)
    ensures TreeCode(e, node, labels, default, n, k) == [LBL(node.id)] + NodeCode(e, node, labels, default, n, k)
  {
    hide ExprCode, AfterExpr, AfterTree, LabelOf;
    var n1 := AfterExpr(e, n);
    var n2 := AfterExpr(e, n1);
    match node
    case Equal(id, value) =>
      var test := [INT_OP(Eql), JMP(LabelOf(labels, value), 1)] + ([JMP(default, -1)] + k);
      Regroup(INT_OP(Eql), JMP(LabelOf(labels, value), 1), JMP(default, -1), k);
      Headed(id, value, ExprCode(e, n, test));
    case Less(id, value, left, right) =>
      var k1 := TreeCode(e, left, labels, default, n1, TreeCode(e, right, labels, default, AfterTree(e, left, n1), k));
      Regroup(INT_OP(Les), JMP(left.id, 1), JMP(right.id, -1), k1);
      Headed(id, value, ExprCode(e, n, Branch(left, right) + k1));
    case LessOrEqual(id, value, value2, left, right) =>
      var k1 := TreeCode(e, left, labels, default, n2, TreeCode(e, right, labels, default, AfterTree(e, left, n2), k));
      Regroup(INT_OP(Les), JMP(left.id, 1), JMP(right.id, -1), k1);
      var k2 := ExprCode(e, n1, Branch(left, right) + k1);
      Regroup(INT_OP(Eql), JMP(LabelOf(labels, value), 1), LOAD_INT_LIT(value2), k2);
      Headed(id, value, ExprCode(e, n, [INT_OP(Eql), JMP(LabelOf(labels, value), 1), LOAD_INT_LIT(value2)] + k2));
  }

  lemma Headed(l: int, w: int, k: seq<Instr>)
    ensures [LBL(l), LOAD_INT_LIT(w)] + k == [LBL(l)] + ([LOAD_INT_LIT(w)] + k)
  {
  }

  lemma Regroup(i: Instr, j: Instr, l: Instr, k: seq<Instr>)
    ensures [i, j, l] + k == [i, j] + ([l] + k)
  {
  }

  /** What a dispatch over node comes to. */
  ghost predicate Dispatched(a: Activation, node: Node, labels: map<int, int>, default: int, code: seq<Instr>, env: Env, v: int,
                             m: Machine, m': Machine, fuel: nat, base: nat) {
    && Run(a, code, m, fuel) == Run(a, At(a.code, if Finds(node, v) then LabelOf(labels, v) else default), m', fuel)
    && Untouched(env, m, m', base)
  }

  /** The labels a tree jumps out to lie behind it. */
  ghost predicate ExitsAhead(a: Activation, node: Node, labels: map<int, int>, default: int, k: seq<Instr>) {
    Ahead(a.code, default, k) && forall w <- Tested(node) :: Ahead(a.code, LabelOf(labels, w), k)
  }

  /** For every value of the selector, a node leads to the statements of that value or to the default. */
  lemma {:induction false} TreeDispatches(a: Activation, e: Expr, node: Node, labels: map<int, int>, default: int, n: Labels,
                                          k: seq<Instr>, env: Env, v: int, m: Machine, fuel: nat, base: nat)
    returns (m': Machine)
    requires Runnable(a) && GoodExpr(e, base) && Agree(env, m, base) && Eval(a.host, e, env) == Some((v, env))
    requires IsSuffix(TreeCode(e, node, labels, default, n, k), a.code) && ExitsAhead(a, node, labels, default, k)
    ensures Dispatched(a, node, labels, default, TreeCode(e, node, labels, default, n, k), env, v, m, m', fuel, base)
    decreases node, 1
  {
    hide Run, Fine, OneWord, ExprCode, IsSuffix, Eval, GoodExpr, TreeCode, AfterTree, AfterLabel, LabelOf, Agree;
    TreeIsNode(e, node, labels, default, n, k);
    var code := NodeCode(e, node, labels, default, n, k);
    PassLabel(a, node.id, code, m, fuel);
    Behind([LBL(node.id)], code, a.code);
    var l := LabelOf(labels, node.value);
    match node
    case Equal(_, value) =>
      assert value in Tested(node);
      var k1 := [JMP(default, -1)] + k;
      Behind([LOAD_INT_LIT(value)], ExprCode(e, n, [INT_OP(Eql), JMP(l, 1)] + k1), a.code);
      m' := Comparison(a, e, n, value, Eql, l, k1, env, v, m, fuel, base);
      JumpTo(a, default, k, At(a.code, default), m', fuel);
    case Less(_, value, left, right) =>
      var n1 := AfterExpr(e, n);
      m' := BranchDispatches(a, e, node, value, n, n1, labels, default, k, env, v, m, fuel, base);
    case LessOrEqual(_, value, value2, left, right) =>
      assert value in Tested(node);
      var n1 := AfterExpr(e, n);
      var k2 := Subtrees(e, node, labels, default, AfterExpr(e, n1), k);
      var k1 := [LOAD_INT_LIT(value2)] + ExprCode(e, n1, [INT_OP(Les), JMP(left.id, 1)] + k2);
      var k0 := [INT_OP(Eql), JMP(l, 1)] + k1;
      Behind([LOAD_INT_LIT(value)], ExprCode(e, n, k0), a.code);
      ExprEnds(e, n, k0);
      Within(k0, ExprCode(e, n, k0), a.code);
      Behind([INT_OP(Eql), JMP(l, 1)], k1, a.code);
      SubtreesLonger(e, node, labels, default, n1, AfterExpr(e, n1), k);
      m' := Comparison(a, e, n, value, Eql, l, k1, env, v, m, fuel, base);
      if v != value {
        var m1 := m';
        m' := BranchDispatches(a, e, node, value2, n1, AfterExpr(e, n1), labels, default, k, env, v, m1, fuel, base);
      }
  }

  lemma SubtreesLonger(e: Expr, node: Node, labels: map<int, int>, default: int, n1: Labels, n2: Labels, k: seq<Instr>)
    requires !node.Equal?
    ensures |ExprCode(e, n1, [INT_OP(Les), JMP(node.left.id, 1)] + Subtrees(e, node, labels, default, n2, k))| > |k|
  {
    hide ExprCode, TreeCode;
    var right := TreeCode(e, node.right, labels, default, AfterTree(e, node.left, n2), k);
    TreeEnds(e, node.right, labels, default, AfterTree(e, node.left, n2), k);
    TreeEnds(e, node.left, labels, default, n2, right);
    ExprEnds(e, n1, [INT_OP(Les), JMP(node.left.id, 1)] + Subtrees(e, node, labels, default, n2, k));
  }

  /** The comparison for less and the subtree it picks. */
  lemma {:induction false} BranchDispatches(a: Activation, e: Expr, node: Node, w: int, n: Labels, n1: Labels, labels: map<int, int>,
                                            default: int, k: seq<Instr>, env: Env, v: int, m: Machine, fuel: nat, base: nat)
    returns (m': Machine)
    requires Runnable(a) && GoodExpr(e, base) && Agree(env, m, base) && Eval(a.host, e, env) == Some((v, env))
    requires !node.Equal? && ExitsAhead(a, node, labels, default, k)
    requires IsSuffix([LOAD_INT_LIT(w)] + ExprCode(e, n, [INT_OP(Les), JMP(node.left.id, 1)]
                                                       + Subtrees(e, node, labels, default, n1, k)), a.code)
    ensures Dispatched(a, if v < w then node.left else node.right, labels, default,
              [LOAD_INT_LIT(w)] + ExprCode(e, n, [INT_OP(Les), JMP(node.left.id, 1)] + Subtrees(e, node, labels, default, n1, k)),
              env, v, m, m', fuel, base)
    decreases node, 0
  {
    hide Run, Fine, OneWord, ExprCode, IsSuffix, Eval, GoodExpr, TreeCode, AfterTree, Agree;
    var left, right := node.left, node.right;
    var n2 := AfterTree(e, left, n1);
    var right' := TreeCode(e, right, labels, default, n2, k);
    var left' := TreeCode(e, left, labels, default, n1, right');
    var k1 := [JMP(right.id, -1)] + left';
    var k0 := [INT_OP(Les), JMP(left.id, 1)] + k1;
    Behind([LOAD_INT_LIT(w)], ExprCode(e, n, k0), a.code);
    ExprEnds(e, n, k0);
    Within(k0, ExprCode(e, n, k0), a.code);
    SubtreesPlaced(a, e, node, labels, default, n1, k);
    var m1 := Comparison(a, e, n, w, Les, left.id, k1, env, v, m, fuel, base);
    if v < w {
      TreeIsNode(e, left, labels, default, n1, right');
      PassLabel(a, left.id, NodeCode(e, left, labels, default, n1, right'), m1, fuel);
      m' := TreeDispatches(a, e, left, labels, default, n1, right', env, v, m1, fuel, base);
    } else {
      TreeIsNode(e, right, labels, default, n2, k);
      JumpTo(a, right.id, left', At(a.code, right.id), m1, fuel);
      PassLabel(a, right.id, NodeCode(e, right, labels, default, n2, k), m1, fuel);
      m' := TreeDispatches(a, e, right, labels, default, n2, k, env, v, m1, fuel, base);
    }
  }

  /** A tree's label is placed at its head. */
  lemma TreePlaced(a: Activation, e: Expr, node: Node, labels: map<int, int>, default: int, n: Labels, k: seq<Instr>)
    requires Fine(a.code) && IsSuffix(TreeCode(e, node, labels, default, n, k), a.code)
    ensures var tree := TreeCode(e, node, labels, default, n, k);
      && |k| <= |tree| && IsSuffix(k, a.code)
      && Ahead(a.code, node.id, tree) && At(a.code, node.id) == NodeCode(e, node, labels, default, n, k)
  {
    hide Fine, TreeCode, NodeCode, AfterLabel, IsSuffix;
    TreeEnds(e, node, labels, default, n, k);
    TreeIsNode(e, node, labels, default, n, k);
    Within(k, TreeCode(e, node, labels, default, n, k), a.code);
    Lands(a.code, node.id, NodeCode(e, node, labels, default, n, k));
    Shorter(k, TreeCode(e, node, labels, default, n, k));
  }

  lemma ExitsSplit(a: Activation, node: Node, labels: map<int, int>, default: int, k: seq<Instr>, k1: seq<Instr>)
    requires !node.Equal? && ExitsAhead(a, node, labels, default, k) && |k| <= |k1|
    ensures ExitsAhead(a, node.left, labels, default, k1) && ExitsAhead(a, node.right, labels, default, k)
  {
    assert forall w <- Tested(node.left) + Tested(node.right) :: w in Tested(node);
  }

  /** The labels of the two subtrees are placed at their heads. */
  lemma SubtreesPlaced(a: Activation, e: Expr, node: Node, labels: map<int, int>, default: int, n1: Labels, k: seq<Instr>)
    requires Fine(a.code) && !node.Equal? && ExitsAhead(a, node, labels, default, k)
    requires IsSuffix([INT_OP(Les), JMP(node.left.id, 1)] + Subtrees(e, node, labels, default, n1, k), a.code)
    ensures var n2 := AfterTree(e, node.left, n1);
      var right := TreeCode(e, node.right, labels, default, n2, k);
      var left := TreeCode(e, node.left, labels, default, n1, right);
      && IsSuffix(left, a.code) && IsSuffix(right, a.code) && |k| <= |right| <= |left|
      && Ahead(a.code, node.left.id, left) && At(a.code, node.left.id) == NodeCode(e, node.left, labels, default, n1, right)
      && Ahead(a.code, node.right.id, left) && At(a.code, node.right.id) == NodeCode(e, node.right, labels, default, n2, k)
      && ExitsAhead(a, node.left, labels, default, right) && ExitsAhead(a, node.right, labels, default, k)
  {
    hide Fine, TreeCode, AfterTree, ExprCode, NodeCode, AfterLabel, LabelOf, IsSuffix, ExitsAhead;
    var n2 := AfterTree(e, node.left, n1);
    var right := TreeCode(e, node.right, labels, default, n2, k);
    var left := TreeCode(e, node.left, labels, default, n1, right);
    Regroup(INT_OP(Les), JMP(node.left.id, 1), JMP(node.right.id, -1), left);
    Behind([INT_OP(Les), JMP(node.left.id, 1), JMP(node.right.id, -1)], left, a.code);
    TreePlaced(a, e, node.left, labels, default, n1, right);
    TreePlaced(a, e, node.right, labels, default, n2, k);
    ExitsSplit(a, node, labels, default, k, right);
  }
}
