// Emitted blocks are ready for the optimizer: what they are made of, and what every pass keeps of it.

module Ready {
  import opened Wrappers
  import opened Words
  import opened Bytecode
  import opened Simulation
  import opened Passes
  import opened Accessors
  import I = Inlining
  import opened Pipeline
  import opened Quotients
  import opened Source
  import opened Emission
  import opened Discipline
  import opened Compiler
  import opened ExprMeaning
  import opened StmtMeaning
  import P = Placement

  /** What is known of the products and quotients of a block: nothing, that only locals are multiplied and nothing is
      divided, or that there are none. */
  datatype Scaling = Anything | Products | Neither

  predicate ScalesAs(op: IntOp, scaling: Scaling) {
    scaling.Anything? || (op != Div && (scaling.Neither? ==> op != Mul))
  }

  /** Of all variables only integers, locals in the frame. */
  predicate Plain(i: Instr, scaling: Scaling) {
    && (i.LOAD_INT_VAR? || i.STOR_INT_VAR? || i.COPY_INT_VAR? ==>
          if i.ctx == LOCL then 0 <= i.slot < LOCAL_WORDS else !scaling.Products?)
    && !i.LOAD_FLOAT_VAR? && !i.STOR_FLOAT_VAR? && !i.COPY_FLOAT_VAR? && !I.IsFunctionVariable(i)
    && (i.INT_OP? ==> ScalesAs(i.op, scaling))
  }

  predicate AllPlain(code: seq<Instr>, scaling: Scaling) {
    forall i <- code :: Plain(i, scaling)
  }

  /** Every method of the program is plain. */
  predicate PlainProgram(p: Program, scaling: Scaling) {
    forall id :: id in p ==> AllPlain(p[id].code, scaling)
  }

  /** Loads from an instance or a class, and calls, which may become such loads. */
  predicate Far(i: Instr) {
    (i.LOAD_INT_VAR? && i.ctx != LOCL) || i.MTHD_CALL?
  }

  predicate Feeds(i: Instr) {
    !Stores(i) && !i.MTHD_CALL?
  }

  /** Behind prev, no far load or call comes directly behind a store or a call: something puts an instance there first. */
  predicate Fed(prev: Instr, code: seq<Instr>)
    decreases |code|
  {
    code == [] || ((Far(code[0]) ==> Feeds(prev)) && Fed(code[0], code[1..]))
  }

  /** Wherever the code is put. */
  predicate Settled(code: seq<Instr>) {
    (code != [] ==> !Far(code[0])) && Fed(POP_INT, code)
  }

  lemma Together(x: seq<Instr>, y: seq<Instr>, scaling: Scaling)
    requires AllPlain(x, scaling) && AllPlain(y, scaling)
    ensures AllPlain(x + y, scaling)
  {
  }

  lemma Parts(code: seq<Instr>, k: nat, scaling: Scaling)
    requires AllPlain(code, scaling) && k <= |code|
    ensures AllPlain(code[..k], scaling) && AllPlain(code[k..], scaling)
    ensures k < |code| ==> Plain(code[k], scaling)
  {
  }

  // ----- What the emitter emits -----

  predicate ExprScales(e: Expr, scaling: Scaling) {
    scaling.Anything? ||
    match e
    case IntLit(_) => true
    case Variable(_) => true
    case Field(_) => !scaling.Products?
    case Effect(_) => true
    case Calculated(op, l, r) => ScalesAs(op, scaling) && ExprScales(l, scaling) && ExprScales(r, scaling)
    case Logic(_, r, l) => ExprScales(l, scaling) && ExprScales(r, scaling)
    case Cond(t, y, n) => ExprScales(t, scaling) && ExprScales(y, scaling) && ExprScales(n, scaling)
  }

  /** What emission keeps of the code behind it. */
  predicate Emits(code: seq<Instr>, scaling: Scaling) {
    AllPlain(code, scaling) && Settled(code)
  }

  lemma FedAnywhere(prev: Instr, prev': Instr, code: seq<Instr>)
    requires Fed(prev, code) && (code != [] ==> !Far(code[0]))
    ensures Fed(prev', code)
  {
  }

  lemma FedStep(prev: Instr, i: Instr, rest: seq<Instr>)
    ensures Fed(prev, [i] + rest) <==> (Far(i) ==> Feeds(prev)) && Fed(i, rest)
  {
    assert ([i] + rest)[1..] == rest;
  }

  /** Instructions in front of code that are no far loads. */
  lemma {:induction false} Ahead(x: seq<Instr>, k: seq<Instr>, scaling: Scaling)
    requires AllPlain(x, scaling) && (forall i <- x :: !Far(i)) && Emits(k, scaling)
    ensures Emits(x + k, scaling)
  {
    if x == [] {
      assert x + k == k;
    } else {
      var rest := x[1..] + k;
      assert x[0] in x && x + k == [x[0]] + rest;
      Ahead(x[1..], k, scaling);
      FedAnywhere(POP_INT, x[0], rest);
      FedStep(POP_INT, x[0], rest);
      Together([x[0]], rest, scaling);
    }
  }

  /** The instance and a far load or call. */
  lemma Fetches(i: Instr, k: seq<Instr>, scaling: Scaling)
    requires Plain(i, scaling) && Far(i) && Emits(k, scaling)
    ensures Emits([LOAD_INST_MEM, i] + k, scaling)
  {
    var rest := [i] + k;
    assert [LOAD_INST_MEM, i] + k == [LOAD_INST_MEM] + rest;
    FedAnywhere(POP_INT, i, k);
    FedStep(LOAD_INST_MEM, i, k);
    FedStep(POP_INT, LOAD_INST_MEM, rest);
    Together([LOAD_INST_MEM, i], k, scaling);
  }

  lemma FieldStorePlain(x: int, k: seq<Instr>, scaling: Scaling)
    requires !scaling.Products? && Emits(k, scaling)
    ensures Emits(FieldStore(x) + k, scaling)
  {
    Ahead(FieldStore(x), k, scaling);
  }

  lemma FieldChangePlain(op: IntOp, x: int, k: seq<Instr>, scaling: Scaling)
    requires !scaling.Products? && ScalesAs(op, scaling) && Emits(k, scaling)
    ensures Emits(FieldChange(op, x) + k, scaling)
  {
    var rest := [INT_OP(op)] + FieldStore(x);
    assert FieldChange(op, x) + k == [LOAD_INST_MEM, LOAD_INT_VAR(x, INST)] + (rest + k);
    Ahead(rest, k, scaling);
    hide Emits;
    Fetches(LOAD_INT_VAR(x, INST), rest + k, scaling);
  }

  lemma CallPlain(id: MethodId, dest: Destination, k: seq<Instr>, scaling: Scaling)
    requires (dest.Into? ==> 0 <= dest.slot < LOCAL_WORDS) && Emits(k, scaling)
    ensures Emits(CallTail(id, dest) + k, scaling)
  {
    var rest := CallTail(id, dest)[2..];
    assert CallTail(id, dest) + k == [LOAD_INST_MEM, MTHD_CALL(id)] + (rest + k);
    Ahead(rest, k, scaling);
    hide Emits;
    Fetches(MTHD_CALL(id), rest + k, scaling);
  }

  lemma One(i: Instr, k: seq<Instr>, scaling: Scaling)
    requires Plain(i, scaling) && !Far(i) && Emits(k, scaling)
    ensures Emits([i] + k, scaling)
  {
    Ahead([i], k, scaling);
  }

  /** Jumps, labels, literals and the scratch slot. */
  lemma Jumpy(x: seq<Instr>, k: seq<Instr>, scaling: Scaling)
    requires Emits(k, scaling)
    requires forall i <- x :: i.JMP? || i.LBL? || i == POP_INT || i == INT_OP(Eql) || i.LOAD_INT_LIT? || i == SCRATCH || i == RESULT
    ensures Emits(x + k, scaling)
  {
    Ahead(x, k, scaling);
  }

  lemma {:induction false} ExprPlain(e: Expr, n: Labels, k: seq<Instr>, base: nat, scaling: Scaling)
    requires GoodExpr(e, base) && Emits(k, scaling) && ExprScales(e, scaling)
    ensures Emits(ExprCode(e, n, k), scaling)
  {
    hide Emits;
    match e
    case IntLit(v) => One(LOAD_INT_LIT(v), k, scaling);
    case Variable(x) => One(LOAD_INT_VAR(x, LOCL), k, scaling);
    case Field(x) => Fetches(LOAD_INT_VAR(x, INST), k, scaling);
    case Effect(number) => One(EffectCode(number), k, scaling);
    case Calculated(op, left, right) =>
      var k1 := [INT_OP(op)] + k;
      One(INT_OP(op), k, scaling);
      ExprPlain(left, AfterExpr(right, n), k1, base, scaling);
      ExprPlain(right, n, ExprCode(left, AfterExpr(right, n), k1), base, scaling);
    case Logic(isAnd, right, left) =>
      var n1 := AfterExpr(right, n).NextConditional().NextUnconditional();
      var k1 := [SCRATCH, LBL(n1.unconditional), RESULT] + k;
      Jumpy([SCRATCH, LBL(n1.unconditional), RESULT], k, scaling);
      ExprPlain(left, n1, k1, base, scaling);
      Jumpy(LogicMiddle(isAnd, n1), ExprCode(left, n1, k1), scaling);
      ExprPlain(right, n, LogicMiddle(isAnd, n1) + ExprCode(left, n1, k1), base, scaling);
    case Cond(test, yes, no) =>
      var n1 := n.NextUnconditional();
      var n2 := AfterExpr(test, n1).NextConditional();
      var k1 := [SCRATCH, LBL(n1.unconditional), RESULT] + k;
      var k2 := ExprCode(no, AfterExpr(yes, n2), k1);
      Jumpy([SCRATCH, LBL(n1.unconditional), RESULT], k, scaling);
      ExprPlain(no, AfterExpr(yes, n2), k1, base, scaling);
      Jumpy(CondMiddle(n1, n2), k2, scaling);
      ExprPlain(yes, n2, CondMiddle(n1, n2) + k2, base, scaling);
      var k3 := [JMP(n2.conditional, 0)] + ExprCode(yes, n2, CondMiddle(n1, n2) + k2);
      One(JMP(n2.conditional, 0), ExprCode(yes, n2, CondMiddle(n1, n2) + k2), scaling);
      ExprPlain(test, n1, k3, base, scaling);
  }

  lemma {:induction false} ArgsPlain(args: seq<Expr>, n: Labels, k: seq<Instr>, base: nat, scaling: Scaling)
    requires Emits(k, scaling) && forall e <- args :: GoodExpr(e, base) && ExprScales(e, scaling)
    ensures Emits(ArgsCode(args, n, k), scaling)
  {
    hide Emits, ExprCode;
    if args != [] {
      assert args[0] in args;
      ArgsPlain(args[1..], AfterExpr(args[0], n), k, base, scaling);
      ExprPlain(args[0], n, ArgsCode(args[1..], AfterExpr(args[0], n), k), base, scaling);
    }
  }

  lemma {:induction false} TreePlain(e: Expr, node: Node, labels: map<int, int>, default: int, n: Labels, k: seq<Instr>, base: nat,
                                     scaling: Scaling)
    requires GoodExpr(e, base) && Emits(k, scaling) && ExprScales(e, scaling)
    ensures Emits(TreeCode(e, node, labels, default, n, k), scaling)
  {
    hide ExprCode, Emits;
    var n1, head := AfterExpr(e, n), [LBL(node.id), LOAD_INT_LIT(node.value)];
    var y := k;
    if node.Equal? {
      Jumpy([INT_OP(Eql), JMP(LabelOf(labels, node.value), 1), JMP(default, -1)], k, scaling);
      y := [INT_OP(Eql), JMP(LabelOf(labels, node.value), 1), JMP(default, -1)] + k;
    } else {
      var m := if node.Less? then n1 else AfterExpr(e, n1);
      var m1 := AfterTree(e, node.left, m);
      TreePlain(e, node.right, labels, default, m1, k, base, scaling);
      var right := TreeCode(e, node.right, labels, default, m1, k);
      TreePlain(e, node.left, labels, default, m, right, base, scaling);
      y := TreeCode(e, node.left, labels, default, m, right);
      BranchPlain(node.left, node.right, y, scaling);
      y := Branch(node.left, node.right) + y;
      if node.LessOrEqual? {
        ExprPlain(e, n1, y, base, scaling);
        y := ExprCode(e, n1, y);
        var test := [INT_OP(Eql), JMP(LabelOf(labels, node.value), 1), LOAD_INT_LIT(node.value2)];
        Jumpy(test, y, scaling);
        y := test + y;
      }
    }
    ExprPlain(e, n, y, base, scaling);
    Jumpy(head, ExprCode(e, n, y), scaling);
  }

  lemma BranchPlain(left: Node, right: Node, k: seq<Instr>, scaling: Scaling)
    requires Emits(k, scaling)
    ensures Emits(Branch(left, right) + k, scaling)
  {
    Ahead(Branch(left, right), k, scaling);
  }

  predicate StmtScales(s: Stmt, scaling: Scaling) {
    scaling.Anything? ||
    match s
    case Assign(_, e) => ExprScales(e, scaling)
    case OpAssign(op, _, e) => ScalesAs(op, scaling) && ExprScales(e, scaling)
    case SetField(_, e) => !scaling.Products? && ExprScales(e, scaling)
    case OpSetField(op, _, e) => !scaling.Products? && ScalesAs(op, scaling) && ExprScales(e, scaling)
    case If(chain) => ChainScales(chain, scaling)
    case While(t, body) => ExprScales(t, scaling) && StmtsScale(body, scaling)
    case DoWhile(body, t) => ExprScales(t, scaling) && StmtsScale(body, scaling)
    case For(pre, t, update, body) =>
      StmtScales(pre, scaling) && ExprScales(t, scaling) && StmtScales(update, scaling) && StmtsScale(body, scaling)
    case Select(e, cases, other) =>
      ExprScales(e, scaling) && CasesScale(cases, scaling) && (other.Some? ==> StmtsScale(other.value, scaling))
    case Call(_, args, _) => forall e <- args :: ExprScales(e, scaling)
    case Empty => true
    case Break => true
    case Return(e) => e.Some? ==> ExprScales(e.value, scaling)
  }

  predicate StmtsScale(ss: Stmts, scaling: Scaling) {
    scaling.Anything? || (ss.Cons? ==> StmtScales(ss.head, scaling) && StmtsScale(ss.tail, scaling))
  }

  predicate ChainScales(chain: Chain, scaling: Scaling) {
    scaling.Anything? || (
      && ExprScales(chain.test, scaling) && StmtsScale(chain.body, scaling)
      && match chain.orElse
         case NoElse => true
         case ElseIf(next) => ChainScales(next, scaling)
         case Otherwise(rest) => StmtsScale(rest, scaling))
  }

  predicate CasesScale(cases: Cases, scaling: Scaling) {
    scaling.Anything? || (cases.Case? ==> StmtsScale(cases.body, scaling) && CasesScale(cases.rest, scaling))
  }

  lemma {:induction false} StmtPlain(s: Stmt, n: Labels, brk: int, k: seq<Instr>, base: nat, inLoop: bool, scaling: Scaling)
    requires GoodStmt(s, base, inLoop) && Emits(k, scaling) && StmtScales(s, scaling)
    ensures Emits(StmtCode(s, n, brk, k), scaling)
    decreases s, 1
  {
    hide ExprCode, TreeCode, Plan;
    match s
    case Assign(x, e) =>
      Ahead([STOR_INT_VAR(x, LOCL)], k, scaling);
      ExprPlain(e, n, [STOR_INT_VAR(x, LOCL)] + k, base, scaling);
    case OpAssign(op, x, e) =>
      var y := [LOAD_INT_VAR(x, LOCL), INT_OP(op), STOR_INT_VAR(x, LOCL)];
      Ahead(y, k, scaling);
      ExprPlain(e, n, y + k, base, scaling);
    case SetField(x, e) =>
      FieldStorePlain(x, k, scaling);
      ExprPlain(e, n, FieldStore(x) + k, base, scaling);
    case OpSetField(op, x, e) =>
      FieldChangePlain(op, x, k, scaling);
      ExprPlain(e, n, FieldChange(op, x) + k, base, scaling);
    case If(chain) =>
      var n1 := n.NextUnconditional().NextConditional();
      Ahead([LBL(n1.unconditional)], k, scaling);
      ChainPlain(chain, n1.conditional, n1.unconditional, n1, brk, [LBL(n1.unconditional)] + k, base, inLoop, scaling);
    case While(_, _) => LoopPlain(s, n, brk, k, base, inLoop, scaling);
    case DoWhile(_, _) => LoopPlain(s, n, brk, k, base, inLoop, scaling);
    case For(_, _, _, _) => LoopPlain(s, n, brk, k, base, inLoop, scaling);
    case Select(_, cases, _) =>
      if |Values(cases)| >= 2 { SelectPlain(s, n, brk, k, base, inLoop, scaling); }
      else { SinglePlain(s, n, brk, k, base, inLoop, scaling); }
    case Call(id, args, dest) =>
      CallPlain(id, dest, k, scaling);
      ArgsPlain(args, n, CallTail(id, dest) + k, base, scaling);
    case Empty =>
    case Break => Ahead([JMP(brk, -1)], k, scaling);
    case Return(e) =>
      Ahead([RTRN], k, scaling);
      if e.Some? { ExprPlain(e.value, n, [RTRN] + k, base, scaling); }
  }

  lemma {:induction false} LoopPlain(s: Stmt, n: Labels, brk: int, k: seq<Instr>, base: nat, inLoop: bool, scaling: Scaling)
    requires s.While? || s.DoWhile? || s.For?
    requires GoodStmt(s, base, inLoop) && Emits(k, scaling) && StmtScales(s, scaling)
    ensures Emits(StmtCode(s, n, brk, k), scaling)
    decreases s, 0
  {
    hide ExprCode, Emits;
    if s.DoWhile? {
      var n1 := n.NextConditional().NextUnconditional();
      var n2, c, e := AfterStmts(s.body, n1), n1.conditional, n1.unconditional;
      Jumpy([JMP(c, 1), LBL(e)], k, scaling);
      ExprPlain(s.test, n2, [JMP(c, 1), LBL(e)] + k, base, scaling);
      StmtsPlain(s.body, n1, e, ExprCode(s.test, n2, [JMP(c, 1), LBL(e)] + k), base, true, scaling);
      Jumpy([LBL(c)], StmtsCode(s.body, n1, e, ExprCode(s.test, n2, [JMP(c, 1), LBL(e)] + k)), scaling);
    } else {
      var n0 := if s.For? then AfterStmt(s.pre, n) else n;
      var n1 := n0.NextUnconditional();
      var n2 := AfterExpr(s.test, n1).NextConditional();
      var u, e := n1.unconditional, n2.conditional;
      Jumpy([JMP(u, -1), LBL(e)], k, scaling);
      var y := [JMP(u, -1), LBL(e)] + k;
      if s.For? {
        StmtPlain(s.update, AfterStmts(s.body, n2), e, y, base, true, scaling);
        y := StmtCode(s.update, AfterStmts(s.body, n2), e, y);
      }
      StmtsPlain(s.body, n2, e, y, base, true, scaling);
      y := StmtsCode(s.body, n2, e, y);
      Jumpy([JMP(e, 0)], y, scaling);
      ExprPlain(s.test, n1, [JMP(e, 0)] + y, base, scaling);
      y := ExprCode(s.test, n1, [JMP(e, 0)] + y);
      Jumpy([LBL(u)], y, scaling);
      if s.For? { StmtPlain(s.pre, n, brk, [LBL(u)] + y, base, inLoop, scaling); }
    }
  }

  lemma {:induction false} SelectPlain(s: Stmt, n: Labels, brk: int, k: seq<Instr>, base: nat, inLoop: bool, scaling: Scaling)
    requires s.Select? && |Values(s.cases)| >= 2
    requires GoodStmt(s, base, inLoop) && Emits(k, scaling) && StmtScales(s, scaling)
    ensures Emits(StmtCode(s, n, brk, k), scaling)
    decreases s, 0
  {
    hide Plan, Emits, ExprCode, TreeCode;
    var p := Plan(s, n);
    Jumpy([LBL(p.end)], k, scaling);
    var y := [LBL(p.end)] + k;
    if s.other.Some? {
      var n1, end := AfterCases(s.cases, p.after), [JMP(p.end, -1), LBL(p.end)];
      Jumpy(end, k, scaling);
      StmtsPlain(s.other.value, n1, brk, end + k, base, inLoop, scaling);
      y := StmtsCode(s.other.value, n1, brk, end + k);
      Jumpy([LBL(p.default)], y, scaling);
      y := [LBL(p.default)] + y;
    }
    CasesPlain(s.cases, p.labels, p.end, p.after, brk, y, base, inLoop, scaling);
    TreePlain(s.selector, p.root, p.labels, p.default, p.treeStart, CasesCode(s.cases, p.labels, p.end, p.after, brk, y), base,
              scaling);
  }

  lemma {:induction false} SinglePlain(s: Stmt, n: Labels, brk: int, k: seq<Instr>, base: nat, inLoop: bool, scaling: Scaling)
    requires s.Select? && |Values(s.cases)| < 2
    requires GoodStmt(s, base, inLoop) && Emits(k, scaling) && StmtScales(s, scaling)
    ensures Emits(StmtCode(s, n, brk, k), scaling)
    decreases s, 0
  {
    hide Emits, ExprCode;
    var Select(e, cases, other) := s;
    var n1 := SingleStart(other, n);
    var n2 := AfterExpr(e, n1);
    var n3 := AfterCases(cases, n2);
    Jumpy([LBL(n1.unconditional)], k, scaling);
    var y := [LBL(n1.unconditional)] + k;
    if other.Some? {
      StmtsPlain(other.value, n3, brk, y, base, inLoop, scaling);
      y := StmtsCode(other.value, n3, brk, y);
      Jumpy([LBL(n1.conditional)], y, scaling);
      y := [LBL(n1.conditional)] + y;
    }
    Jumpy([JMP(n1.unconditional, -1)], y, scaling);
    y := [JMP(n1.unconditional, -1)] + y;
    if cases.Case? {
      StmtsPlain(cases.body, n2, brk, y, base, inLoop, scaling);
      y := StmtsCode(cases.body, n2, brk, y);
    }
    var test := [INT_OP(Eql), JMP(if other.Some? then n1.conditional else n1.unconditional, 0)];
    Jumpy(test, y, scaling);
    ExprPlain(e, n1, test + y, base, scaling);
    Jumpy([LOAD_INT_LIT(if cases.Case? then cases.value else 0)], ExprCode(e, n1, test + y), scaling);
  }

  lemma {:induction false} StmtsPlain(ss: Stmts, n: Labels, brk: int, k: seq<Instr>, base: nat, inLoop: bool, scaling: Scaling)
    requires GoodStmts(ss, base, inLoop) && Emits(k, scaling) && StmtsScale(ss, scaling)
    ensures Emits(StmtsCode(ss, n, brk, k), scaling)
    decreases ss
  {
    hide Emits;
    if ss.Cons? {
      var n1 := AfterStmt(ss.head, n);
      StmtsPlain(ss.tail, n1, brk, k, base, inLoop, scaling);
      StmtPlain(ss.head, n, brk, StmtsCode(ss.tail, n1, brk, k), base, inLoop, scaling);
    }
  }

  lemma {:induction false} ChainPlain(chain: Chain, next: int, end: int, n: Labels, brk: int, k: seq<Instr>, base: nat, inLoop: bool,
                                      scaling: Scaling)
    requires GoodChain(chain, base, inLoop) && Emits(k, scaling) && ChainScales(chain, scaling)
    ensures Emits(ChainCode(chain, next, end, n, brk, k), scaling)
    decreases chain
  {
    hide Emits, ExprCode;
    var n1 := AfterExpr(chain.test, n).NextConditional();
    var n2, c := AfterStmts(chain.body, n1), n1.conditional;
    var y := k;
    match chain.orElse {
      case NoElse =>
      case ElseIf(next') =>
        ChainPlain(next', c, end, n2, brk, k, base, inLoop, scaling);
        y := ChainCode(next', c, end, n2, brk, k);
      case Otherwise(rest) =>
        StmtsPlain(rest, n2, brk, k, base, inLoop, scaling);
        Jumpy([LBL(c)], StmtsCode(rest, n2, brk, k), scaling);
        y := [LBL(c)] + StmtsCode(rest, n2, brk, k);
    }
    var skip := [JMP(end, -1)] + Guard(chain);
    Jumpy(skip, y, scaling);
    StmtsPlain(chain.body, n1, brk, skip + y, base, inLoop, scaling);
    y := StmtsCode(chain.body, n1, brk, skip + y);
    var i := [JMP(if chain.orElse.NoElse? then end else c, 0)];
    Jumpy(i, y, scaling);
    ExprPlain(chain.test, n, i + y, base, scaling);
    Jumpy([LBL(next)], ExprCode(chain.test, n, i + y), scaling);
  }

  lemma {:induction false} CasesPlain(cases: Cases, labels: map<int, int>, end: int, n: Labels, brk: int, k: seq<Instr>, base: nat,
                                      inLoop: bool, scaling: Scaling)
    requires GoodCases(cases, base, inLoop) && Emits(k, scaling) && CasesScale(cases, scaling)
    ensures Emits(CasesCode(cases, labels, end, n, brk, k), scaling)
    decreases cases
  {
    hide Emits;
    if cases.Case? {
      var n1 := AfterStmts(cases.body, n);
      CasesPlain(cases.rest, labels, end, n1, brk, k, base, inLoop, scaling);
      var y := [JMP(end, -1)] + CasesCode(cases.rest, labels, end, n1, brk, k);
      Jumpy([JMP(end, -1)], CasesCode(cases.rest, labels, end, n1, brk, k), scaling);
      StmtsPlain(cases.body, n, brk, y, base, inLoop, scaling);
      Jumpy([LBL(LabelOf(labels, cases.value))], StmtsCode(cases.body, n, brk, y), scaling);
    }
  }

  lemma {:induction false} ProloguePlain(params: seq<int>, k: seq<Instr>, scaling: Scaling)
    requires Emits(k, scaling) && SlotsFrom(params, 0, LOCAL_WORDS)
    ensures Emits(Prologue(params, k), scaling)
    decreases |params|
  {
    if params != [] {
      var last := |params| - 1;
      ProloguePlain(params[..last], k, scaling);
      One(STOR_INT_VAR(params[last], LOCL), Prologue(params[..last], k), scaling);
    }
  }

  lemma EpiloguePlain(r: Routine, scaling: Scaling)
    ensures Emits(Epilogue(r), scaling)
  {
    assert Emits([], scaling) && Epilogue(r) + [] == Epilogue(r);
    Ahead(Epilogue(r), [], scaling);
  }

  lemma RoutinePlain(r: Routine, n: Labels, base: nat, scaling: Scaling)
    requires GoodRoutine(r, base) && StmtsScale(r.body, scaling)
    ensures Emits(RoutineCode(r, n), scaling)
  {
    EpiloguePlain(r, scaling);
    StmtsPlain(r.body, n, 0, Epilogue(r), base, false, scaling);
    ProloguePlain(r.params, StmtsCode(r.body, n, 0, Epilogue(r)), scaling);
  }

  // ----- What the passes keep -----

  lemma {:induction false} RemoveUselessPlain(ws: seq<Instr>, rest: seq<Instr>, scaling: Scaling)
    requires AllPlain(ws, scaling) && AllPlain(rest, scaling)
    ensures AllPlain(RemoveUseless(ws, rest), scaling)
    decreases |rest|
  {
    if rest != [] {
      var i := rest[0];
      if i.LOAD_INT_VAR? && i.ctx == LOCL { RemoveUselessPlain(ws + [i], rest[1..], scaling); }
      else if Undoes(ws, i) { RemoveUselessPlain(Front(ws), rest[1..], scaling); }
      else { RemoveUselessPlain([], rest[1..], scaling); }
    }
  }

  lemma AccessorPlain(m: Method, scaling: Scaling)
    requires CanInlineSetterGetter(m) >= 0 && AllPlain(m.code, scaling)
    ensures AllPlain(AccessorBody(m), scaling)
  {
    if |m.code| > 1 { Parts(m.code, 1, scaling); }
    if |m.code| > 3 { Parts(m.code, 3, scaling); }
  }

  lemma {:induction false} AccessorsPlain(p: Program, code: seq<Instr>, scaling: Scaling)
    requires PlainProgram(p, scaling) && AllPlain(code, scaling)
    ensures AllPlain(InlineSettersGetters(p, code), scaling)
  {
    hide AccessorBody, CanInlineSetterGetter;
    if code != [] {
      Parts(code, 0, scaling);
      Parts(code, 1, scaling);
      AccessorsPlain(p, code[1..], scaling);
      if Inlinable(p, code[0]) { AccessorPlain(p[code[0].id], scaling); }
      Together(if Inlinable(p, code[0]) then AccessorBody(p[code[0].id]) else [code[0]], InlineSettersGetters(p, code[1..]), scaling);
    }
  }

  lemma {:induction false} FoldIntsPlain(ws: seq<Instr>, rest: seq<Instr>, scaling: Scaling)
    requires IntLits(ws) && AllPlain(rest, scaling) && FoldInts(ws, rest).Some?
    ensures AllPlain(FoldInts(ws, rest).value, scaling)
    decreases |rest|
  {
    if rest != [] {
      var i := rest[0];
      hide EvalInt;
      if i.LOAD_INT_LIT? { FoldIntsPlain(ws + [i], rest[1..], scaling); }
      else if i.INT_OP? && Folds(i.op) && |ws| >= 2 {
        var v := EvalInt(i.op, ws[|ws| - 1].value, ws[|ws| - 2].value);
        FoldIntsPlain(ws[..|ws| - 2] + [LOAD_INT_LIT(v.value)], rest[1..], scaling);
      } else {
        FoldIntsPlain([], rest[1..], scaling);
        LitsPlain(ws, scaling);
        Parts(rest, 0, scaling);
        Together(ws, [i], scaling);
        Together(ws + [i], FoldInts([], rest[1..]).value, scaling);
      }
    } else {
      LitsPlain(ws, scaling);
    }
  }

  lemma LitsPlain(ws: seq<Instr>, scaling: Scaling)
    requires forall i <- ws :: i.LOAD_INT_LIT? || i.LOAD_FLOAT_LIT?
    ensures AllPlain(ws, scaling)
  {
  }

  lemma {:induction false} FoldFloatsPlain(h: Host, ws: seq<Instr>, rest: seq<Instr>, scaling: Scaling)
    requires FloatLits(ws) && AllPlain(rest, scaling)
    ensures AllPlain(FoldFloats(h, ws, rest), scaling)
    decreases |rest|
  {
    if rest != [] {
      var i := rest[0];
      if i.LOAD_FLOAT_LIT? { FoldFloatsPlain(h, ws + [i], rest[1..], scaling); }
      else if i.FLOAT_OP? && |ws| >= 2 {
        var v := h.floatOp(i.fop, ws[|ws| - 1].double, ws[|ws| - 2].double);
        FoldFloatsPlain(h, ws[..|ws| - 2] + [LOAD_FLOAT_LIT(v)], rest[1..], scaling);
      } else {
        FoldFloatsPlain(h, [], rest[1..], scaling);
        LitsPlain(ws, scaling);
        Parts(rest, 0, scaling);
        Together(ws, [i], scaling);
        Together(ws + [i], FoldFloats(h, [], rest[1..]), scaling);
      }
    } else {
      LitsPlain(ws, scaling);
    }
  }

  lemma {:induction false} ReduceStrengthPlain(ws: seq<Instr>, rest: seq<Instr>, scaling: Scaling)
    requires LitsAndVars(ws) && AllPlain(ws, scaling) && AllPlain(rest, scaling)
    ensures AllPlain(ReduceStrength(ws, rest), scaling)
    decreases |rest|
  {
    if rest != [] {
      var i := rest[0];
      Parts(rest, 0, scaling);
      Parts(rest, 1, scaling);
      if i.LOAD_INT_LIT? || i.LOAD_INT_VAR? {
        Together(ws, [i], scaling);
        ReduceStrengthPlain(ws + [i], rest[1..], scaling);
      } else {
        ReduceStrengthPlain([], rest[1..], scaling);
        var tail := ReduceStrength([], rest[1..]);
        if Scales(i) && Reduction(ws).Some? {
          var (k, load) := Reduction(ws).value;
          Parts(ws, |ws| - 2, scaling);
          Parts(ws, |ws| - 1, scaling);
          assert AllPlain(Shifted(k, load, i), scaling);
          Together(ws[..|ws| - 2], Shifted(k, load, i), scaling);
          Together(ws[..|ws| - 2] + Shifted(k, load, i), tail, scaling);
        } else {
          Together(ws, [i], scaling);
          Together(ws + [i], tail, scaling);
        }
      }
    }
  }

  /** Without a division the strength reduction only meets products of locals. */
  lemma NoQuotients(code: seq<Instr>, scaling: Scaling)
    requires AllPlain(code, scaling) && !scaling.Anything?
    ensures ProductsOnly(code)
  {
    forall k | 0 <= k <= |code| && ScalesNext(code[k..])
      ensures code[k + 2] == INT_OP(Mul) && Reduction(code[k..][..2]).value.1.ctx == LOCL
    {
      Parts(code, k, scaling);
      Parts(code, k + 1, scaling);
      Parts(code, k + 2, scaling);
      ReducedOperands(code[k..]);
    }
  }

  // ----- Far loads stay fed -----

  lemma {:induction false} FedJoin(prev: Instr, x: seq<Instr>, y: seq<Instr>)
    ensures Fed(prev, x + y) <==> Fed(prev, x) && Fed(if x == [] then prev else Last(x), y)
    decreases |x|
  {
    if x == [] {
      assert x + y == y;
    } else {
      assert x + y == [x[0]] + (x[1..] + y);
      FedStep(prev, x[0], x[1..] + y);
      FedJoin(x[0], x[1..], y);
      if |x| > 1 { assert Last(x[1..]) == Last(x); }
    }
  }

  lemma FedBy(prev: Instr, prev': Instr, code: seq<Instr>)
    requires Fed(prev, code) && Feeds(prev')
    ensures Fed(prev', code)
  {
  }

  /** What is held back, the next instruction, and what becomes of the rest. */
  lemma FedFlush(prev: Instr, ws: seq<Instr>, rest: seq<Instr>, after: seq<Instr>)
    requires rest != [] && Fed(prev, ws + rest) && Fed(rest[0], after)
    ensures Fed(prev, ws + [rest[0]] + after)
  {
    hide Fed;
    FedRest(prev, ws, rest);
    FedJoin(prev, ws + [rest[0]], after);
    assert Last(ws + [rest[0]]) == rest[0];
  }

  lemma FedRest(prev: Instr, ws: seq<Instr>, rest: seq<Instr>)
    requires rest != [] && Fed(prev, ws + rest)
    ensures Fed(prev, ws) && Fed(prev, ws + [rest[0]]) && Fed(rest[0], rest[1..]) && Fed(rest[0], [] + rest[1..])
  {
    hide Fed;
    assert ws + rest == (ws + [rest[0]]) + rest[1..] && Last(ws + [rest[0]]) == rest[0] && [] + rest[1..] == rest[1..];
    FedJoin(prev, ws + [rest[0]], rest[1..]);
    FedJoin(prev, ws, [rest[0]]);
  }

  /** The same with something else in the place of what was held back last and the next instruction. */
  lemma FedInstead(prev: Instr, w: seq<Instr>, tail: seq<Instr>, i: Instr, tail': seq<Instr>, after: seq<Instr>)
    requires Fed(prev, w + tail) && tail' != [] && Feeds(Last(tail')) && Fed(i, after)
    requires !Far(tail'[0]) && Fed(POP_INT, tail')
    ensures Fed(prev, w + tail' + after)
  {
    FedBy(i, Last(tail'), after);
    FedAnywhere(POP_INT, if w == [] then prev else Last(w), tail');
    hide Fed, Far, Feeds;
    FedJoin(prev, w, tail);
    FedJoin(prev, w, tail');
    FedJoin(prev, w + tail', after);
    assert Last(w + tail') == Last(tail');
  }

  /** The last jump held back goes. */
  lemma FrontFed(prev: Instr, ws: seq<Instr>, i: Instr, after: seq<Instr>)
    requires ws != [] && Fed(prev, ws) && !Far(i) && Fed(i, after)
    ensures Fed(prev, Front(ws) + [i] + after)
  {
    assert ws == Front(ws) + [Last(ws)];
    FedJoin(prev, Front(ws), [Last(ws)]);
    FedCalm(if Front(ws) == [] then prev else Last(Front(ws)), [i]);
    hide Fed;
    FedJoin(prev, Front(ws), [i]);
    FedJoin(prev, Front(ws) + [i], after);
    assert Last(Front(ws) + [i]) == i;
  }

  lemma {:induction false} JumpsFed(prev: Instr, ws: seq<Instr>, rest: seq<Instr>)
    requires Fed(prev, ws + rest)
    ensures Fed(prev, CleanJumps(ws, rest))
    decreases |rest|
  {
    hide Fed;
    if rest == [] {
      assert ws + rest == ws;
      return;
    }
    var i := rest[0];
    FedRest(prev, ws, rest);
    if i.JMP? {
      assert ws + rest == ws + [i] + rest[1..];
      JumpsFed(prev, ws + [i], rest[1..]);
    } else {
      JumpsFed(i, [], rest[1..]);
      var after := CleanJumps([], rest[1..]);
      FedFlush(prev, ws, rest, after);
      if i.LBL? && ws != [] { FrontFed(prev, ws, i, after); }
    }
  }

  /** What follows a store can follow anything. */
  lemma UndoneFed(prev: Instr, ws: seq<Instr>, store: Instr, rest: seq<Instr>)
    requires ws != [] && Stores(store) && Fed(prev, ws) && Fed(store, rest)
    ensures Fed(prev, Front(ws) + rest)
  {
    assert ws == Front(ws) + [Last(ws)];
    FedJoin(prev, Front(ws), [Last(ws)]);
    FedAnywhere(store, if Front(ws) == [] then prev else Last(Front(ws)), rest);
    hide Fed;
    FedJoin(prev, Front(ws), rest);
  }

  lemma {:induction false} LoadsFed(prev: Instr, ws: seq<Instr>, rest: seq<Instr>)
    requires Fed(prev, ws + rest)
    ensures Fed(prev, RemoveUseless(ws, rest))
    decreases |rest|
  {
    hide Fed;
    if rest == [] {
      NothingFed(prev);
      return;
    }
    var i := rest[0];
    FedRest(prev, ws, rest);
    if i.LOAD_INT_VAR? && i.ctx == LOCL {
      assert ws + rest == ws + [i] + rest[1..];
      LoadsFed(prev, ws + [i], rest[1..]);
    } else if Undoes(ws, i) {
      UndoneFed(prev, ws, i, rest[1..]);
      LoadsFed(prev, Front(ws), rest[1..]);
    } else {
      LoadsFed(i, [], rest[1..]);
      FedFlush(prev, ws, rest, RemoveUseless([], rest[1..]));
    }
  }

  lemma NothingFed(prev: Instr)
    ensures Fed(prev, [])
  {
  }

  lemma {:induction false} AccessorsFed(prev: Instr, p: Program, code: seq<Instr>)
    requires Fed(prev, code) && PlainProgram(p, Anything)
    ensures Fed(prev, InlineSettersGetters(p, code))
    decreases |code|
  {
    if code == [] { return; }
    hide AccessorBody, CanInlineSetterGetter;
    var i, after := code[0], InlineSettersGetters(p, code[1..]);
    AccessorsFed(i, p, code[1..]);
    FedStep(prev, i, after);
    if Inlinable(p, i) {
      var body := AccessorBody(p[i.id]);
      AccessorFed(prev, p[i.id]);
      FedAnywhere(i, Last(body), after);
      FedJoin(prev, body, after);
    }
  }

  lemma AccessorFed(prev: Instr, m: Method)
    requires CanInlineSetterGetter(m) >= 0 && Feeds(prev)
    ensures AccessorBody(m) != [] && Fed(prev, AccessorBody(m))
  {
    FedCalm(prev, AccessorBody(m));
  }

  lemma {:induction false} FedCalm(prev: Instr, code: seq<Instr>)
    requires code != [] && (Far(code[0]) ==> Feeds(prev)) && forall i <- code[1..] :: !Far(i)
    ensures Fed(prev, code)
    decreases |code|
  {
    if |code| > 1 {
      assert code[1] == code[1..][0] && forall i <- code[1..][1..] :: i in code[1..];
      FedCalm(code[0], code[1..]);
    }
  }

  /** A literal in the place of two and an operator. */
  lemma FoldFed(prev: Instr, ws: seq<Instr>, i: Instr, lit: Instr, rest: seq<Instr>)
    requires |ws| >= 2 && Fed(prev, ws) && Fed(i, rest) && (lit.LOAD_INT_LIT? || lit.LOAD_FLOAT_LIT?)
    ensures Fed(prev, ws[..|ws| - 2] + [lit] + rest)
  {
    var n := |ws|;
    assert ws[..n - 2] + ws[n - 2..] == ws;
    assert Fed(POP_INT, [lit]);
    FedInstead(prev, ws[..n - 2], ws[n - 2..], i, [lit], rest);
  }

  lemma {:induction false} IntsFed(prev: Instr, ws: seq<Instr>, rest: seq<Instr>)
    requires IntLits(ws) && Fed(prev, ws + rest) && FoldInts(ws, rest).Some?
    ensures Fed(prev, FoldInts(ws, rest).value)
    decreases |rest|
  {
    if rest == [] {
      assert ws + rest == ws;
      return;
    }
    hide EvalInt, Fed, Far, Feeds;
    var i, n := rest[0], |ws|;
    FedRest(prev, ws, rest);
    if i.LOAD_INT_LIT? {
      assert ws + rest == ws + [i] + rest[1..];
      IntsFed(prev, ws + [i], rest[1..]);
    } else if i.INT_OP? && Folds(i.op) && n >= 2 {
      var lit := LOAD_INT_LIT(EvalInt(i.op, ws[n - 1].value, ws[n - 2].value).value);
      FoldFed(prev, ws, i, lit, rest[1..]);
      IntsFed(prev, ws[..n - 2] + [lit], rest[1..]);
    } else {
      IntsFed(i, [], rest[1..]);
      FedFlush(prev, ws, rest, FoldInts([], rest[1..]).value);
    }
  }

  lemma {:induction false} FloatsFed(h: Host, prev: Instr, ws: seq<Instr>, rest: seq<Instr>)
    requires FloatLits(ws) && Fed(prev, ws + rest)
    ensures Fed(prev, FoldFloats(h, ws, rest))
    decreases |rest|
  {
    if rest == [] {
      assert ws + rest == ws;
      return;
    }
    hide Fed, Far, Feeds;
    var i, n := rest[0], |ws|;
    FedRest(prev, ws, rest);
    if i.LOAD_FLOAT_LIT? {
      assert ws + rest == ws + [i] + rest[1..];
      FloatsFed(h, prev, ws + [i], rest[1..]);
    } else if i.FLOAT_OP? && n >= 2 {
      var lit := LOAD_FLOAT_LIT(h.floatOp(i.fop, ws[n - 1].double, ws[n - 2].double));
      FoldFed(prev, ws, i, lit, rest[1..]);
      FloatsFed(h, prev, ws[..n - 2] + [lit], rest[1..]);
    } else {
      FloatsFed(h, i, [], rest[1..]);
      FedFlush(prev, ws, rest, FoldFloats(h, [], rest[1..]));
    }
  }

  lemma {:induction false} OperandsFed(prev: Instr, ws: seq<Instr>, rest: seq<Instr>)
    requires LitsAndVars(ws) && Fed(prev, ws + rest)
    ensures Fed(prev, ReduceStrength(ws, rest))
    decreases |rest|
  {
    if rest == [] {
      assert ws + rest == ws;
      return;
    }
    hide Fed, Far, Feeds;
    var i, n := rest[0], |ws|;
    FedRest(prev, ws, rest);
    if i.LOAD_INT_LIT? || i.LOAD_INT_VAR? {
      assert ws + rest == ws + [i] + rest[1..];
      OperandsFed(prev, ws + [i], rest[1..]);
    } else {
      OperandsFed(i, [], rest[1..]);
      var after := ReduceStrength([], rest[1..]);
      if Scales(i) && Reduction(ws).Some? {
        var (k, load) := Reduction(ws).value;
        assert ws[..n - 2] + ws[n - 2..] == ws;
        ShiftFed(k, load, i);
        FedInstead(prev, ws[..n - 2], ws[n - 2..], i, Shifted(k, load, i), after);
      } else {
        FedFlush(prev, ws, rest, after);
      }
    }
  }

  lemma ShiftFed(k: nat, load: Instr, scale: Instr)
    requires load.LOAD_INT_VAR?
    ensures var s := Shifted(k, load, scale); Feeds(Last(s)) && !Far(s[0]) && Fed(POP_INT, s)
  {
    var s := Shifted(k, load, scale);
    assert s == [s[0]] + ([load] + [s[2]]);
    assert Fed(load, [s[2]]);
    FedStep(s[0], load, [s[2]]);
    FedStep(POP_INT, s[0], [load] + [s[2]]);
  }

  lemma {:induction false} FedAt(prev: Instr, code: seq<Instr>, k: nat)
    requires Fed(prev, code) && k + 1 < |code|
    ensures Far(code[k + 1]) ==> Feeds(code[k])
    decreases k
  {
    if k > 0 { FedAt(code[0], code[1..], k - 1); }
  }

  /** Integers only, and far loads behind the instance they load from: stores and loads pair up as the replacement
      pass expects. */
  lemma PlainCopies(prev: Instr, code: seq<Instr>, n: nat)
    requires AllPlain(code, Anything) && Fed(prev, code) && n <= |code|
    ensures CopiesCleanly(code[n..])
  {
    var tail := code[n..];
    forall k | 0 <= k < |tail| - 1
      ensures CopyFor(tail[k], tail[k + 1]).Some? ==> tail[k].ctx == LOCL
      ensures tail[k].STOR_FLOAT_VAR? ==> !Stores(tail[k + 1])
    {
      Parts(code, n + k, Anything);
      FedAt(prev, code, n + k);
    }
  }

  /** Up to and with strength reduction. */
  lemma ReducedFed(h: Host, p: Program, code: seq<Instr>)
    requires PlainProgram(p, Anything) && Fed(POP_INT, code) && Folded(h, p, code).Some?
    ensures Fed(POP_INT, ReduceStrength([], Folded(h, p, code).value))
  {
    var jumps := CleanJumps([], code);
    var accessors := InlineSettersGetters(p, Cleaned(code));
    var ints := FoldInts([], accessors).value;
    hide CleanJumps, RemoveUseless, InlineSettersGetters, FoldInts, FoldFloats, ReduceStrength, Fed;
    assert [] + code == code && [] + jumps == jumps && [] + accessors == accessors && [] + ints == ints;
    JumpsFed(POP_INT, [], code);
    LoadsFed(POP_INT, [], jumps);
    AccessorsFed(POP_INT, p, Cleaned(code));
    IntsFed(POP_INT, [], accessors);
    FloatsFed(h, POP_INT, [], ints);
    var floats := FoldFloats(h, [], ints);
    assert [] + floats == floats;
    OperandsFed(POP_INT, [], floats);
  }

  lemma CleanedPlain(code: seq<Instr>, scaling: Scaling)
    requires AllPlain(code, scaling)
    ensures AllPlain(Cleaned(code), scaling)
  {
    CleanJumpsKeeps([], code);
    RemoveUselessPlain([], CleanJumps([], code), scaling);
  }

  lemma FoldedPlain(h: Host, p: Program, code: seq<Instr>, scaling: Scaling)
    requires PlainProgram(p, scaling) && AllPlain(code, scaling) && Folded(h, p, code).Some?
    ensures AllPlain(Folded(h, p, code).value, scaling)
  {
    var accessors := InlineSettersGetters(p, Cleaned(code));
    CleanedPlain(code, scaling);
    AccessorsPlain(p, Cleaned(code), scaling);
    FoldIntsPlain([], accessors, scaling);
    FoldFloatsPlain(h, [], FoldInts([], accessors).value, scaling);
  }

  // ----- The block of a method -----

  lemma {:induction false} StmtsFlushed(ss: Stmts, n: Labels, k: seq<Instr>)
    requires LastReturns(ss)
    ensures StmtsCode(ss, n, 0, k) != []
    ensures k == [] ==> Last(StmtsCode(ss, n, 0, k)) == RTRN
    decreases ss
  {
    if ss.tail.Nil? {
      var e := ss.head.result;
      if e.Some? {
        P.ExprSplit(e.value, n, [RTRN], k);
        P.ExprEnds(e.value, n, [RTRN] + k);
      }
      if k == [] { assert [RTRN] + k == [RTRN]; }
    } else {
      var n1 := AfterStmt(ss.head, n);
      StmtsFlushed(ss.tail, n1, k);
      P.StmtEnds(ss.head, n, 0, StmtsCode(ss.tail, n1, 0, k));
    }
  }

  lemma SuffixLast(x: seq<Instr>, code: seq<Instr>)
    requires P.IsSuffix(x, code) && x != []
    ensures code != [] && Last(code) == Last(x)
  {
    assert code[|code| - |x|..][|x| - 1] == code[|code| - 1];
  }

  /** Every block the emitter completes ends in a return, or in the instance of a constructor. */
  lemma RoutineFlushed(r: Routine, n: Labels)
    ensures RoutineCode(r, n) != [] && EndsFlushed(RoutineCode(r, n))
  {
    var end := Epilogue(r);
    var body := StmtsCode(r.body, n, 0, end);
    PrologueEnds(r.params, body);
    P.StmtsEnd(r.body, n, 0, end);
    hide StmtsCode, Prologue;
    if end == [] {
      StmtsFlushed(r.body, n, end);
    } else {
      SuffixLast(end, body);
    }
    SuffixLast(body, RoutineCode(r, n));
  }

  /** Unless it constructs an instance a method's block ends in a return. */
  lemma RoutineReturns(r: Routine, n: Labels)
    requires !r.constructs
    ensures RoutineCode(r, n) != [] && Last(RoutineCode(r, n)) == RTRN
  {
    var end := Epilogue(r);
    var body := StmtsCode(r.body, n, 0, end);
    PrologueEnds(r.params, body);
    P.StmtsEnd(r.body, n, 0, end);
    hide StmtsCode, Prologue;
    if LastReturns(r.body) { StmtsFlushed(r.body, n, end); } else { SuffixLast(end, body); }
    SuffixLast(body, RoutineCode(r, n));
  }

  /** Emitted blocks are ready for every level. */
  lemma RoutineReady(h: Host, p: Program, r: Routine, n: Labels, base: nat, level: int)
    requires PlainProgram(p, Anything) && GoodRoutine(r, base) && Apart(n, AfterStmts(r.body, n))
    ensures BlockReady(h, p, level, RoutineCode(r, n))
  {
    var code := RoutineCode(r, n);
    RoutineDisciplined(r, n, base);
    FineUnique(code);
    RoutinePlain(r, n, base, Anything);
    RoutineFlushed(r, n);
    hide RoutineCode, Fine, BlockReady, EndsFlushed, UniqueLabels, NoBranchToNext;
    PlainReady(h, p, level, code);
  }

  /** Blocks of integers with their labels in order are ready for every level. */
  lemma PlainReady(h: Host, p: Program, level: int, code: seq<Instr>)
    requires PlainProgram(p, Anything) && Emits(code, Anything) && UniqueLabels(code) && NoBranchToNext(code) && EndsFlushed(code)
    ensures BlockReady(h, p, level, code)
  {
    hide Folded, ReduceStrength, CopiesCleanly;
    PlainSlots(code);
    var folded := Folded(h, p, code);
    if level >= 3 && folded.Some? {
      FoldedPlain(h, p, code, Anything);
      var reduced := ReduceStrength([], folded.value);
      ReduceStrengthPlain([], folded.value, Anything);
      ReducedFed(h, p, code);
      PlainCopies(POP_INT, reduced, PrologueLength(reduced));
    }
  }

  lemma PlainSlots(code: seq<Instr>)
    requires AllPlain(code, Anything)
    ensures SlotsInFrame(code)
  {
    forall i | i in code && (i.LOAD_INT_VAR? || i.STOR_INT_VAR? || i.COPY_INT_VAR?) && i.ctx == LOCL
      ensures 0 <= i.slot < LOCAL_WORDS
    {
      assert Plain(i, Anything);
    }
  }

  /** Methods without a division meet the condition of levels 2 and 3. */
  lemma WithoutDivision(h: Host, p: Program, r: Routine, n: Labels, base: nat, scaling: Scaling)
    requires PlainProgram(p, scaling) && GoodRoutine(r, base) && StmtsScale(r.body, scaling) && !scaling.Anything?
    requires Folded(h, p, RoutineCode(r, n)).Some?
    ensures ProductsOnly(Folded(h, p, RoutineCode(r, n)).value)
  {
    RoutinePlain(r, n, base, scaling);
    FoldedPlain(h, p, RoutineCode(r, n), scaling);
    NoQuotients(Folded(h, p, RoutineCode(r, n)).value, scaling);
  }

  /** Source to optimized bytecode: at every level the block the optimizer hands on returns, faults
      or goes on exactly as the source method does; inlined accessors may save one level of calls. */
  lemma OptimizedRoutineRuns(h: Host, p: Program, methods: map<MethodId, Option<Routine>>, id: MethodId, level: int, args: seq<int>,
                             rest: seq<int>, m: Machine, fuel: nat, depth: nat)
    requires OneWord(h) && Implements(p, methods) && WellLinked(p) && PlainProgram(p, Anything)
    requires id in p && methods[id].Some? && Takes(methods[id].value, args) && |m.locals| == LOCAL_WORDS && m.stack == Reversed(args) + rest
    requires OptimizeBlock(h, p, level, p[id].code).Some?
    requires level >= 2 ==> var folded := Folded(h, p, p[id].code).value;
      MeetsGood(Activation(h, p, folded, depth), folded, m, fuel)
    ensures var env, r := Env(m.locals, m.inst, m.heap, m.ext), methods[id].value;
      var o := RunBody(h, p, OptimizeBlock(h, p, level, p[id].code).value, m, fuel, depth);
      && (var result := Invoke(World(h, methods, depth), r, args, env, fuel); !result.Out? ==> SameResult(result, o, rest))
      && (!o.Timeout? ==> SameResult(Invoke(World(h, methods, depth + 1), r, args, env, fuel), o, rest))
  {
    var r: Routine := methods[id].value;
    var n: Labels, base: nat :| EmittedFrom(p[id].code, r, n, base);
    RoutineReady(h, p, r, n, base, level);
    hide Invoke, OptimizeBlock, BlockReady, MeetsGood, Folded, RoutineCode;
    OptimizeBlockRuns(h, p, level, p[id].code, m, fuel, depth);
    ProgramRuns(h, p, World(h, methods, depth), id, args, rest, m, fuel);
    ProgramRuns(h, p, World(h, methods, depth + 1), id, args, rest, m, fuel);
  }

  lemma {:induction false} ReplaceStoresPlain(ws: seq<Instr>, rest: seq<Instr>, scaling: Scaling)
    requires AllPlain(ws, scaling) && AllPlain(rest, scaling)
    ensures AllPlain(ReplaceStores(ws, rest), scaling)
    decreases |rest|
  {
    if rest != [] {
      Parts(rest, 1, scaling);
      Parts(rest, 0, scaling);
      ReplaceStoresPlain([], rest[1..], scaling);
      if ws != [] {
        Parts(ws, |ws| - 1, scaling);
        ReplaceStoresPlain(Front(ws), rest[1..], scaling);
      }
      Together(ws, [rest[0]], scaling);
      ReplaceStoresPlain(ws + [rest[0]], rest[1..], scaling);
    }
  }

  /** Optimized blocks of integers are blocks of integers. */
  lemma OptimizedPlain(h: Host, p: Program, level: int, code: seq<Instr>, scaling: Scaling)
    requires PlainProgram(p, scaling) && AllPlain(code, scaling) && OptimizeBlock(h, p, level, code).Some?
    ensures AllPlain(OptimizeBlock(h, p, level, code).value, scaling)
  {
    CleanedPlain(code, scaling);
    if level > 0 {
      FoldedPlain(h, p, code, scaling);
      var folded := Folded(h, p, code).value;
      ReduceStrengthPlain([], folded, scaling);
      hide Folded, Cleaned, ReduceStrength, AllPlain;
      var reduced := ReduceStrength([], folded);
      Parts(reduced, PrologueLength(reduced), scaling);
      ReplaceStoresPlain([], reduced[PrologueLength(reduced)..], scaling);
      Together(reduced[..PrologueLength(reduced)], ReplaceStores([], reduced[PrologueLength(reduced)..]), scaling);
    }
  }
}
