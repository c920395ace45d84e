// The instructions the emitter appends for each construct, in front of the instructions k that
// follow it, and the labels it has used by then.

module Emission {
  import opened Wrappers
  import opened Words
  import opened Bytecode
  import opened Source

  /** The last conditional and unconditional label handed out. */
  datatype Labels = Labels(conditional: int, unconditional: int) {
    function NextConditional(): Labels { this.(conditional := conditional + 1) }

    function NextUnconditional(): Labels { this.(unconditional := unconditional + 1) }
  }

  /** A method starts on label -1 and on 2^30 - 1: conditional labels stay below 2^30. */
  const UNCONDITIONAL_BASE := 0x4000_0000

  function AfterExpr(e: Expr, n: Labels): Labels {
    match e
    case IntLit(_) => n
    case Variable(_) => n
    case Field(_) => n
    case Effect(_) => n
    case Calculated(_, left, right) => AfterExpr(left, AfterExpr(right, n))
    case Logic(_, right, left) => AfterExpr(left, AfterExpr(right, n).NextConditional().NextUnconditional())
    case Cond(test, yes, no) =>
      AfterExpr(no, AfterExpr(yes, AfterExpr(test, n.NextUnconditional()).NextConditional()))
  }

  function AfterArgs(args: seq<Expr>, n: Labels): Labels {
    if args == [] then n else AfterArgs(args[1..], AfterExpr(args[0], n))
  }

  const SCRATCH := STOR_INT_VAR(0, LOCL)
  const RESULT := LOAD_INT_VAR(0, LOCL)

  function ExprCode(e: Expr, n: Labels, k: seq<Instr>): seq<Instr> {
    match e
    case IntLit(v) => [LOAD_INT_LIT(v)] + k
    case Variable(x) => [LOAD_INT_VAR(x, LOCL)] + k
    case Field(x) => [LOAD_INST_MEM, LOAD_INT_VAR(x, INST)] + k
    case Effect(number) => [EffectCode(number)] + k
    case Calculated(op, left, right) => ExprCode(right, n, ExprCode(left, AfterExpr(right, n), [INT_OP(op)] + k))
    case Logic(isAnd, right, left) =>
      var n1 := AfterExpr(right, n).NextConditional().NextUnconditional();
      ExprCode(right, n,
               [JMP(n1.conditional, Bool(isAnd)), LOAD_INT_LIT(Bool(!isAnd)), SCRATCH, JMP(n1.unconditional, -1),
                LBL(n1.conditional)]
               + ExprCode(left, n1, [SCRATCH, LBL(n1.unconditional), RESULT] + k))
    case Cond(test, yes, no) =>
      var n1 := n.NextUnconditional();
      var n2 := AfterExpr(test, n1).NextConditional();
      ExprCode(test, n1,
               [JMP(n2.conditional, 0)]
               + ExprCode(yes, n2,
                          [SCRATCH, JMP(n1.unconditional, -1), LBL(n2.conditional)]
                          + ExprCode(no, AfterExpr(yes, n2), [SCRATCH, LBL(n1.unconditional), RESULT] + k)))
  }

  function ArgsCode(args: seq<Expr>, n: Labels, k: seq<Instr>): seq<Instr> {
    if args == [] then k else ExprCode(args[0], n, ArgsCode(args[1..], AfterExpr(args[0], n), k))
  }

  // ----- The search tree of a select -----

  datatype Node =
    | Equal(id: int, value: int)
    | Less(id: int, value: int, left: Node, right: Node)
    | LessOrEqual(id: int, value: int, value2: int, left: Node, right: Node)

  /** Divides values[start..end], both ends included; last is the last conditional label used. */
  function Divide(values: seq<int>, start: nat, end: nat, last: int): (r: (Node, int))
    requires start < end < |values|
    decreases end - start
  {
    var size := end - start + 1;
    if size == 2 then
      (Less(last + 1, values[start + 1], Equal(last + 2, values[start]), Equal(last + 3, values[start + 1])), last + 3)
    else if size == 3 then
      (LessOrEqual(last + 1, values[start + 1], values[start + 2],
                   Equal(last + 2, values[start]), Equal(last + 3, values[start + 2])), last + 3)
    else
      var middle := size / 2 + start;
      var left := Divide(values, start, middle - 1, last);
      if size % 2 == 0 then
        var right := Divide(values, middle, end, left.1);
        (Less(right.1 + 1, values[middle], left.0, right.0), right.1 + 1)
      else
        var right := Divide(values, middle + 1, end, left.1);
        (LessOrEqual(right.1 + 1, values[middle], values[middle], left.0, right.0), right.1 + 1)
  }

  /** values[i] is labelled first + i. */
  function LabelMap(values: seq<int>, first: int): map<int, int> {
    if values == [] then map[] else
    var last := |values| - 1;
    LabelMap(values[..last], first)[values[last] := first + last]
  }

  function LabelOf(labels: map<int, int>, value: int): int {
    if value in labels then labels[value] else 0
  }

  function AfterTree(e: Expr, node: Node, n: Labels): Labels {
    match node
    case Equal(_, _) => AfterExpr(e, n)
    case Less(_, _, left, right) => AfterTree(e, right, AfterTree(e, left, AfterExpr(e, n)))
    case LessOrEqual(_, _, _, left, right) => AfterTree(e, right, AfterTree(e, left, AfterExpr(e, AfterExpr(e, n))))
  }

  function TreeCode(e: Expr, node: Node, labels: map<int, int>, default: int, n: Labels, k: seq<Instr>): seq<Instr> {
    var n1, n2 := AfterExpr(e, n), AfterExpr(e, AfterExpr(e, n));
    [LBL(node.id), LOAD_INT_LIT(node.value)] +
    match node
    case Equal(_, value) =>
      ExprCode(e, n, [INT_OP(Eql), JMP(LabelOf(labels, value), 1), JMP(default, -1)] + k)
    case Less(_, value, left, right) =>
      ExprCode(e, n, Branch(left, right)
                     + TreeCode(e, left, labels, default, n1,
                                TreeCode(e, right, labels, default, AfterTree(e, left, n1), k)))
    case LessOrEqual(_, value, value2, left, right) =>
      ExprCode(e, n, [INT_OP(Eql), JMP(LabelOf(labels, value), 1), LOAD_INT_LIT(value2)]
                     + ExprCode(e, n1, Branch(left, right)
                                       + TreeCode(e, left, labels, default, n2,
                                                  TreeCode(e, right, labels, default, AfterTree(e, left, n2), k))))
  }

  function Branch(left: Node, right: Node): seq<Instr> {
    [INT_OP(Les), JMP(left.id, 1), JMP(right.id, -1)]
  }

  /** How a select with two or more labels numbers its parts. */
  datatype SelectPlan = SelectPlan(labels: map<int, int>, root: Node, end: int, default: int, treeStart: Labels, after: Labels)

  function Plan(s: Stmt, n: Labels): SelectPlan
    requires s.Select? && |Values(s.cases)| >= 2
  {
    var values := Values(s.cases);
    var labels := LabelMap(values, n.conditional + 1);
    var last := n.conditional + |values| + if s.other.Some? then 1 else 0;
    var (root, last') := Divide(values, 0, |values| - 1, last);
    var treeStart := Labels(last', n.unconditional + 1);
    SelectPlan(labels, root, treeStart.unconditional, if s.other.Some? then last else treeStart.unconditional,
               treeStart, AfterTree(s.selector, root, treeStart))
  }

  // ----- Statements -----

  function AfterStmt(s: Stmt, n: Labels): Labels {
    match s
    case Assign(_, e) => AfterExpr(e, n)
    case OpAssign(_, _, e) => AfterExpr(e, n)
    case SetField(_, e) => AfterExpr(e, n)
    case OpSetField(_, _, e) => AfterExpr(e, n)
    case If(chain) => AfterChain(chain, n.NextUnconditional().NextConditional())
    case While(test, body) => AfterStmts(body, AfterExpr(test, n.NextUnconditional()).NextConditional())
    case DoWhile(body, test) => AfterExpr(test, AfterStmts(body, n.NextConditional().NextUnconditional()))
    case For(pre, test, update, body) =>
      AfterStmt(update, AfterStmts(body, AfterExpr(test, AfterStmt(pre, n).NextUnconditional()).NextConditional()))
    case Select(selector, cases, other) =>
      if |Values(cases)| >= 2 then
        var n1 := AfterCases(cases, Plan(s, n).after);
        if other.Some? then AfterStmts(other.value, n1) else n1
      else
        var n1 := AfterExpr(selector, SingleStart(other, n));
        var n2 := AfterCases(cases, n1);
        if other.Some? then AfterStmts(other.value, n2) else n2
    case Call(_, args, _) => AfterArgs(args, n)
    case Empty => n
    case Break => n
    case Return(e) => if e.Some? then AfterExpr(e.value, n) else n
  }

  function SingleStart(other: Option<Stmts>, n: Labels): Labels {
    if other.Some? then n.NextUnconditional().NextConditional() else n.NextUnconditional()
  }

  function AfterStmts(ss: Stmts, n: Labels): Labels {
    match ss
    case Nil => n
    case Cons(s, rest) => AfterStmts(rest, AfterStmt(s, n))
  }

  function AfterChain(chain: Chain, n: Labels): Labels {
    AfterElse(chain.orElse, AfterStmts(chain.body, AfterExpr(chain.test, n).NextConditional()))
  }

  function AfterElse(orElse: Else, n: Labels): Labels {
    match orElse
    case NoElse => n
    case ElseIf(next) => AfterChain(next, n)
    case Otherwise(rest) => AfterStmts(rest, n)
  }

  function AfterCases(cases: Cases, n: Labels): Labels {
    match cases
    case NoCase => n
    case Case(_, body, rest) => AfterCases(rest, AfterStmts(body, n))
  }

  /** What stores the value on the stack in field x of the instance. */
  function FieldStore(x: int): seq<Instr> {
    [LOAD_INST_MEM, STOR_INT_VAR(x, INST)]
  }

  /** What changes field x by the value on the stack. */
  function FieldChange(op: IntOp, x: int): seq<Instr> {
    [LOAD_INST_MEM, LOAD_INT_VAR(x, INST), INT_OP(op), LOAD_INST_MEM, STOR_INT_VAR(x, INST)]
  }

  /** The call behind its arguments, and what is done with its value. */
  function CallTail(id: MethodId, dest: Destination): seq<Instr> {
    [LOAD_INST_MEM, MTHD_CALL(id)] +
    match dest
    case Nowhere => []
    case Dropped => [POP_INT]
    case Into(x) => [STOR_INT_VAR(x, LOCL)]
  }

  /** brk is the label at the top of the break stack. */
  function StmtCode(s: Stmt, n: Labels, brk: int, k: seq<Instr>): seq<Instr> {
    match s
    case Assign(x, e) => ExprCode(e, n, [STOR_INT_VAR(x, LOCL)] + k)
    case OpAssign(op, x, e) => ExprCode(e, n, [LOAD_INT_VAR(x, LOCL), INT_OP(op), STOR_INT_VAR(x, LOCL)] + k)
    case SetField(x, e) => ExprCode(e, n, FieldStore(x) + k)
    case OpSetField(op, x, e) => ExprCode(e, n, FieldChange(op, x) + k)
    case If(chain) =>
      var n1 := n.NextUnconditional().NextConditional();
      ChainCode(chain, n1.conditional, n1.unconditional, n1, brk, [LBL(n1.unconditional)] + k)
    case While(test, body) =>
      var n1 := n.NextUnconditional();
      var n2 := AfterExpr(test, n1).NextConditional();
      [LBL(n1.unconditional)] + ExprCode(test, n1,
        [JMP(n2.conditional, 0)]
        + StmtsCode(body, n2, n2.conditional, [JMP(n1.unconditional, -1), LBL(n2.conditional)] + k))
    case DoWhile(body, test) =>
      var n1 := n.NextConditional().NextUnconditional();
      [LBL(n1.conditional)] + StmtsCode(body, n1, n1.unconditional,
        ExprCode(test, AfterStmts(body, n1), [JMP(n1.conditional, 1), LBL(n1.unconditional)] + k))
    case For(pre, test, update, body) =>
      var n1 := AfterStmt(pre, n).NextUnconditional();
      var n2 := AfterExpr(test, n1).NextConditional();
      StmtCode(pre, n, brk,
        [LBL(n1.unconditional)] + ExprCode(test, n1,
          [JMP(n2.conditional, 0)]
          + StmtsCode(body, n2, n2.conditional,
              StmtCode(update, AfterStmts(body, n2), n2.conditional, [JMP(n1.unconditional, -1), LBL(n2.conditional)] + k))))
    case Select(selector, cases, other) =>
      if |Values(cases)| >= 2 then
        var p := Plan(s, n);
        TreeCode(selector, p.root, p.labels, p.default, p.treeStart,
          CasesCode(cases, p.labels, p.end, p.after, brk,
            (if other.Some?
             then [LBL(p.default)] + StmtsCode(other.value, AfterCases(cases, p.after), brk, [JMP(p.end, -1), LBL(p.end)] + k)
             else [LBL(p.end)] + k)))
      else
        var n1 := SingleStart(other, n);
        var n2 := AfterExpr(selector, n1);
        [LOAD_INT_LIT(if cases.Case? then cases.value else 0)] + ExprCode(selector, n1,
          [INT_OP(Eql), JMP(if other.Some? then n1.conditional else n1.unconditional, 0)]
          + (if cases.Case? then StmtsCode(cases.body, n2, brk, SingleTail(other, n1, AfterCases(cases, n2), brk, k))
             else SingleTail(other, n1, n2, brk, k)))
    case Call(id, args, dest) => ArgsCode(args, n, CallTail(id, dest) + k)
    case Empty => k
    case Break => [JMP(brk, -1)] + k
    case Return(e) => if e.Some? then ExprCode(e.value, n, [RTRN] + k) else [RTRN] + k
  }

  function SingleTail(other: Option<Stmts>, n1: Labels, n: Labels, brk: int, k: seq<Instr>): seq<Instr> {
    [JMP(n1.unconditional, -1)]
    + if other.Some? then [LBL(n1.conditional)] + StmtsCode(other.value, n, brk, [LBL(n1.unconditional)] + k)
      else [LBL(n1.unconditional)] + k
  }

  function StmtsCode(ss: Stmts, n: Labels, brk: int, k: seq<Instr>): seq<Instr> {
    match ss
    case Nil => k
    case Cons(s, rest) => StmtCode(s, n, brk, StmtsCode(rest, AfterStmt(s, n), brk, k))
  }

  /** Dead code that keeps an empty body's jump away from the label it goes to. */
  function Guard(chain: Chain): seq<Instr> {
    if chain.body.Nil? && !chain.orElse.ElseIf? then [POP_INT] else []
  }

  function ChainCode(chain: Chain, next: int, end: int, n: Labels, brk: int, k: seq<Instr>): seq<Instr> {
    var n1 := AfterExpr(chain.test, n).NextConditional();
    [LBL(next)] + ExprCode(chain.test, n,
      [JMP(if chain.orElse.NoElse? then end else n1.conditional, 0)]
      + StmtsCode(chain.body, n1, brk, [JMP(end, -1)] + Guard(chain) + ElseCode(chain.orElse, n1.conditional, end,
                                                                                AfterStmts(chain.body, n1), brk, k)))
  }

  function ElseCode(orElse: Else, conditional: int, end: int, n: Labels, brk: int, k: seq<Instr>): seq<Instr> {
    match orElse
    case NoElse => k
    case ElseIf(next) => ChainCode(next, conditional, end, n, brk, k)
    case Otherwise(rest) => [LBL(conditional)] + StmtsCode(rest, n, brk, k)
  }

  function CasesCode(cases: Cases, labels: map<int, int>, end: int, n: Labels, brk: int, k: seq<Instr>): seq<Instr> {
    match cases
    case NoCase => k
    case Case(value, body, rest) =>
      [LBL(LabelOf(labels, value))]
      + StmtsCode(body, n, brk, [JMP(end, -1)] + CasesCode(rest, labels, end, AfterStmts(body, n), brk, k))
  }

  // ----- Methods -----

  /** Parameters are stored from the last to the first. */
  function Prologue(params: seq<int>, k: seq<Instr>): seq<Instr> {
    if params == [] then k
    else [STOR_INT_VAR(params[|params| - 1], LOCL)] + Prologue(params[..|params| - 1], k)
  }

  function Epilogue(r: Routine): seq<Instr> {
    (if r.constructs then [LOAD_INST_MEM] else []) + if LastReturns(r.body) then [] else [RTRN]
  }

  function RoutineCode(r: Routine, n: Labels): seq<Instr> {
    Prologue(r.params, StmtsCode(r.body, n, 0, Epilogue(r)))
  }

  /** The counters run on from method to method. */
  function LabelsAt(routines: seq<Routine>, n: Labels, i: nat): Labels
    requires i <= |routines|
  {
    if i == 0 then n else AfterStmts(routines[i - 1].body, LabelsAt(routines, n, i - 1))
  }
}
