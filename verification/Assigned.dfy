// Definite assignment: a method whose statements assign every variable before they read it is emitted as code
// that writes every local before it reads it.

module Assigned {
  import opened Wrappers
  import opened Words
  import opened Bytecode
  import opened Source
  import opened Emission
  import opened Discipline
  import opened StmtDiscipline
  import I = Inlining
  import S = Shape
  import F = InlineShape

  // ----- On the source -----

  function SlotsBelow(n: nat): (s: set<int>)
    ensures forall x :: x in s <==> 0 <= x < n
  {
    if n == 0 then {} else SlotsBelow(n - 1) + {n - 1}
  }

  /** Every slot; what is known where no run comes by. */
  function Everything(): set<int> {
    SlotsBelow(LOCAL_WORDS)
  }

  predicate ReadsKnown(e: Expr, known: set<int>) {
    match e
    case IntLit(_) => true
    case Variable(x) => x in known
    case Field(_) => true
    case Effect(_) => true
    case Calculated(_, l, r) => ReadsKnown(l, known) && ReadsKnown(r, known)
    case Logic(_, r, l) => ReadsKnown(l, known) && ReadsKnown(r, known)
    case Cond(t, y, n) => ReadsKnown(t, known) && ReadsKnown(y, known) && ReadsKnown(n, known)
  }

  /** The variables assigned when s has ended, if known were when it began. */
  function Known(s: Stmt, known: set<int>): set<int> {
    match s
    case Assign(x, _) => known + {x}
    case OpAssign(_, x, _) => known + {x}
    case SetField(_, _) => known
    case OpSetField(_, _, _) => known
    case If(chain) => KnownChain(chain, known)
    case While(_, _) => known
    case DoWhile(_, _) => known
    case For(pre, _, _, _) => Known(pre, known)
    case Select(_, cases, other) =>
      KnownCases(cases, known) * (if other.Some? then KnownAll(other.value, known) else known)
    case Call(_, _, dest) => if dest.Into? then known + {dest.slot} else known
    case Empty => known
    case Break => Everything()
    case Return(_) => Everything()
  }

  function KnownAll(ss: Stmts, known: set<int>): set<int> {
    if ss.Nil? then known else KnownAll(ss.tail, Known(ss.head, known))
  }

  function KnownChain(chain: Chain, known: set<int>): set<int> {
    KnownAll(chain.body, known) * KnownElse(chain.orElse, known)
  }

  function KnownElse(orElse: Else, known: set<int>): set<int> {
    match orElse
    case NoElse => known
    case ElseIf(next) => KnownChain(next, known)
    case Otherwise(rest) => KnownAll(rest, known)
  }

  function KnownCases(cases: Cases, known: set<int>): set<int> {
    if cases.NoCase? then Everything() else KnownAll(cases.body, known) * KnownCases(cases.rest, known)
  }

  /** Every variable s reads is assigned before, on every way. */
  predicate Sure(s: Stmt, known: set<int>) {
    match s
    case Assign(_, e) => ReadsKnown(e, known)
    case OpAssign(_, x, e) => x in known && ReadsKnown(e, known)
    case SetField(_, e) => ReadsKnown(e, known)
    case OpSetField(_, _, e) => ReadsKnown(e, known)
    case If(chain) => SureChain(chain, known)
    case While(t, body) => ReadsKnown(t, known) && SureAll(body, known)
    case DoWhile(body, t) => SureAll(body, known) && ReadsKnown(t, KnownAll(body, known))
    case For(pre, t, update, body) =>
      var begun := Known(pre, known);
      Sure(pre, known) && ReadsKnown(t, begun) && SureAll(body, begun) && Sure(update, KnownAll(body, begun))
    case Select(e, cases, other) =>
      ReadsKnown(e, known) && SureCases(cases, known) && (other.Some? ==> SureAll(other.value, known))
    case Call(_, args, _) => forall e <- args :: ReadsKnown(e, known)
    case Empty => true
    case Break => true
    case Return(e) => e.Some? ==> ReadsKnown(e.value, known)
  }

  predicate SureAll(ss: Stmts, known: set<int>) {
    ss.Cons? ==> Sure(ss.head, known) && SureAll(ss.tail, Known(ss.head, known))
  }

  predicate SureChain(chain: Chain, known: set<int>) {
    && ReadsKnown(chain.test, known) && SureAll(chain.body, known)
    && match chain.orElse
       case NoElse => true
       case ElseIf(next) => SureChain(next, known)
       case Otherwise(rest) => SureAll(rest, known)
  }

  predicate SureElse(orElse: Else, known: set<int>) {
    match orElse
    case NoElse => true
    case ElseIf(next) => SureChain(next, known)
    case Otherwise(rest) => SureAll(rest, known)
  }

  predicate SureCases(cases: Cases, known: set<int>) {
    cases.Case? ==> SureAll(cases.body, known) && SureCases(cases.rest, known)
  }

  /** Parameters are assigned by the call, everything else has to be. */
  predicate SureRoutine(r: Routine) {
    SureAll(r.body, set x | x in r.params)
  }

  // ----- What is known only grows -----

  lemma {:induction false} KnownGrows(s: Stmt, known: set<int>, base: nat, inLoop: bool)
    requires GoodStmt(s, base, inLoop) && known <= Everything()
    ensures known <= Known(s, known) <= Everything()
    decreases s
  {
    match s
    case If(chain) => KnownChainGrows(chain, known, base, inLoop);
    case For(pre, _, _, _) => KnownGrows(pre, known, base, inLoop);
    case Select(_, cases, other) =>
      KnownCasesGrow(cases, known, base, inLoop);
      if other.Some? { KnownAllGrows(other.value, known, base, inLoop); }
    case Assign(_, _) =>
    case OpAssign(_, _, _) =>
    case SetField(_, _) =>
    case OpSetField(_, _, _) =>
    case While(_, _) =>
    case DoWhile(_, _) =>
    case Call(_, _, _) =>
    case Empty =>
    case Break =>
    case Return(_) =>
  }

  lemma {:induction false} KnownAllGrows(ss: Stmts, known: set<int>, base: nat, inLoop: bool)
    requires GoodStmts(ss, base, inLoop) && known <= Everything()
    ensures known <= KnownAll(ss, known) <= Everything()
    decreases ss
  {
    hide Everything;
    if ss.Cons? {
      KnownGrows(ss.head, known, base, inLoop);
      KnownAllGrows(ss.tail, Known(ss.head, known), base, inLoop);
    }
  }

  lemma {:induction false} KnownChainGrows(chain: Chain, known: set<int>, base: nat, inLoop: bool)
    requires GoodChain(chain, base, inLoop) && known <= Everything()
    ensures known <= KnownChain(chain, known) <= Everything()
    decreases chain
  {
    hide Everything;
    KnownAllGrows(chain.body, known, base, inLoop);
    match chain.orElse
    case NoElse =>
    case ElseIf(next) => KnownChainGrows(next, known, base, inLoop);
    case Otherwise(rest) => KnownAllGrows(rest, known, base, inLoop);
  }

  lemma {:induction false} KnownCasesGrow(cases: Cases, known: set<int>, base: nat, inLoop: bool)
    requires GoodCases(cases, base, inLoop) && known <= Everything()
    ensures known <= KnownCases(cases, known) <= Everything()
    decreases cases
  {
    hide Everything;
    if cases.Case? {
      KnownAllGrows(cases.body, known, base, inLoop);
      KnownCasesGrow(cases.rest, known, base, inLoop);
    }
  }

  // ----- Certificates grow with the labels handed out -----

  type Certificate = map<int, set<int>>

  /** No label between n and n' is certified yet. */
  ghost predicate Free(at: Certificate, n: Labels, n': Labels) {
    forall l <- at :: !Between(l, n, n')
  }

  /** at' certifies more labels, all of them between n and n'. */
  ghost predicate Grew(at: Certificate, at': Certificate, n: Labels, n': Labels) {
    F.Extends(at, at') && forall l <- at' :: l in at || Between(l, n, n')
  }

  /** From n to n' by way of m and m'. */
  predicate Inside(n: Labels, m: Labels, m': Labels, n': Labels) {
    Apart(n, n') && Ordered(n, m) && Ordered(m, m') && Ordered(m', n')
  }

  lemma FreeInside(at: Certificate, n: Labels, m: Labels, m': Labels, n': Labels)
    requires Inside(n, m, m', n') && Free(at, n, n')
    ensures Apart(m, m') && Free(at, m, m')
  {
  }

  lemma GrewInside(at: Certificate, at': Certificate, n: Labels, m: Labels, m': Labels, n': Labels)
    requires Inside(n, m, m', n') && Grew(at, at', m, m')
    ensures Grew(at, at', n, n')
  {
  }

  lemma GrewAgain(at: Certificate, at1: Certificate, at2: Certificate, n: Labels, n': Labels)
    requires Grew(at, at1, n, n') && Grew(at1, at2, n, n')
    ensures Grew(at, at2, n, n')
  {
  }

  /** What is certified between m and m' leaves the labels before m free. */
  lemma FreeBefore(at: Certificate, at': Certificate, n: Labels, m: Labels, m': Labels, n': Labels)
    requires Inside(n, m, m', n') && Free(at, n, n') && Grew(at, at', m, m')
    ensures Apart(n, m) && Free(at', n, m)
  {
    forall l | l in at' ensures !Between(l, n, m) {
      if l !in at { assert Between(l, m, m'); }
    }
  }

  lemma Unspoken(code: seq<Instr>, at: Certificate, at': Certificate, known: set<int>, more: set<int>)
    requires I.WrittenFirst(code, at, Some(known)) && F.Extends(at, at') && known <= more
    ensures I.WrittenFirst(code, at', Some(more)) && I.WrittenFirst(code, at', None)
  {
    F.Extended(code, at, at', Some(known));
    F.Stronger(code, at', Some(known), Some(more));
    F.Stronger(code, at', Some(known), None);
  }

  // ----- Expressions -----

  /** An instruction that only works on the stack. */
  lemma StackOnly(i: Instr, k: seq<Instr>, at: Certificate, known: set<int>)
    requires S.Named(i) == {} && !i.LBL? && !i.JMP? && !i.RTRN? && I.WrittenFirst(k, at, Some(known))
    ensures I.WrittenFirst([i] + k, at, Some(known))
  {
    S.WrittenStep(i, k, at, Some(known));
    S.WithinNamed(i);
    assert known + I.Writes(i) == known;
  }

  /** The word of one way is kept in the scratch slot where both ways meet. */
  lemma MeetWritten(u: int, k: seq<Instr>, at: Certificate, known: set<int>)
    requires I.WrittenFirst(k, at, Some(known)) && u in at && at[u] == known + {0}
    ensures I.WrittenFirst([SCRATCH, LBL(u), RESULT] + k, at, Some(known))
  {
    var k1 := [RESULT] + k;
    var k2 := [LBL(u)] + k1;
    assert [SCRATCH, LBL(u), RESULT] + k == [SCRATCH] + k2;
    F.Stronger(k, at, Some(known), Some(known + {0}));
    S.WrittenStep(RESULT, k, at, Some(known + {0}));
    assert known + {0} + {} == known + {0};
    S.WrittenStep(LBL(u), k1, at, Some(known + {0}));
    S.WrittenStep(SCRATCH, k2, at, Some(known));
  }

  lemma JumpWritten(l: int, cond: int, k: seq<Instr>, at: Certificate, known: set<int>)
    requires l in at && at[l] <= known && I.WrittenFirst(k, at, if cond < 0 then None else Some(known))
    ensures I.WrittenFirst([JMP(l, cond)] + k, at, Some(known))
  {
    S.WrittenStep(JMP(l, cond), k, at, Some(known));
  }

  lemma LabelWritten(l: int, k: seq<Instr>, at: Certificate, known: I.Written)
    requires l in at && I.Covers(known, at[l]) && I.WrittenFirst(k, at, Some(at[l]))
    ensures I.WrittenFirst([LBL(l)] + k, at, known)
  {
    S.WrittenStep(LBL(l), k, at, known);
  }

  lemma StoreWritten(x: int, k: seq<Instr>, at: Certificate, known: set<int>)
    requires I.WrittenFirst(k, at, Some(known + {x}))
    ensures I.WrittenFirst([STOR_INT_VAR(x, LOCL)] + k, at, Some(known))
  {
    S.WrittenStep(STOR_INT_VAR(x, LOCL), k, at, Some(known));
  }

  lemma {:induction false} ExprWritten(e: Expr, n: Labels, k: seq<Instr>, at: Certificate, known: set<int>) returns (at': Certificate)
    requires Apart(n, AfterExpr(e, n)) && Free(at, n, AfterExpr(e, n)) && ReadsKnown(e, known) && I.WrittenFirst(k, at, Some(known))
    ensures Grew(at, at', n, AfterExpr(e, n)) && I.WrittenFirst(ExprCode(e, n, k), at', Some(known))
    decreases e, 1
  {
    hide I.WrittenFirst, Free, Grew, Apart;
    at' := at;
    assert Grew(at, at, n, AfterExpr(e, n)) by { GrewNot(at, n, AfterExpr(e, n)); }
    match e
    case IntLit(v) => StackOnly(LOAD_INT_LIT(v), k, at, known);
    case Variable(x) =>
      S.WrittenStep(LOAD_INT_VAR(x, LOCL), k, at, Some(known));
      assert known + {} == known;
    case Field(x) =>
      StackOnly(LOAD_INT_VAR(x, INST), k, at, known);
      StackOnly(LOAD_INST_MEM, [LOAD_INT_VAR(x, INST)] + k, at, known);
      assert [LOAD_INST_MEM, LOAD_INT_VAR(x, INST)] + k == [LOAD_INST_MEM] + ([LOAD_INT_VAR(x, INST)] + k);
    case Effect(number) => StackOnly(EffectCode(number), k, at, known);
    case Calculated(op, left, right) => at' := CalculatedWritten(e, n, k, at, known);
    case Logic(_, _, _) => at' := LogicWritten(e, n, k, at, known);
    case Cond(_, _, _) => at' := CondWritten(e, n, k, at, known);
  }

  lemma GrewNot(at: Certificate, n: Labels, n': Labels)
    ensures Grew(at, at, n, n')
  {
  }

  lemma {:induction false} CalculatedWritten(e: Expr, n: Labels, k: seq<Instr>, at: Certificate, known: set<int>)
    returns (at': Certificate)
    requires e.Calculated?
    requires Apart(n, AfterExpr(e, n)) && Free(at, n, AfterExpr(e, n)) && ReadsKnown(e, known) && I.WrittenFirst(k, at, Some(known))
    ensures Grew(at, at', n, AfterExpr(e, n)) && I.WrittenFirst(ExprCode(e, n, k), at', Some(known))
    decreases e, 0
  {
    hide I.WrittenFirst, Free, Grew, Apart;
    var Calculated(op, left, right) := e;
    var n1, n' := AfterExpr(right, n), AfterExpr(e, n);
    ExprOrdered(right, n);
    ExprOrdered(left, n1);
    StackOnly(INT_OP(op), k, at, known);
    FreeInside(at, n, n1, n', n');
    var at1 := ExprWritten(left, n1, [INT_OP(op)] + k, at, known);
    FreeBefore(at, at1, n, n1, n', n');
    at' := ExprWritten(right, n, ExprCode(left, n1, [INT_OP(op)] + k), at1, known);
    GrewInside(at, at1, n, n1, n', n');
    GrewInside(at1, at', n, n, n1, n');
    GrewAgain(at, at1, at', n, n');
  }

  lemma FreeBehind(at: Certificate, at': Certificate, n: Labels, m: Labels, m': Labels, n': Labels)
    requires Inside(n, m, m', n') && Free(at, n, n') && Grew(at, at', m, m')
    ensures Apart(m', n') && Free(at', m', n')
  {
    forall l | l in at' ensures !Between(l, m', n') {
      if l !in at { assert Between(l, m, m'); }
    }
  }

  /** Two labels handed out one after the other. */
  lemma TwoLabels(at: Certificate, m: Labels, c: int, x: set<int>, u: int, y: set<int>, m': Labels) returns (at': Certificate)
    requires Apart(m, m') && Free(at, m, m') && Between(c, m, m') && Between(u, m, m') && c != u
    ensures Grew(at, at', m, m') && c in at' && at'[c] == x && u in at' && at'[u] == y
  {
    at' := at[c := x][u := y];
  }

  /** First the labels between m and m', then those behind them. */
  lemma GrewOn(at: Certificate, at1: Certificate, at2: Certificate, n: Labels, m: Labels, m': Labels, n': Labels)
    requires Inside(n, m, m', n') && Grew(at, at1, m, m') && Grew(at1, at2, m', n')
    ensures Grew(at, at2, m, n')
  {
  }

  /** First the labels behind m, then those before it. */
  lemma GrewBack(at: Certificate, at1: Certificate, at2: Certificate, n: Labels, m: Labels, n': Labels)
    requires Inside(n, m, m, n') && Grew(at, at1, m, n') && Grew(at1, at2, n, m)
    ensures Grew(at, at2, n, n')
  {
  }

  lemma ApartLabels(n: Labels, m: Labels, n': Labels)
    requires Apart(n, n') && Ordered(n, m) && Ordered(m, n') && m.conditional < n'.conditional && m.unconditional < n'.unconditional
    ensures m.conditional + 1 != m.unconditional + 1
  {
  }

  lemma LogicMiddleWritten(isAnd: bool, n1: Labels, k: seq<Instr>, at: Certificate, known: set<int>)
    requires n1.conditional in at && at[n1.conditional] == known && n1.unconditional in at && at[n1.unconditional] == known + {0}
    requires I.WrittenFirst(k, at, Some(known))
    ensures I.WrittenFirst(LogicMiddle(isAnd, n1) + k, at, Some(known))
  {
    var c, u := n1.conditional, n1.unconditional;
    var k1 := [LBL(c)] + k;
    var k2 := [JMP(u, -1)] + k1;
    var k3 := [SCRATCH] + k2;
    var k4 := [LOAD_INT_LIT(Bool(!isAnd))] + k3;
    assert LogicMiddle(isAnd, n1) + k == [JMP(c, Bool(isAnd))] + k4;
    hide I.WrittenFirst, LogicMiddle;
    LabelWritten(c, k, at, None);
    JumpWritten(u, -1, k1, at, known + {0});
    StoreWritten(0, k2, at, known);
    StackOnly(LOAD_INT_LIT(Bool(!isAnd)), k3, at, known);
    JumpWritten(c, Bool(isAnd), k4, at, known);
  }

  lemma {:induction false} LogicWritten(e: Expr, n: Labels, k: seq<Instr>, at: Certificate, known: set<int>) returns (at': Certificate)
    requires e.Logic?
    requires Apart(n, AfterExpr(e, n)) && Free(at, n, AfterExpr(e, n)) && ReadsKnown(e, known) && I.WrittenFirst(k, at, Some(known))
    ensures Grew(at, at', n, AfterExpr(e, n)) && I.WrittenFirst(ExprCode(e, n, k), at', Some(known))
    decreases e, 0
  {
    var Logic(isAnd, right, left) := e;
    var m := AfterExpr(right, n);
    var n1, n' := m.NextConditional().NextUnconditional(), AfterExpr(e, n);
    var c, u := n1.conditional, n1.unconditional;
    ExprOrdered(right, n);
    ExprOrdered(left, n1);
    ApartLabels(n, m, n');
    assert Between(c, m, n1) && Between(u, m, n1);
    hide I.WrittenFirst, Free, Grew, Apart, Between;
    FreeInside(at, n, m, n1, n');
    var at0 := TwoLabels(at, m, c, known, u, known + {0}, n1);
    Unspoken(k, at, at0, known, known) by { GrewExtends(at, at0, m, n1); }
    MeetWritten(u, k, at0, known);
    FreeBehind(at, at0, n, m, n1, n');
    var k1 := [SCRATCH, LBL(u), RESULT] + k;
    var at1 := ExprWritten(left, n1, k1, at0, known);
    GrewExtends(at0, at1, n1, n');
    LogicMiddleWritten(isAnd, n1, ExprCode(left, n1, k1), at1, known);
    GrewOn(at, at0, at1, n, m, n1, n');
    FreeBefore(at, at1, n, m, n', n');
    at' := ExprWritten(right, n, LogicMiddle(isAnd, n1) + ExprCode(left, n1, k1), at1, known);
    GrewBack(at, at1, at', n, m, n');
  }

  lemma GrewExtends(at: Certificate, at': Certificate, n: Labels, n': Labels)
    requires Grew(at, at', n, n')
    ensures F.Extends(at, at')
  {
  }

  lemma {:induction false} CondWritten(e: Expr, n: Labels, k: seq<Instr>, at: Certificate, known: set<int>) returns (at': Certificate)
    requires e.Cond?
    requires Apart(n, AfterExpr(e, n)) && Free(at, n, AfterExpr(e, n)) && ReadsKnown(e, known) && I.WrittenFirst(k, at, Some(known))
    ensures Grew(at, at', n, AfterExpr(e, n)) && I.WrittenFirst(ExprCode(e, n, k), at', Some(known))
    decreases e, 0
  {
    var Cond(test, yes, no) := e;
    var n1 := n.NextUnconditional();
    var m := AfterExpr(test, n1);
    var n2 := m.NextConditional();
    var n3, n' := AfterExpr(yes, n2), AfterExpr(e, n);
    var c, u := n2.conditional, n1.unconditional;
    ExprOrdered(test, n1);
    ExprOrdered(yes, n2);
    ExprOrdered(no, n3);
    assert Between(u, n, n1) && Between(c, m, n2) && c != u;
    hide I.WrittenFirst, Free, Grew, Apart, Between;
    // the label where both ways meet, then the label of the other way, then the parts from the last to the first
    FreeInside(at, n, n, n1, n');
    var atU := OneLabel(at, n, u, known + {0}, n1);
    FreeBehind(at, atU, n, n, n1, n');
    FreeInside(atU, n1, m, n2, n');
    var at0 := OneLabel(atU, m, c, known, n2);
    FreeBehind(atU, at0, n1, m, n2, n');
    GrewExtends(at, atU, n, n1);
    GrewExtends(atU, at0, m, n2);
    Unspoken(k, at, atU, known, known);
    Unspoken(k, atU, at0, known, known);
    MeetWritten(u, k, at0, known);
    var k1 := [SCRATCH, LBL(u), RESULT] + k;
    FreeInside(at0, n2, n3, n', n');
    var at1 := ExprWritten(no, n3, k1, at0, known);
    var k2 := ExprCode(no, n3, k1);
    GrewExtends(at0, at1, n3, n');
    CondMiddleWritten(n1, n2, k2, at1, known);
    FreeBefore(at0, at1, n2, n3, n', n');
    var at2 := ExprWritten(yes, n2, CondMiddle(n1, n2) + k2, at1, known);
    var k3 := ExprCode(yes, n2, CondMiddle(n1, n2) + k2);
    GrewExtends(at1, at2, n2, n3);
    JumpWritten(c, 0, k3, at2, known);
    GrewBack(at0, at1, at2, n2, n3, n');
    GrewOn(atU, at0, at2, n1, m, n2, n');
    FreeBefore(atU, at2, n1, m, n', n');
    at' := ExprWritten(test, n1, [JMP(c, 0)] + k3, at2, known);
    GrewBack(atU, at2, at', n1, m, n');
    GrewOn(at, atU, at', n, n, n1, n');
  }

  lemma OneLabel(at: Certificate, m: Labels, l: int, slots: set<int>, m': Labels) returns (at': Certificate)
    requires Free(at, m, m') && Between(l, m, m')
    ensures Grew(at, at', m, m') && l in at' && at'[l] == slots
  {
    at' := at[l := slots];
  }

  lemma CondMiddleWritten(n1: Labels, n2: Labels, k: seq<Instr>, at: Certificate, known: set<int>)
    requires n2.conditional in at && at[n2.conditional] == known && n1.unconditional in at && at[n1.unconditional] == known + {0}
    requires I.WrittenFirst(k, at, Some(known))
    ensures I.WrittenFirst(CondMiddle(n1, n2) + k, at, Some(known))
  {
    var c, u := n2.conditional, n1.unconditional;
    var k1 := [LBL(c)] + k;
    var k2 := [JMP(u, -1)] + k1;
    assert CondMiddle(n1, n2) + k == [SCRATCH] + k2;
    hide I.WrittenFirst, CondMiddle;
    LabelWritten(c, k, at, None);
    JumpWritten(u, -1, k1, at, known + {0});
    StoreWritten(0, k2, at, known);
  }

  lemma {:induction false} ArgsWritten(args: seq<Expr>, n: Labels, k: seq<Instr>, at: Certificate, known: set<int>)
    returns (at': Certificate)
    requires Apart(n, AfterArgs(args, n)) && Free(at, n, AfterArgs(args, n)) && (forall e <- args :: ReadsKnown(e, known))
    requires I.WrittenFirst(k, at, Some(known))
    ensures Grew(at, at', n, AfterArgs(args, n)) && I.WrittenFirst(ArgsCode(args, n, k), at', Some(known))
    decreases |args|
  {
    hide I.WrittenFirst, Free, Grew, Apart;
    at' := at;
    if args == [] {
      GrewNot(at, n, n);
      return;
    }
    var n1, n' := AfterExpr(args[0], n), AfterArgs(args, n);
    assert args[0] in args;
    ExprOrdered(args[0], n);
    ArgsOrdered(args[1..], n1);
    FreeInside(at, n, n1, n', n');
    var at1 := ArgsWritten(args[1..], n1, k, at, known);
    FreeBefore(at, at1, n, n1, n', n');
    at' := ExprWritten(args[0], n, ArgsCode(args[1..], n1, k), at1, known);
    GrewBack(at, at1, at', n, n1, n');
  }

  // ----- Statements -----

  lemma Dead(code: seq<Instr>, at: Certificate, known: set<int>)
    requires I.WrittenFirst(code, at, Some(known))
    ensures I.WrittenFirst(code, at, None)
  {
    F.Stronger(code, at, Some(known), None);
  }

  lemma Grown(code: seq<Instr>, at: Certificate, at': Certificate, known: I.Written, n: Labels, n': Labels)
    requires I.WrittenFirst(code, at, known) && Grew(at, at', n, n')
    ensures I.WrittenFirst(code, at', known)
  {
    F.Extended(code, at, at', known);
  }

  lemma ReceivedWritten(id: MethodId, dest: Destination, k: seq<Instr>, at: Certificate, known: set<int>)
    requires I.WrittenFirst(k, at, Some(if dest.Into? then known + {dest.slot} else known))
    ensures I.WrittenFirst(CallTail(id, dest) + k, at, Some(known))
  {
    hide I.WrittenFirst;
    var k1 := k;
    match dest {
      case Nowhere =>
      case Dropped =>
        StackOnly(POP_INT, k, at, known);
        k1 := [POP_INT] + k;
      case Into(x) =>
        StoreWritten(x, k, at, known);
        k1 := [STOR_INT_VAR(x, LOCL)] + k;
    }
    StackOnly(MTHD_CALL(id), k1, at, known);
    StackOnly(LOAD_INST_MEM, [MTHD_CALL(id)] + k1, at, known);
    assert CallTail(id, dest) + k == [LOAD_INST_MEM] + ([MTHD_CALL(id)] + k1);
  }

  lemma OpAssignWritten(op: IntOp, x: int, k: seq<Instr>, at: Certificate, known: set<int>)
    requires x in known && I.WrittenFirst(k, at, Some(known + {x}))
    ensures I.WrittenFirst([LOAD_INT_VAR(x, LOCL), INT_OP(op), STOR_INT_VAR(x, LOCL)] + k, at, Some(known))
  {
    var k1 := [STOR_INT_VAR(x, LOCL)] + k;
    var k2 := [INT_OP(op)] + k1;
    assert [LOAD_INT_VAR(x, LOCL), INT_OP(op), STOR_INT_VAR(x, LOCL)] + k == [LOAD_INT_VAR(x, LOCL)] + k2;
    StoreWritten(x, k, at, known);
    StackOnly(INT_OP(op), k1, at, known);
    S.WrittenStep(LOAD_INT_VAR(x, LOCL), k2, at, Some(known));
    assert known + {} == known;
  }

  lemma FieldWritten(x: int, k: seq<Instr>, at: Certificate, known: set<int>)
    requires I.WrittenFirst(k, at, Some(known))
    ensures I.WrittenFirst(FieldStore(x) + k, at, Some(known))
  {
    StackOnly(STOR_INT_VAR(x, INST), k, at, known);
    StackOnly(LOAD_INST_MEM, [STOR_INT_VAR(x, INST)] + k, at, known);
    assert FieldStore(x) + k == [LOAD_INST_MEM] + ([STOR_INT_VAR(x, INST)] + k);
  }

  lemma FieldChanged(op: IntOp, x: int, k: seq<Instr>, at: Certificate, known: set<int>)
    requires I.WrittenFirst(k, at, Some(known))
    ensures I.WrittenFirst(FieldChange(op, x) + k, at, Some(known))
  {
    FieldWritten(x, k, at, known);
    var k2 := [INT_OP(op)] + (FieldStore(x) + k);
    StackOnly(INT_OP(op), FieldStore(x) + k, at, known);
    StackOnly(LOAD_INT_VAR(x, INST), k2, at, known);
    StackOnly(LOAD_INST_MEM, [LOAD_INT_VAR(x, INST)] + k2, at, known);
    assert FieldChange(op, x) + k == [LOAD_INST_MEM] + ([LOAD_INT_VAR(x, INST)] + k2);
  }

  /** What is asked of the place a statement is emitted at. */
  ghost predicate Placed(n: Labels, n': Labels, brk: int, inLoop: bool, at: Certificate, known: set<int>) {
    Apart(n, n') && Free(at, n, n') && known <= Everything() && (inLoop ==> brk in at && at[brk] <= known)
  }

  lemma {:induction false} StmtWritten(s: Stmt, n: Labels, brk: int, k: seq<Instr>, base: nat, inLoop: bool, at: Certificate,
                                       known: set<int>) returns (at': Certificate)
    requires GoodStmt(s, base, inLoop) && Sure(s, known) && Placed(n, AfterStmt(s, n), brk, inLoop, at, known)
    requires I.WrittenFirst(k, at, Some(Known(s, known)))
    ensures Grew(at, at', n, AfterStmt(s, n)) && I.WrittenFirst(StmtCode(s, n, brk, k), at', Some(known))
    decreases s, 5
  {
    hide I.WrittenFirst, Free, Grew, Apart, Everything;
    at' := at;
    GrewNot(at, n, AfterStmt(s, n));
    match s
    case Assign(x, e) =>
      StoreWritten(x, k, at, known);
      at' := ExprWritten(e, n, [STOR_INT_VAR(x, LOCL)] + k, at, known);
    case OpAssign(op, x, e) =>
      OpAssignWritten(op, x, k, at, known);
      at' := ExprWritten(e, n, [LOAD_INT_VAR(x, LOCL), INT_OP(op), STOR_INT_VAR(x, LOCL)] + k, at, known);
    case SetField(x, e) =>
      FieldWritten(x, k, at, known);
      at' := ExprWritten(e, n, FieldStore(x) + k, at, known);
    case OpSetField(op, x, e) =>
      FieldChanged(op, x, k, at, known);
      at' := ExprWritten(e, n, FieldChange(op, x) + k, at, known);
    case If(_) => at' := IfWritten(s, n, brk, k, base, inLoop, at, known);
    case While(_, _) => at' := LoopWritten(s, n, n, k, base, at, known);
    case DoWhile(_, _) => at' := DoWhileWritten(s, n, k, base, inLoop, at, known);
    case For(_, _, _, _) => at' := ForWritten(s, n, brk, k, base, inLoop, at, known);
    case Select(_, _, _) =>
      if |Values(s.cases)| >= 2 { at' := SelectWritten(s, n, brk, k, base, inLoop, at, known); }
      else { at' := SingleWritten(s, n, brk, k, base, inLoop, at, known); }
    case Call(id, args, dest) =>
      ReceivedWritten(id, dest, k, at, known);
      at' := ArgsWritten(args, n, CallTail(id, dest) + k, at, known);
    case Empty =>
    case Break =>
      Dead(k, at, Everything());
      JumpWritten(brk, -1, k, at, known);
    case Return(e) =>
      Dead(k, at, Everything());
      S.WrittenStep(RTRN, k, at, Some(known));
      if e.Some? { at' := ExprWritten(e.value, n, [RTRN] + k, at, known); }
  }

  lemma {:induction false} StmtsWritten(ss: Stmts, n: Labels, brk: int, k: seq<Instr>, base: nat, inLoop: bool, at: Certificate,
                                        known: set<int>) returns (at': Certificate)
    requires GoodStmts(ss, base, inLoop) && SureAll(ss, known) && Placed(n, AfterStmts(ss, n), brk, inLoop, at, known)
    requires I.WrittenFirst(k, at, Some(KnownAll(ss, known)))
    ensures Grew(at, at', n, AfterStmts(ss, n)) && I.WrittenFirst(StmtsCode(ss, n, brk, k), at', Some(known))
    decreases ss, 0
  {
    at' := at;
    if ss.Nil? {
      GrewNot(at, n, n);
      return;
    }
    hide I.WrittenFirst, Free, Grew, Apart, Everything;
    var n1, n' := AfterStmt(ss.head, n), AfterStmts(ss, n);
    StmtOrdered(ss.head, n);
    StmtsOrdered(ss.tail, n1);
    KnownGrows(ss.head, known, base, inLoop);
    FreeInside(at, n, n1, n', n');
    var at1 := StmtsWritten(ss.tail, n1, brk, k, base, inLoop, at, Known(ss.head, known));
    FreeBefore(at, at1, n, n1, n', n');
    if inLoop { GrewAt(at, at1, n1, n', brk); }
    at' := StmtWritten(ss.head, n, brk, StmtsCode(ss.tail, n1, brk, k), base, inLoop, at1, known);
    GrewBack(at, at1, at', n, n1, n');
  }

  lemma GrewAt(at: Certificate, at': Certificate, n: Labels, n': Labels, l: int)
    requires Grew(at, at', n, n') && l in at
    ensures l in at' && at'[l] == at[l]
  {
  }

  // ----- Loops -----

  /** The end of a while or for loop: back to the test at u, then the break label e. */
  lemma LoopEndWritten(u: int, e: int, k: seq<Instr>, at: Certificate, begun: set<int>, known: set<int>)
    requires u in at && at[u] == begun && e in at && at[e] == begun && begun <= known && I.WrittenFirst(k, at, Some(begun))
    ensures I.WrittenFirst([JMP(u, -1), LBL(e)] + k, at, Some(known))
  {
    var k1 := [LBL(e)] + k;
    assert [JMP(u, -1), LBL(e)] + k == [JMP(u, -1)] + k1;
    hide I.WrittenFirst;
    LabelWritten(e, k, at, None);
    JumpWritten(u, -1, k1, at, known);
  }

  /** The part of a loop behind its break test: the body, the update of a for loop, and the way back. */
  lemma {:induction false} RoundWritten(s: Stmt, n2: Labels, u: int, e: int, k: seq<Instr>, base: nat, at: Certificate, begun: set<int>)
    returns (at': Certificate, code: seq<Instr>)
    requires (s.While? || s.For?) && GoodStmts(s.body, base, true) && SureAll(s.body, begun)
    requires s.For? ==> GoodStmt(s.update, base, true) && Sure(s.update, KnownAll(s.body, begun))
    requires var n3 := AfterStmts(s.body, n2); Placed(n2, if s.For? then AfterStmt(s.update, n3) else n3, e, true, at, begun)
    requires u in at && at[u] == begun && e in at && at[e] == begun && I.WrittenFirst(k, at, Some(begun))
    ensures var n3, back := AfterStmts(s.body, n2), [JMP(u, -1), LBL(e)] + k;
      && code == StmtsCode(s.body, n2, e, if s.For? then StmtCode(s.update, n3, e, back) else back)
      && Grew(at, at', n2, if s.For? then AfterStmt(s.update, n3) else n3) && I.WrittenFirst(code, at', Some(begun))
    decreases s, 1
  {
    hide I.WrittenFirst, Free, Grew, Apart, Everything;
    var n3, back, ended := AfterStmts(s.body, n2), [JMP(u, -1), LBL(e)] + k, KnownAll(s.body, begun);
    StmtsOrdered(s.body, n2);
    KnownAllGrows(s.body, begun, base, true);
    code := StmtsCode(s.body, n2, e, if s.For? then StmtCode(s.update, n3, e, back) else back);
    if s.For? {
      var n' := AfterStmt(s.update, n3);
      StmtOrdered(s.update, n3);
      KnownGrows(s.update, ended, base, true);
      LoopEndWritten(u, e, k, at, begun, Known(s.update, ended));
      FreeInside(at, n2, n3, n', n');
      var at1 := StmtWritten(s.update, n3, e, back, base, true, at, ended);
      FreeBefore(at, at1, n2, n3, n', n');
      GrewAt(at, at1, n3, n', e);
      at' := StmtsWritten(s.body, n2, e, StmtCode(s.update, n3, e, back), base, true, at1, begun);
      GrewBack(at, at1, at', n2, n3, n');
    } else {
      LoopEndWritten(u, e, k, at, begun, ended);
      at' := StmtsWritten(s.body, n2, e, back, base, true, at, begun);
    }
  }

  /** A while or for loop from its start label on; n0 is where the start of a for loop ends. */
  lemma {:induction false} LoopWritten(s: Stmt, n: Labels, n0: Labels, k: seq<Instr>, base: nat, at: Certificate, begun: set<int>)
    returns (at': Certificate)
    requires (s.While? || s.For?) && n0 == (if s.For? then AfterStmt(s.pre, n) else n)
    requires GoodExpr(s.test, base) && GoodStmts(s.body, base, true) && ReadsKnown(s.test, begun) && SureAll(s.body, begun)
    requires s.For? ==> GoodStmt(s.update, base, true) && Sure(s.update, KnownAll(s.body, begun))
    requires Placed(n0, AfterStmt(s, n), 0, false, at, begun) && I.WrittenFirst(k, at, Some(begun))
    ensures Grew(at, at', n0, AfterStmt(s, n)) && I.WrittenFirst(LoopCode(s, n0, k), at', Some(begun))
    decreases s, 2
  {
    var n1 := n0.NextUnconditional();
    var m := AfterExpr(s.test, n1);
    var n2 := m.NextConditional();
    var u, e, n3, n' := n1.unconditional, n2.conditional, AfterStmts(s.body, n2), AfterStmt(s, n);
    LoopLabels(s, n, n0);
    hide I.WrittenFirst, Free, Grew, Apart, Everything, Between;
    FreeInside(at, n0, n0, n1, n');
    var atU := OneLabel(at, n0, u, begun, n1);
    FreeBehind(at, atU, n0, n0, n1, n');
    FreeInside(atU, n1, m, n2, n');
    var at0 := OneLabel(atU, m, e, begun, n2);
    GrewAt(atU, at0, m, n2, u);
    FreeBehind(atU, at0, n1, m, n2, n');
    Grown(k, at, atU, Some(begun), n0, n1);
    Grown(k, atU, at0, Some(begun), m, n2);
    var at1, code := RoundWritten(s, n2, u, e, k, base, at0, begun);
    GrewAt(at0, at1, n2, n', u);
    GrewAt(at0, at1, n2, n', e);
    JumpWritten(e, 0, code, at1, begun);
    GrewOn(atU, at0, at1, n1, m, n2, n');
    FreeBefore(atU, at1, n1, m, n', n');
    at' := ExprWritten(s.test, n1, [JMP(e, 0)] + code, at1, begun);
    GrewAt(at1, at', n1, m, u);
    LabelWritten(u, ExprCode(s.test, n1, [JMP(e, 0)] + code), at', Some(begun));
    GrewBack(atU, at1, at', n1, m, n');
    GrewOn(at, atU, at', n0, n0, n1, n');
  }

  function LoopCode(s: Stmt, n0: Labels, k: seq<Instr>): seq<Instr>
    requires s.While? || s.For?
  {
    var n1 := n0.NextUnconditional();
    var n2 := AfterExpr(s.test, n1).NextConditional();
    var u, e, n3 := n1.unconditional, n2.conditional, AfterStmts(s.body, n2);
    var back := [JMP(u, -1), LBL(e)] + k;
    [LBL(u)] + ExprCode(s.test, n1, [JMP(e, 0)]
      + StmtsCode(s.body, n2, e, if s.For? then StmtCode(s.update, n3, e, back) else back))
  }

  lemma LoopLabels(s: Stmt, n: Labels, n0: Labels)
    requires (s.While? || s.For?) && n0 == (if s.For? then AfterStmt(s.pre, n) else n) && Apart(n0, AfterStmt(s, n))
    ensures var n1 := n0.NextUnconditional();
      var m := AfterExpr(s.test, n1);
      var n2 := m.NextConditional();
      && Inside(n0, n0, n1, AfterStmt(s, n)) && Inside(n1, m, n2, AfterStmt(s, n))
      && Between(n1.unconditional, n0, n1) && Between(n2.conditional, m, n2)
      && AfterStmt(s, n) == if s.For? then AfterStmt(s.update, AfterStmts(s.body, n2)) else AfterStmts(s.body, n2)
  {
    var n1 := n0.NextUnconditional();
    var n2 := AfterExpr(s.test, n1).NextConditional();
    ExprOrdered(s.test, n1);
    StmtsOrdered(s.body, n2);
    if s.For? { StmtOrdered(s.update, AfterStmts(s.body, n2)); }
  }

  lemma {:induction false} ForWritten(s: Stmt, n: Labels, brk: int, k: seq<Instr>, base: nat, inLoop: bool, at: Certificate,
                                      known: set<int>) returns (at': Certificate)
    requires s.For?
    requires GoodStmt(s, base, inLoop) && Sure(s, known) && Placed(n, AfterStmt(s, n), brk, inLoop, at, known)
    requires I.WrittenFirst(k, at, Some(Known(s, known)))
    ensures Grew(at, at', n, AfterStmt(s, n)) && I.WrittenFirst(StmtCode(s, n, brk, k), at', Some(known))
    decreases s, 4
  {
    var n0, n', begun := AfterStmt(s.pre, n), AfterStmt(s, n), Known(s.pre, known);
    assert StmtCode(s, n, brk, k) == StmtCode(s.pre, n, brk, LoopCode(s, n0, k));
    StmtOrdered(s.pre, n);
    KnownGrows(s.pre, known, base, inLoop);
    assert Ordered(n0, n') by { ForOrdered(s, n); }
    hide I.WrittenFirst, Free, Grew, Apart, Everything, StmtCode, LoopCode, AfterStmt;
    FreeInside(at, n, n0, n', n');
    var at1 := LoopWritten(s, n, n0, k, base, at, begun);
    FreeBefore(at, at1, n, n0, n', n');
    if inLoop { GrewAt(at, at1, n0, n', brk); }
    at' := StmtWritten(s.pre, n, brk, LoopCode(s, n0, k), base, inLoop, at1, known);
    GrewBack(at, at1, at', n, n0, n');
  }

  lemma ForOrdered(s: Stmt, n: Labels)
    requires s.For?
    ensures Ordered(AfterStmt(s.pre, n), AfterStmt(s, n))
  {
    var n1 := AfterStmt(s.pre, n).NextUnconditional();
    var n2 := AfterExpr(s.test, n1).NextConditional();
    ExprOrdered(s.test, n1);
    StmtsOrdered(s.body, n2);
    StmtOrdered(s.update, AfterStmts(s.body, n2));
  }

  lemma {:induction false} DoWhileWritten(s: Stmt, n: Labels, k: seq<Instr>, base: nat, inLoop: bool, at: Certificate, known: set<int>)
    returns (at': Certificate)
    requires s.DoWhile?
    requires GoodStmt(s, base, inLoop) && Sure(s, known) && Placed(n, AfterStmt(s, n), 0, false, at, known)
    requires I.WrittenFirst(k, at, Some(known))
    ensures Grew(at, at', n, AfterStmt(s, n)) && forall brk: int :: I.WrittenFirst(StmtCode(s, n, brk, k), at', Some(known))
    decreases s, 4
  {
    var n1 := n.NextConditional().NextUnconditional();
    var c, e, n2, n', ended := n1.conditional, n1.unconditional, AfterStmts(s.body, n1), AfterStmt(s, n), KnownAll(s.body, known);
    StmtsOrdered(s.body, n1);
    ExprOrdered(s.test, n2);
    ApartLabels(n, n, n');
    KnownAllGrows(s.body, known, base, true);
    assert Between(c, n, n1) && Between(e, n, n1);
    var k1 := [LBL(e)] + k;
    var k2 := [JMP(c, 1)] + k1;
    var k3 := ExprCode(s.test, n2, k2);
    assert [JMP(c, 1), LBL(e)] + k == k2;
    assert forall brk: int :: StmtCode(s, n, brk, k) == [LBL(c)] + StmtsCode(s.body, n1, e, k3);
    hide I.WrittenFirst, Free, Grew, Apart, Everything, Between, StmtCode;
    FreeInside(at, n, n, n1, n');
    var at0 := TwoLabels(at, n, c, known, e, known, n1);
    Grown(k, at, at0, Some(known), n, n1);
    FreeBehind(at, at0, n, n, n1, n');
    LabelWritten(e, k, at0, Some(ended));
    JumpWritten(c, 1, k1, at0, ended);
    FreeInside(at0, n1, n2, n', n');
    var at1 := ExprWritten(s.test, n2, k2, at0, ended);
    FreeBefore(at0, at1, n1, n2, n', n');
    GrewAt(at0, at1, n2, n', e);
    at' := StmtsWritten(s.body, n1, e, k3, base, true, at1, known);
    GrewBack(at0, at1, at', n1, n2, n');
    GrewAt(at0, at', n1, n', c);
    LabelWritten(c, StmtsCode(s.body, n1, e, k3), at', Some(known));
    GrewOn(at, at0, at', n, n, n1, n');
  }

  // ----- if chains -----

  lemma {:induction false} IfWritten(s: Stmt, n: Labels, brk: int, k: seq<Instr>, base: nat, inLoop: bool, at: Certificate,
                                     known: set<int>) returns (at': Certificate)
    requires s.If?
    requires GoodStmt(s, base, inLoop) && Sure(s, known) && Placed(n, AfterStmt(s, n), brk, inLoop, at, known)
    requires I.WrittenFirst(k, at, Some(Known(s, known)))
    ensures Grew(at, at', n, AfterStmt(s, n)) && I.WrittenFirst(StmtCode(s, n, brk, k), at', Some(known))
    decreases s, 4
  {
    var n1 := n.NextUnconditional().NextConditional();
    var next, end, n', ended := n1.conditional, n1.unconditional, AfterStmt(s, n), Known(s, known);
    ChainOrdered(s.chain, n1);
    ApartLabels(n, n, n');
    KnownGrows(s, known, base, inLoop);
    assert Between(next, n, n1) && Between(end, n, n1);
    hide I.WrittenFirst, Free, Grew, Apart, Everything, Between, ChainCode, KnownChain;
    FreeInside(at, n, n, n1, n');
    var at0 := TwoLabels(at, n, next, known, end, ended, n1);
    if inLoop { GrewAt(at, at0, n, n1, brk); }
    Grown(k, at, at0, Some(ended), n, n1);
    FreeBehind(at, at0, n, n, n1, n');
    LabelWritten(end, k, at0, Some(ended));
    at' := ChainWritten(s.chain, next, end, n1, brk, [LBL(end)] + k, base, inLoop, at0, known);
    GrewOn(at, at0, at', n, n, n1, n');
  }

  lemma ChainLabels(chain: Chain, n: Labels)
    requires Apart(n, AfterChain(chain, n))
    ensures var m := AfterExpr(chain.test, n);
      var n1 := m.NextConditional();
      var n2 := AfterStmts(chain.body, n1);
      && Inside(n, m, n1, AfterChain(chain, n)) && Inside(n1, n2, AfterChain(chain, n), AfterChain(chain, n))
      && Between(n1.conditional, m, n1) && AfterChain(chain, n) == AfterElse(chain.orElse, n2)
  {
    var m := AfterExpr(chain.test, n);
    var n2 := AfterStmts(chain.body, m.NextConditional());
    ExprOrdered(chain.test, n);
    StmtsOrdered(chain.body, m.NextConditional());
    ElseOrdered(chain.orElse, n2, AfterElse(chain.orElse, n2));
  }

  lemma {:induction false} ChainWritten(chain: Chain, next: int, end: int, n: Labels, brk: int, k: seq<Instr>, base: nat, inLoop: bool,
                                        at: Certificate, known: set<int>) returns (at': Certificate)
    requires GoodChain(chain, base, inLoop) && SureChain(chain, known) && Placed(n, AfterChain(chain, n), brk, inLoop, at, known)
    requires next in at && at[next] == known && end in at && at[end] <= KnownChain(chain, known)
    requires I.WrittenFirst(k, at, Some(at[end]))
    ensures Grew(at, at', n, AfterChain(chain, n)) && I.WrittenFirst(ChainCode(chain, next, end, n, brk, k), at', Some(known))
    decreases chain, 1
  {
    var m := AfterExpr(chain.test, n);
    var n1 := m.NextConditional();
    var n2, n', c := AfterStmts(chain.body, n1), AfterChain(chain, n), n1.conditional;
    var l, ended := if chain.orElse.NoElse? then end else c, KnownAll(chain.body, known);
    ChainLabels(chain, n);
    KnownAllGrows(chain.body, known, base, inLoop);
    var k0 := ElseCode(chain.orElse, c, end, n2, brk, k);
    var k1 := [JMP(end, -1)] + Guard(chain) + k0;
    var k2 := StmtsCode(chain.body, n1, brk, k1);
    assert ChainCode(chain, next, end, n, brk, k) == [LBL(next)] + ExprCode(chain.test, n, [JMP(l, 0)] + k2);
    assert GoodElse(chain.orElse, base, inLoop) && SureElse(chain.orElse, known) && at[end] <= KnownElse(chain.orElse, known);
    assert at[end] <= ended && (chain.orElse.NoElse? ==> at[end] <= known);
    hide I.WrittenFirst, Free, Grew, Apart, Everything, Between, ChainCode, ElseCode, Guard, KnownChain, KnownElse, KnownAll, GoodElse,
         SureElse;
    FreeInside(at, n, m, n1, n');
    var at0 := OneLabel(at, m, c, known, n1);
    GrewAt(at, at0, m, n1, end);
    GrewAt(at, at0, m, n1, next);
    if inLoop { GrewAt(at, at0, m, n1, brk); }
    Grown(k, at, at0, Some(at[end]), m, n1);
    FreeBehind(at, at0, n, m, n1, n');
    FreeInside(at0, n1, n2, n', n');
    var at1 := ElseWritten(chain.orElse, c, end, n2, brk, k, base, inLoop, at0, known);
    GrewAt(at0, at1, n2, n', end);
    GrewAt(at0, at1, n2, n', next);
    GrewAt(at0, at1, n2, n', c);
    if inLoop { GrewAt(at0, at1, n2, n', brk); }
    SkipWritten(chain, end, k0, at1, ended);
    FreeBefore(at0, at1, n1, n2, n', n');
    var at2 := StmtsWritten(chain.body, n1, brk, k1, base, inLoop, at1, known);
    GrewAt(at1, at2, n1, n2, end);
    GrewAt(at1, at2, n1, n2, next);
    GrewAt(at1, at2, n1, n2, c);
    JumpWritten(l, 0, k2, at2, known);
    GrewBack(at0, at1, at2, n1, n2, n');
    GrewOn(at, at0, at2, n, m, n1, n');
    FreeBefore(at, at2, n, m, n', n');
    at' := ExprWritten(chain.test, n, [JMP(l, 0)] + k2, at2, known);
    GrewAt(at2, at', n, m, next);
    LabelWritten(next, ExprCode(chain.test, n, [JMP(l, 0)] + k2), at', Some(known));
    GrewBack(at, at2, at', n, m, n');
  }

  /** The jump over the rest of the chain, in front of code only jumps come to. */
  lemma SkipWritten(chain: Chain, end: int, k: seq<Instr>, at: Certificate, known: set<int>)
    requires end in at && at[end] <= known && I.WrittenFirst(k, at, None)
    ensures I.WrittenFirst([JMP(end, -1)] + Guard(chain) + k, at, Some(known))
  {
    S.WrittenStep(POP_INT, k, at, None);
    var k1 := Guard(chain) + k;
    assert Guard(chain) == [] ==> k1 == k;
    assert [JMP(end, -1)] + Guard(chain) + k == [JMP(end, -1)] + k1;
    JumpWritten(end, -1, k1, at, known);
  }

  lemma {:induction false} ElseWritten(orElse: Else, c: int, end: int, n: Labels, brk: int, k: seq<Instr>, base: nat, inLoop: bool,
                                       at: Certificate, known: set<int>) returns (at': Certificate)
    requires GoodElse(orElse, base, inLoop) && SureElse(orElse, known) && Placed(n, AfterElse(orElse, n), brk, inLoop, at, known)
    requires c in at && at[c] == known && end in at && at[end] <= KnownElse(orElse, known) && I.WrittenFirst(k, at, Some(at[end]))
    ensures Grew(at, at', n, AfterElse(orElse, n)) && I.WrittenFirst(ElseCode(orElse, c, end, n, brk, k), at', None)
    decreases orElse, 0
  {
    hide I.WrittenFirst, Free, Grew, Apart, Everything;
    at' := at;
    match orElse
    case NoElse =>
      GrewNot(at, n, n);
      Dead(k, at, at[end]);
    case ElseIf(next) =>
      at' := ChainWritten(next, c, end, n, brk, k, base, inLoop, at, known);
      Dead(ChainCode(next, c, end, n, brk, k), at', known);
    case Otherwise(rest) =>
      F.Stronger(k, at, Some(at[end]), Some(KnownAll(rest, known)));
      at' := StmtsWritten(rest, n, brk, k, base, inLoop, at, known);
      GrewAt(at, at', n, AfterElse(orElse, n), c);
      LabelWritten(c, StmtsCode(rest, n, brk, k), at', None);
  }

  // ----- select -----

  /** The labels the tree of a select jumps to: its nodes', the cases' and the default. */
  ghost predicate TreeTargets(at: Certificate, node: Node, labels: map<int, int>, default: int, known: set<int>) {
    && default in at && at[default] <= known
    && (forall v <- Tested(node) :: LabelOf(labels, v) in at && at[LabelOf(labels, v)] <= known)
    && (forall id <- Ids(node) :: id in at && at[id] == known)
  }

  lemma TargetsStay(at: Certificate, at': Certificate, n: Labels, n': Labels, node: Node, labels: map<int, int>, default: int,
                    known: set<int>)
    requires TreeTargets(at, node, labels, default, known) && Grew(at, at', n, n')
    ensures TreeTargets(at', node, labels, default, known)
  {
  }

  lemma TargetsBelow(at: Certificate, node: Node, labels: map<int, int>, default: int, known: set<int>)
    requires TreeTargets(at, node, labels, default, known)
    ensures node.id in at && at[node.id] == known
    ensures !node.Less? ==> LabelOf(labels, node.value) in at && at[LabelOf(labels, node.value)] <= known
    ensures !node.Equal? ==> TreeTargets(at, node.left, labels, default, known) && TreeTargets(at, node.right, labels, default, known)
    ensures !node.Equal? ==> node.left.id in at && node.right.id in at && at[node.left.id] == known == at[node.right.id]
  {
    assert node.id in Ids(node);
    if !node.Equal? { assert node.left.id in Ids(node.left) && node.right.id in Ids(node.right); }
  }

  /** A comparison and the two jumps, or a jump and the next literal, behind it. */
  lemma CompareWritten(op: IntOp, i: Instr, j: Instr, k: seq<Instr>, at: Certificate, known: set<int>)
    requires i.JMP? && i.cond >= 0 && i.target in at && at[i.target] <= known
    requires (j.LOAD_INT_LIT? && I.WrittenFirst(k, at, Some(known)))
          || (j.JMP? && j.cond < 0 && j.target in at && at[j.target] <= known && I.WrittenFirst(k, at, None))
    ensures I.WrittenFirst([INT_OP(op), i, j] + k, at, Some(known))
  {
    var k1 := [j] + k;
    var k2 := [i] + k1;
    assert [INT_OP(op), i, j] + k == [INT_OP(op)] + k2;
    if j.JMP? { JumpWritten(j.target, j.cond, k, at, known); } else { StackOnly(j, k, at, known); }
    JumpWritten(i.target, i.cond, k1, at, known);
    StackOnly(INT_OP(op), k2, at, known);
  }

  /** A node's label, its literal and the selector in front of what it decides. */
  lemma NodeWritten(e: Expr, id: int, value: int, n: Labels, n': Labels, k: seq<Instr>, at: Certificate, known: set<int>)
    returns (at': Certificate)
    requires n' == AfterExpr(e, n) && Apart(n, n') && Free(at, n, n') && ReadsKnown(e, known) && I.WrittenFirst(k, at, Some(known))
    requires id in at && at[id] == known
    ensures Grew(at, at', n, n') && I.WrittenFirst([LBL(id), LOAD_INT_LIT(value)] + ExprCode(e, n, k), at', Some(known))
  {
    hide I.WrittenFirst, Free, Grew, Apart;
    at' := ExprWritten(e, n, k, at, known);
    var code := ExprCode(e, n, k);
    StackOnly(LOAD_INT_LIT(value), code, at', known);
    GrewAt(at, at', n, n', id);
    LabelWritten(id, [LOAD_INT_LIT(value)] + code, at', Some(known));
    assert [LBL(id), LOAD_INT_LIT(value)] + code == [LBL(id)] + ([LOAD_INT_LIT(value)] + code);
  }

  lemma {:induction false} TreeWritten(e: Expr, node: Node, labels: map<int, int>, default: int, n: Labels, k: seq<Instr>,
                                       at: Certificate, known: set<int>) returns (at': Certificate)
    requires ReadsKnown(e, known) && Apart(n, AfterTree(e, node, n)) && Free(at, n, AfterTree(e, node, n))
    requires TreeTargets(at, node, labels, default, known) && I.WrittenFirst(k, at, None)
    ensures Grew(at, at', n, AfterTree(e, node, n)) && I.WrittenFirst(TreeCode(e, node, labels, default, n, k), at', Some(known))
    decreases node, 1
  {
    hide I.WrittenFirst, Free, Grew, Apart, TreeTargets, ExprCode;
    TargetsBelow(at, node, labels, default, known);
    DefaultIn(at, node, labels, default, known);
    if node.Equal? {
      CompareWritten(Eql, JMP(LabelOf(labels, node.value), 1), JMP(default, -1), k, at, known);
      at' := NodeWritten(e, node.id, node.value, n, AfterExpr(e, n), [INT_OP(Eql), JMP(LabelOf(labels, node.value), 1), JMP(default, -1)] + k,
                         at, known);
    } else {
      at' := InnerWritten(e, node, labels, default, n, k, at, known);
    }
  }

  lemma DefaultIn(at: Certificate, node: Node, labels: map<int, int>, default: int, known: set<int>)
    requires TreeTargets(at, node, labels, default, known)
    ensures default in at && at[default] <= known
  {
  }

  lemma {:induction false} InnerWritten(e: Expr, node: Node, labels: map<int, int>, default: int, n: Labels, k: seq<Instr>,
                                        at: Certificate, known: set<int>) returns (at': Certificate)
    requires !node.Equal? && ReadsKnown(e, known) && Apart(n, AfterTree(e, node, n)) && Free(at, n, AfterTree(e, node, n))
    requires TreeTargets(at, node, labels, default, known) && I.WrittenFirst(k, at, None)
    ensures Grew(at, at', n, AfterTree(e, node, n)) && I.WrittenFirst(TreeCode(e, node, labels, default, n, k), at', Some(known))
    decreases node, 0
  {
    hide *;
    var n1 := AfterExpr(e, n);
    var m, n' := if node.Less? then n1 else AfterExpr(e, n1), AfterTree(e, node, n);
    var m1, left, right := AfterTree(e, node.left, m), node.left, node.right;
    InnerLabels(e, node, n);
    var k1 := TreeCode(e, right, labels, default, m1, k);
    var k2 := TreeCode(e, left, labels, default, m, k1);
    var k3 := Branch(left, right) + k2;
    var test := [INT_OP(Eql), JMP(LabelOf(labels, node.value), 1), LOAD_INT_LIT(if node.LessOrEqual? then node.value2 else 0)];
    TreeShape(e, node, labels, default, n, k, k3);
    BranchIs(left, right);
    TargetsBelow(at, node, labels, default, known);
    FreeInside(at, n, m1, n', n');
    var at1 := TreeWritten(e, right, labels, default, m1, k, at, known);
    TargetsStay(at, at1, m1, n', node, labels, default, known);
    TargetsBelow(at1, node, labels, default, known);
    FreeInside(at, n, m, n', n');
    FreeBefore(at, at1, m, m1, n', n');
    Dead(k1, at1, known);
    var at2 := TreeWritten(e, left, labels, default, m, k1, at1, known);
    GrewBack(at, at1, at2, m, m1, n');
    TargetsStay(at, at2, m, n', node, labels, default, known);
    TargetsBelow(at2, node, labels, default, known);
    Dead(k2, at2, known);
    CompareWritten(Les, JMP(left.id, 1), JMP(right.id, -1), k2, at2, known);
    FreeBefore(at, at2, n, m, n', n');
    if node.Less? {
      at' := NodeWritten(e, node.id, node.value, n, n1, k3, at2, known);
      GrewBack(at, at2, at', n, n1, n');
    } else {
      FreeInside(at2, n, n1, m, m);
      var at3 := ExprWritten(e, n1, k3, at2, known);
      GrewBack(at, at2, at3, n1, m, n');
      TargetsStay(at, at3, n1, n', node, labels, default, known);
      TargetsBelow(at3, node, labels, default, known);
      CompareWritten(Eql, JMP(LabelOf(labels, node.value), 1), LOAD_INT_LIT(node.value2), ExprCode(e, n1, k3), at3, known);
      FreeBefore(at, at3, n, n1, n', n');
      at' := NodeWritten(e, node.id, node.value, n, n1, test + ExprCode(e, n1, k3), at3, known);
      GrewBack(at, at3, at', n, n1, n');
    }
  }

  lemma BranchIs(left: Node, right: Node)
    ensures Branch(left, right) == [INT_OP(Les), JMP(left.id, 1), JMP(right.id, -1)]
  {
  }

  lemma InnerLabels(e: Expr, node: Node, n: Labels)
    requires !node.Equal? && Apart(n, AfterTree(e, node, n))
    ensures var n1, n' := AfterExpr(e, n), AfterTree(e, node, n);
      var m := if node.Less? then n1 else AfterExpr(e, n1);
      var m1 := AfterTree(e, node.left, m);
      && Inside(n, m1, n', n') && Inside(n, m, n', n') && Inside(m, m1, n', n') && Inside(m, m1, m1, n')
      && Inside(n, n1, m, m) && Inside(n1, m, m, n') && Inside(n, n1, n', n') && Inside(n, n1, n1, n') && Inside(n, m, m, n')
      && n' == AfterTree(e, node.right, m1)
  {
    var n1 := AfterExpr(e, n);
    var m := if node.Less? then n1 else AfterExpr(e, n1);
    ExprOrdered(e, n);
    ExprOrdered(e, n1);
    TreeOrdered(e, node.left, m);
    TreeOrdered(e, node.right, AfterTree(e, node.left, m));
  }

  lemma TreeShape(e: Expr, node: Node, labels: map<int, int>, default: int, n: Labels, k: seq<Instr>, k3: seq<Instr>)
    requires !node.Equal?
    requires var n1 := AfterExpr(e, n);
      var m := if node.Less? then n1 else AfterExpr(e, n1);
      k3 == Branch(node.left, node.right)
            + TreeCode(e, node.left, labels, default, m, TreeCode(e, node.right, labels, default, AfterTree(e, node.left, m), k))
    ensures TreeCode(e, node, labels, default, n, k) == [LBL(node.id), LOAD_INT_LIT(node.value)] + ExprCode(e, n,
      if node.Less? then k3
      else [INT_OP(Eql), JMP(LabelOf(labels, node.value), 1), LOAD_INT_LIT(node.value2)] + ExprCode(e, AfterExpr(e, n), k3))
  {
    hide ExprCode;
  }

  lemma {:induction false} CasesWritten(cases: Cases, labels: map<int, int>, end: int, n: Labels, brk: int, k: seq<Instr>, base: nat,
                                        inLoop: bool, at: Certificate, known: set<int>) returns (at': Certificate)
    requires GoodCases(cases, base, inLoop) && SureCases(cases, known) && Placed(n, AfterCases(cases, n), brk, inLoop, at, known)
    requires forall l <- CaseLabels(cases, labels) :: l in at && at[l] == known
    requires end in at && at[end] <= KnownCases(cases, known) && I.WrittenFirst(k, at, None)
    ensures Grew(at, at', n, AfterCases(cases, n)) && I.WrittenFirst(CasesCode(cases, labels, end, n, brk, k), at', None)
    decreases cases, 0
  {
    at' := at;
    if cases.NoCase? {
      GrewNot(at, n, n);
      return;
    }
    var n1, n', l := AfterStmts(cases.body, n), AfterCases(cases, n), LabelOf(labels, cases.value);
    var ended := KnownAll(cases.body, known);
    StmtsOrdered(cases.body, n);
    CasesOrdered(cases.rest, n1);
    assert l in CaseLabels(cases, labels);
    hide I.WrittenFirst, Free, Grew, Apart, Everything;
    FreeInside(at, n, n1, n', n');
    var at1 := CasesWritten(cases.rest, labels, end, n1, brk, k, base, inLoop, at, known);
    var k1 := CasesCode(cases.rest, labels, end, n1, brk, k);
    GrewAt(at, at1, n1, n', end);
    GrewAt(at, at1, n1, n', l);
    if inLoop { GrewAt(at, at1, n1, n', brk); }
    JumpWritten(end, -1, k1, at1, ended);
    FreeBefore(at, at1, n, n1, n', n');
    at' := StmtsWritten(cases.body, n, brk, [JMP(end, -1)] + k1, base, inLoop, at1, known);
    GrewAt(at1, at', n, n1, l);
    LabelWritten(l, StmtsCode(cases.body, n, brk, [JMP(end, -1)] + k1), at', None);
    GrewBack(at, at1, at', n, n1, n');
  }

  function LabelsBetween(a: int, b: int): (s: set<int>)
    ensures forall l :: l in s <==> a < l <= b
    decreases b - a
  {
    if b <= a then {} else LabelsBetween(a, b - 1) + {b}
  }

  /** All labels of a select at once: the conditional ones know what is known before it, its end what is known behind it. */
  lemma SelectCertified(at: Certificate, n: Labels, m: Labels, known: set<int>, ended: set<int>) returns (at': Certificate)
    requires Free(at, n, m) && Apart(n, m) && m.unconditional == n.unconditional + 1
    ensures Grew(at, at', n, m) && m.unconditional in at' && at'[m.unconditional] == ended
    ensures forall l :: n.conditional < l <= m.conditional ==> l in at' && at'[l] == known
  {
    at' := (at + map l | l in LabelsBetween(n.conditional, m.conditional) :: known)[m.unconditional := ended];
  }

  lemma {:induction false} SelectWritten(s: Stmt, n: Labels, brk: int, k: seq<Instr>, base: nat, inLoop: bool, at: Certificate,
                                         known: set<int>) returns (at': Certificate)
    requires s.Select? && |Values(s.cases)| >= 2
    requires GoodStmt(s, base, inLoop) && Sure(s, known) && Placed(n, AfterStmt(s, n), brk, inLoop, at, known)
    requires I.WrittenFirst(k, at, Some(Known(s, known)))
    ensures Grew(at, at', n, AfterStmt(s, n)) && I.WrittenFirst(StmtCode(s, n, brk, k), at', Some(known))
    decreases s, 4
  {
    var Select(e, cases, other) := s;
    var p, n', ended := Plan(s, n), AfterStmt(s, n), Known(s, known);
    var m, n1 := p.treeStart, p.after;
    var n2 := AfterCases(cases, n1);
    SelectNumbers(s, n);
    CasesOrdered(cases, n1);
    if other.Some? { StmtsOrdered(other.value, n2); }
    var tail := OtherCode(other, n2, p.end, p.default, brk, k);
    var code := CasesCode(cases, p.labels, p.end, n1, brk, tail);
    assert StmtCode(s, n, brk, k) == TreeCode(e, p.root, p.labels, p.default, m, code);
    assert ended <= KnownCases(cases, known);
    assert other.None? ==> ended <= known;
    hide I.WrittenFirst, Free, Grew, Everything, StmtCode, TreeCode, CasesCode, OtherCode, Plan, AfterCases, KnownCases, Known;
    FreeInside(at, n, n, m, n');
    var at0 := SelectCertified(at, n, m, known, ended);
    if inLoop { GrewAt(at, at0, n, m, brk); }
    Grown(k, at, at0, Some(ended), n, m);
    FreeBehind(at, at0, n, n, m, n');
    FreeInside(at0, m, n2, n', n');
    var at1 := OtherWritten(other, n2, n', p.end, p.default, brk, k, base, inLoop, at0, known);
    if inLoop { GrewAt(at0, at1, n2, n', brk); }
    GrewAt(at0, at1, n2, n', p.end);
    FreeInside(at0, m, n1, n', n');
    FreeBefore(at0, at1, n1, n2, n', n');
    forall l | l in CaseLabels(cases, p.labels) ensures l in at1 && at1[l] == known { GrewAt(at0, at1, n2, n', l); }
    var at2 := CasesWritten(cases, p.labels, p.end, n1, brk, tail, base, inLoop, at1, known);
    GrewBack(at0, at1, at2, n1, n2, n');
    SelectTargets(s, n, at0, known);
    TargetsStay(at0, at2, n1, n', p.root, p.labels, p.default, known);
    FreeBefore(at0, at2, m, n1, n', n');
    at' := TreeWritten(e, p.root, p.labels, p.default, m, code, at2, known);
    GrewBack(at0, at2, at', m, n1, n');
    GrewOn(at, at0, at', n, n, m, n');
  }

  lemma SelectTargets(s: Stmt, n: Labels, at: Certificate, known: set<int>)
    requires s.Select? && |Values(s.cases)| >= 2 && Sorted(Values(s.cases))
    requires var m := Plan(s, n).treeStart;
      && (forall l :: n.conditional < l <= m.conditional ==> l in at && at[l] == known)
      && m.unconditional in at && (s.other.None? ==> at[m.unconditional] <= known)
    ensures var p := Plan(s, n); TreeTargets(at, p.root, p.labels, p.default, known)
  {
    SelectNumbers(s, n);
    hide Plan;
  }

  /** What follows the cases of a select. */
  function OtherCode(other: Option<Stmts>, n: Labels, end: int, default: int, brk: int, k: seq<Instr>): seq<Instr> {
    if other.Some? then [LBL(default)] + StmtsCode(other.value, n, brk, [JMP(end, -1), LBL(end)] + k) else [LBL(end)] + k
  }

  lemma {:induction false} OtherWritten(other: Option<Stmts>, n: Labels, n': Labels, end: int, default: int, brk: int, k: seq<Instr>,
                                        base: nat, inLoop: bool, at: Certificate, known: set<int>) returns (at': Certificate)
    requires n' == (if other.Some? then AfterStmts(other.value, n) else n) && Placed(n, n', brk, inLoop, at, known)
    requires other.Some? ==> GoodStmts(other.value, base, inLoop) && SureAll(other.value, known)
    requires end in at && I.WrittenFirst(k, at, Some(at[end]))
    requires other.Some? ==> default in at && at[default] == known && at[end] <= KnownAll(other.value, known)
    ensures Grew(at, at', n, n') && I.WrittenFirst(OtherCode(other, n, end, default, brk, k), at', None)
    decreases other, 1
  {
    hide I.WrittenFirst, Free, Grew, Apart, Everything;
    at' := at;
    GrewNot(at, n, n);
    LabelWritten(end, k, at, None);
    if other.Some? {
      var k1 := [JMP(end, -1)] + ([LBL(end)] + k);
      assert [JMP(end, -1), LBL(end)] + k == k1;
      JumpWritten(end, -1, [LBL(end)] + k, at, KnownAll(other.value, known));
      at' := StmtsWritten(other.value, n, brk, k1, base, inLoop, at, known);
      GrewAt(at, at', n, n', default);
      LabelWritten(default, StmtsCode(other.value, n, brk, k1), at', None);
    }
  }

  lemma {:induction false} SingleWritten(s: Stmt, n: Labels, brk: int, k: seq<Instr>, base: nat, inLoop: bool, at: Certificate,
                                         known: set<int>) returns (at': Certificate)
    requires s.Select? && |Values(s.cases)| < 2
    requires GoodStmt(s, base, inLoop) && Sure(s, known) && Placed(n, AfterStmt(s, n), brk, inLoop, at, known)
    requires I.WrittenFirst(k, at, Some(Known(s, known)))
    ensures Grew(at, at', n, AfterStmt(s, n)) && I.WrittenFirst(StmtCode(s, n, brk, k), at', Some(known))
    decreases s, 4
  {
    var Select(e, cases, other) := s;
    var n1 := SingleStart(other, n);
    var n', ended := AfterStmt(s, n), Known(s, known);
    var end, l := n1.unconditional, if other.Some? then n1.conditional else n1.unconditional;
    SingleFacts(s, known, base, inLoop);
    assert Apart(n, n') && known <= Everything() && (inLoop ==> brk in at && at[brk] <= known) && Free(at, n, n');
    hide *;
    SingleLabels(s, n);
    SingleCode(s, n, brk, k);
    var n2 := AfterExpr(e, n1);
    var n3 := AfterStmts(cases.body, n2);
    var tail := OtherTail(other, n3, end, l, brk, k);
    var body := StmtsCode(cases.body, n2, brk, [JMP(end, -1)] + tail);
    var test := [INT_OP(Eql)] + ([JMP(l, 0)] + body);
    FreeInside(at, n, n, n1, n');
    var at0 := SelectCertified(at, n, n1, known, ended);
    if inLoop { GrewAt(at, at0, n, n1, brk); }
    Grown(k, at, at0, Some(ended), n, n1);
    FreeBehind(at, at0, n, n, n1, n');
    FreeInside(at0, n1, n3, n', n');
    PlacedAt(n3, n', brk, inLoop, at0, known);
    var at1 := TailWritten(other, n3, n', end, l, brk, k, base, inLoop, at0, known);
    if inLoop { GrewAt(at0, at1, n3, n', brk); }
    GrewAt(at0, at1, n3, n', end);
    GrewAt(at0, at1, n3, n', l);
    JumpWritten(end, -1, tail, at1, KnownAll(cases.body, known));
    FreeInside(at0, n1, n2, n', n');
    FreeBefore(at0, at1, n2, n3, n', n');
    PlacedAt(n2, n3, brk, inLoop, at1, known);
    var at2 := StmtsWritten(cases.body, n2, brk, [JMP(end, -1)] + tail, base, inLoop, at1, known);
    GrewAt(at1, at2, n2, n3, l);
    JumpWritten(l, 0, body, at2, known);
    EqualOnly([JMP(l, 0)] + body, at2, known);
    GrewBack(at0, at1, at2, n2, n3, n');
    FreeBefore(at0, at2, n1, n2, n', n');
    at' := ExprWritten(e, n1, test, at2, known);
    LiteralOnly(cases.value, ExprCode(e, n1, test), at', known);
    GrewBack(at0, at2, at', n1, n2, n');
    GrewOn(at, at0, at', n, n, n1, n');
  }

  lemma EqualOnly(k: seq<Instr>, at: Certificate, known: set<int>)
    requires I.WrittenFirst(k, at, Some(known))
    ensures I.WrittenFirst([INT_OP(Eql)] + k, at, Some(known))
  {
    StackOnly(INT_OP(Eql), k, at, known);
  }

  lemma LiteralOnly(v: int, k: seq<Instr>, at: Certificate, known: set<int>)
    requires I.WrittenFirst(k, at, Some(known))
    ensures I.WrittenFirst([LOAD_INT_LIT(v)] + k, at, Some(known))
  {
    StackOnly(LOAD_INT_LIT(v), k, at, known);
  }

  lemma PlacedAt(n: Labels, n': Labels, brk: int, inLoop: bool, at: Certificate, known: set<int>)
    requires Apart(n, n') && Free(at, n, n') && known <= Everything() && (inLoop ==> brk in at && at[brk] <= known)
    ensures Placed(n, n', brk, inLoop, at, known)
  {
  }

  /** What is asked of the parts of a select with one label. */
  lemma SingleFacts(s: Stmt, known: set<int>, base: nat, inLoop: bool)
    requires s.Select? && |Values(s.cases)| < 2 && GoodStmt(s, base, inLoop) && Sure(s, known) && known <= Everything()
    ensures s.cases.Case? && s.cases.rest.NoCase? && ReadsKnown(s.selector, known)
    ensures GoodStmts(s.cases.body, base, inLoop) && SureAll(s.cases.body, known)
    ensures s.other.Some? ==> GoodStmts(s.other.value, base, inLoop) && SureAll(s.other.value, known)
    ensures Known(s, known) <= KnownAll(s.cases.body, known)
    ensures Known(s, known) <= if s.other.Some? then KnownAll(s.other.value, known) else known
  {
    SingleCase(s.cases);
    KnownAllGrows(s.cases.body, known, base, inLoop);
  }

  lemma SingleLabels(s: Stmt, n: Labels)
    requires s.Select? && |Values(s.cases)| < 2 && s.cases.Case? && s.cases.rest.NoCase? && Apart(n, AfterStmt(s, n))
    ensures var n1, n' := SingleStart(s.other, n), AfterStmt(s, n);
      var n2 := AfterExpr(s.selector, n1);
      var n3 := AfterStmts(s.cases.body, n2);
      && Inside(n, n, n1, n') && Inside(n1, n3, n', n') && Inside(n1, n2, n', n') && Inside(n1, n2, n2, n')
      && Inside(n2, n3, n', n') && Inside(n2, n3, n3, n') && Apart(n2, n3) && n' == (if s.other.Some? then AfterStmts(s.other.value, n3) else n3)
      && n1.unconditional == n.unconditional + 1 && (s.other.Some? ==> n1.conditional == n.conditional + 1)
  {
    var n1 := SingleStart(s.other, n);
    var n2 := AfterExpr(s.selector, n1);
    var n3 := AfterStmts(s.cases.body, n2);
    ExprOrdered(s.selector, n1);
    StmtsOrdered(s.cases.body, n2);
    assert AfterCases(s.cases, n2) == n3;
    if s.other.Some? { StmtsOrdered(s.other.value, n3); }
  }

  function OtherTail(other: Option<Stmts>, n: Labels, end: int, default: int, brk: int, k: seq<Instr>): seq<Instr> {
    if other.Some? then [LBL(default)] + StmtsCode(other.value, n, brk, [LBL(end)] + k) else [LBL(end)] + k
  }

  lemma SingleCode(s: Stmt, n: Labels, brk: int, k: seq<Instr>)
    requires s.Select? && |Values(s.cases)| < 2 && s.cases.Case? && s.cases.rest.NoCase?
    ensures var n1 := SingleStart(s.other, n);
      var n2, l := AfterExpr(s.selector, n1), if s.other.Some? then n1.conditional else n1.unconditional;
      var tail := OtherTail(s.other, AfterStmts(s.cases.body, n2), n1.unconditional, l, brk, k);
      StmtCode(s, n, brk, k) == [LOAD_INT_LIT(s.cases.value)] + ExprCode(s.selector, n1,
        [INT_OP(Eql)] + ([JMP(l, 0)] + StmtsCode(s.cases.body, n2, brk, [JMP(n1.unconditional, -1)] + tail)))
  {
    var n1 := SingleStart(s.other, n);
    var n2, l := AfterExpr(s.selector, n1), if s.other.Some? then n1.conditional else n1.unconditional;
    var n3 := AfterStmts(s.cases.body, n2);
    assert AfterCases(s.cases, n2) == n3;
    hide ExprCode, StmtsCode;
    var body := StmtsCode(s.cases.body, n2, brk, SingleTail(s.other, n1, n3, brk, k));
    assert [INT_OP(Eql), JMP(l, 0)] + body == [INT_OP(Eql)] + ([JMP(l, 0)] + body);
  }

  lemma {:induction false} TailWritten(other: Option<Stmts>, n: Labels, n': Labels, end: int, default: int, brk: int, k: seq<Instr>,
                                       base: nat, inLoop: bool, at: Certificate, known: set<int>) returns (at': Certificate)
    requires n' == (if other.Some? then AfterStmts(other.value, n) else n) && Placed(n, n', brk, inLoop, at, known)
    requires other.Some? ==> GoodStmts(other.value, base, inLoop) && SureAll(other.value, known)
    requires end in at && I.WrittenFirst(k, at, Some(at[end]))
    requires other.Some? ==> default in at && at[default] == known && at[end] <= KnownAll(other.value, known)
    ensures Grew(at, at', n, n') && I.WrittenFirst(OtherTail(other, n, end, default, brk, k), at', None)
    decreases other, 1
  {
    hide I.WrittenFirst, Free, Grew, Apart, Everything;
    at' := at;
    GrewNot(at, n, n);
    if other.Some? {
      LabelWritten(end, k, at, Some(KnownAll(other.value, known)));
      at' := StmtsWritten(other.value, n, brk, [LBL(end)] + k, base, inLoop, at, known);
      GrewAt(at, at', n, n', default);
      LabelWritten(default, StmtsCode(other.value, n, brk, [LBL(end)] + k), at', None);
    } else {
      LabelWritten(end, k, at, None);
    }
  }

  // ----- A method -----

  lemma {:induction false} PrologueWritten(params: seq<int>, k: seq<Instr>, at: Certificate, known: set<int>)
    requires I.WrittenFirst(k, at, Some(known + set x | x in params))
    ensures I.WrittenFirst(Prologue(params, k), at, Some(known))
    decreases |params|
  {
    if params == [] {
      assert known + (set x | x in params) == known;
    } else {
      var last := |params| - 1;
      var rest, x := params[..last], params[last];
      assert params == rest + [x];
      assert known + {x} + (set y | y in rest) == known + set y | y in params;
      PrologueWritten(rest, k, at, known + {x});
      StoreWritten(x, Prologue(rest, k), at, known);
    }
  }

  /** Emitted code writes every local before it reads it if the method assigns every variable first. */
  lemma RoutineWrites(r: Routine, n: Labels, base: nat)
    requires GoodRoutine(r, base) && Apart(n, AfterStmts(r.body, n)) && SureRoutine(r)
    ensures I.WritesBeforeReads(RoutineCode(r, n))
  {
    var known, end := (set x | x in r.params), Epilogue(r);
    assert known <= Everything();
    var at: Certificate := map[];
    EpilogueWritten(r, at, KnownAll(r.body, known));
    assert Free(at, n, AfterStmts(r.body, n));
    hide I.WrittenFirst, Free, Grew, Everything, StmtsCode, Prologue;
    var at' := StmtsWritten(r.body, n, 0, end, base, false, at, known);
    assert {} + known == known;
    PrologueWritten(r.params, StmtsCode(r.body, n, 0, end), at', {});
  }

  lemma EpilogueWritten(r: Routine, at: Certificate, known: set<int>)
    ensures I.WrittenFirst(Epilogue(r), at, Some(known))
  {
    S.WrittenStep(RTRN, [], at, Some(known));
    assert [RTRN] + [] == [RTRN];
    var return' := if LastReturns(r.body) then [] else [RTRN];
    assert I.WrittenFirst([], at, Some(known));
    if r.constructs {
      StackOnly(LOAD_INST_MEM, return', at, known);
    } else {
      assert Epilogue(r) == return';
    }
  }
}
