// Expression code leaves the value the expression has, on top of the stack it found.

module ExprMeaning {
  import opened Wrappers
  import opened Words
  import opened Bytecode
  import opened Source
  import opened Emission
  import opened Discipline
  import opened Placement

  // ----- Single steps of a run -----

  lemma Do(a: Activation, i: Instr, k: seq<Instr>, m: Machine, fuel: nat)
    requires !IsControl(i)
    ensures var s := Step(a.host, i, m);
      Run(a, [i] + k, m, fuel) == if s.None? then Fault else Run(a, k, s.value, fuel)
  {
    hide Step;
    assert ([i] + k)[1..] == k;
  }

  lemma PassLabel(a: Activation, l: int, k: seq<Instr>, m: Machine, fuel: nat)
    ensures Run(a, [LBL(l)] + k, m, fuel) == Run(a, k, m, fuel)
  {
    assert ([LBL(l)] + k)[1..] == k;
  }

  /** Where a jump over k to the code x leads. */
  function Onward(a: Activation, k: seq<Instr>, x: seq<Instr>, m: Machine, fuel: nat): Outcome {
    if |x| <= |k| then Run(a, x, m, fuel)
    else if fuel == 0 then Timeout
    else Run(a, x, m, fuel - 1)
  }

  lemma JumpTo(a: Activation, l: int, k: seq<Instr>, x: seq<Instr>, m: Machine, fuel: nat)
    requires AfterLabel(a.code, l) == Some(x)
    ensures Run(a, [JMP(l, -1)] + k, m, fuel) == Onward(a, k, x, m, fuel)
  {
    assert ([JMP(l, -1)] + k)[1..] == k;
  }

  lemma BranchTo(a: Activation, l: int, cond: int, k: seq<Instr>, x: seq<Instr>, m: Machine, fuel: nat)
    requires AfterLabel(a.code, l) == Some(x) && cond >= 0 && |m.stack| > 0
    ensures var m1 := m.(stack := m.stack[1..]);
      Run(a, [JMP(l, cond)] + k, m, fuel) ==
        if m.stack[0] == cond then Onward(a, k, x, m1, fuel) else Run(a, k, m1, fuel)
  {
    assert ([JMP(l, cond)] + k)[1..] == k;
  }

  // ----- Source and machine -----

  /** Slots from base on hold the variables. */
  ghost predicate Agree(env: Env, m: Machine, base: nat) {
    && |env.vars| == |m.locals| == LOCAL_WORDS && env.inst == m.inst && env.heap == m.heap && env.ext == m.ext
    && forall x {:trigger m.locals[x]} :: base <= x < LOCAL_WORDS ==> env.vars[x] == m.locals[x]
  }

  predicate SameFrame(m: Machine, m': Machine) {
    m'.inst == m.inst && m'.cls == m.cls
  }

  /** The code in front of k leaves the value r in m', or faults if there is none. */
  ghost predicate Computes(a: Activation, r: Option<(int, Env)>, code: seq<Instr>, m: Machine, m': Machine, fuel: nat,
                           k: seq<Instr>, base: nat) {
    if r.None? then Run(a, code, m, fuel) == Fault
    else
      && Run(a, code, m, fuel) == Run(a, k, m', fuel)
      && Agree(r.value.1, m', base) && SameFrame(m, m') && m'.stack == [r.value.0] + m.stack
  }

  /** Code that can be run and analysed: its labels are placed once. */
  ghost predicate Runnable(a: Activation) {
    OneWord(a.host) && Fine(a.code)
  }

  /** The word of one way is stored and loaded again where both ways meet. */
  lemma Reload(a: Activation, u: int, k: seq<Instr>, env: Env, m: Machine, fuel: nat) returns (m': Machine)
    requires Agree(env, m, 1) && |m.stack| > 0
    ensures Run(a, [SCRATCH, LBL(u), RESULT] + k, m, fuel) == Run(a, k, m', fuel)
    ensures Agree(env, m', 1) && SameFrame(m, m') && m'.stack == m.stack
    ensures m' == m.(locals := m.locals[0 := m.stack[0]])
  {
    hide Run;
    m' := m.(locals := m.locals[0 := m.stack[0]]);
    assert [SCRATCH, LBL(u), RESULT] + k == [SCRATCH] + ([LBL(u)] + ([RESULT] + k));
    Do(a, SCRATCH, [LBL(u)] + ([RESULT] + k), m, fuel);
    var m1 := m'.(stack := m.stack[1..]);
    PassLabel(a, u, [RESULT] + k, m1, fuel);
    Do(a, RESULT, k, m1, fuel);
    assert [m.stack[0]] + m.stack[1..] == m.stack;
  }

  /** The other way stores its word and jumps to the meeting point. */
  lemma Meet(a: Activation, u: int, k: seq<Instr>, x: seq<Instr>, env: Env, m: Machine, fuel: nat) returns (m': Machine)
    requires Agree(env, m, 1) && |m.stack| > 0 && AfterLabel(a.code, u) == Some([RESULT] + k) && |k| < |x|
    ensures Run(a, [SCRATCH, JMP(u, -1)] + x, m, fuel) == Run(a, k, m', fuel)
    ensures Agree(env, m', 1) && SameFrame(m, m') && m'.stack == m.stack
  {
    hide Run;
    m' := m.(locals := m.locals[0 := m.stack[0]]);
    var m1 := m'.(stack := m.stack[1..]);
    assert [SCRATCH, JMP(u, -1)] + x == [SCRATCH] + ([JMP(u, -1)] + x);
    Do(a, SCRATCH, [JMP(u, -1)] + x, m, fuel);
    JumpTo(a, u, x, [RESULT] + k, m1, fuel);
    Do(a, RESULT, k, m1, fuel);
    assert [m.stack[0]] + m.stack[1..] == m.stack;
  }

  /** Where the labels of a logic or conditional expression lie, given its last part. */
  lemma MeetingPoint(a: Activation, u: int, k: seq<Instr>)
    requires Fine(a.code) && IsSuffix([SCRATCH, LBL(u), RESULT] + k, a.code)
    ensures AfterLabel(a.code, u) == Some([RESULT] + k)
  {
    assert [SCRATCH, LBL(u), RESULT] + k == [SCRATCH] + ([LBL(u)] + ([RESULT] + k));
    Behind([SCRATCH], [LBL(u)] + ([RESULT] + k), a.code);
    Lands(a.code, u, [RESULT] + k);
  }

  lemma EffectStep(h: Host, number: int, m: Machine)
    requires OneWord(h)
    ensures var r, s := h.other(EffectCode(number), [], m.heap, m.ext), Step(h, EffectCode(number), m);
      if r.None? then s.None?
      else |r.value.stack| == 1
           && s == Some(m.(stack := [r.value.stack[0]] + m.stack, heap := r.value.heap, ext := r.value.ext))
  {
    var r := h.other(EffectCode(number), [], m.heap, m.ext);
    assert h.other(EffectCode(number), m.stack, m.heap, m.ext) ==
      if r.None? then None else Some(r.value.(stack := r.value.stack + m.stack));
    if r.Some? { assert r.value.stack == [r.value.stack[0]]; }
  }

  /** Every expression: literals, variables, arithmetic, short-circuit and conditional. */
  lemma {:induction false} ExprComputes(a: Activation, e: Expr, n: Labels, k: seq<Instr>, env: Env, m: Machine, fuel: nat, base: nat)
    returns (m': Machine)
    requires Runnable(a) && IsSuffix(ExprCode(e, n, k), a.code) && GoodExpr(e, base) && Agree(env, m, base)
    ensures Computes(a, Eval(a.host, e, env), ExprCode(e, n, k), m, m', fuel, k, base)
    decreases e, 1
  {
    hide Run, Fine, OneWord, Step, EvalInt;
    m' := m;
    match e
    case IntLit(v) =>
      Do(a, LOAD_INT_LIT(v), k, m, fuel);
      m' := m.(stack := [v] + m.stack);
      Literal(a.host, v, m);
    case Variable(x) =>
      Do(a, LOAD_INT_VAR(x, LOCL), k, m, fuel);
      m' := m.(stack := [m.locals[x]] + m.stack);
      Loaded(a.host, x, m);
    case Field(x) => m' := FieldComputes(a, x, k, m, fuel);
    case Effect(number) =>
      Do(a, EffectCode(number), k, m, fuel);
      EffectStep(a.host, number, m);
      var r := a.host.other(EffectCode(number), [], m.heap, m.ext);
      if r.Some? {
        m' := m.(stack := [r.value.stack[0]] + m.stack, heap := r.value.heap, ext := r.value.ext);
      }
    case Calculated(op, left, right) => m' := CalculatedComputes(a, e, n, k, env, m, fuel, base);
    case Logic(isAnd, right, left) => m' := LogicComputes(a, e, n, k, env, m, fuel, base);
    case Cond(test, yes, no) => m' := CondComputes(a, e, n, k, env, m, fuel, base);
  }

  /** A field is loaded from the instance; without one the machine faults. */
  lemma FieldComputes(a: Activation, x: int, k: seq<Instr>, m: Machine, fuel: nat) returns (m': Machine)
    ensures m' == m.(stack := [HeapGet(m.heap, (m.inst, x))] + m.stack)
    ensures Run(a, [LOAD_INST_MEM, LOAD_INT_VAR(x, INST)] + k, m, fuel) == if m.inst == 0 then Fault else Run(a, k, m', fuel)
  {
    hide Run;
    m' := m.(stack := [HeapGet(m.heap, (m.inst, x))] + m.stack);
    var m1, load := m.(stack := [m.inst] + m.stack), [LOAD_INT_VAR(x, INST)] + k;
    assert [LOAD_INST_MEM, LOAD_INT_VAR(x, INST)] + k == [LOAD_INST_MEM] + load;
    assert m1.stack[1..] == m.stack;
    Do(a, LOAD_INST_MEM, load, m, fuel);
    Do(a, LOAD_INT_VAR(x, INST), k, m1, fuel);
  }

  lemma Literal(h: Host, v: int, m: Machine)
    ensures Step(h, LOAD_INT_LIT(v), m) == Some(m.(stack := [v] + m.stack))
  {
  }

  lemma Loaded(h: Host, x: int, m: Machine)
    requires 0 <= x < |m.locals|
    ensures Step(h, LOAD_INT_VAR(x, LOCL), m) == Some(m.(stack := [m.locals[x]] + m.stack))
  {
  }

  lemma Calculates(h: Host, op: IntOp, m: Machine, l: int, r: int, rest: seq<int>)
    requires m.stack == [l] + ([r] + rest)
    ensures var v := EvalInt(op, l, r);
      Step(h, INT_OP(op), m) == if v.None? then None else Some(m.(stack := [v.value] + rest))
  {
    hide EvalInt;
    assert m.stack[0] == l && m.stack[1] == r && m.stack[2..] == rest;
  }

  lemma {:induction false} CalculatedComputes(a: Activation, e: Expr, n: Labels, k: seq<Instr>, env: Env, m: Machine, fuel: nat,
                                              base: nat) returns (m': Machine)
    requires e.Calculated?
    requires Runnable(a) && IsSuffix(ExprCode(e, n, k), a.code) && GoodExpr(e, base) && Agree(env, m, base)
    ensures Computes(a, Eval(a.host, e, env), ExprCode(e, n, k), m, m', fuel, k, base)
    decreases e, 0
  {
    hide Run, Fine, OneWord, Step, EvalInt;
    m' := m;
    var Calculated(op, left, right) := e;
    var n1 := AfterExpr(right, n);
    var k1 := [INT_OP(op)] + k;
    var k2 := ExprCode(left, n1, k1);
    ExprEnds(right, n, k2);
    Within(k2, ExprCode(right, n, k2), a.code);
    var m1 := ExprComputes(a, right, n, k2, env, m, fuel, base);
    var r := Eval(a.host, right, env);
    if r.Some? {
      var m2 := ExprComputes(a, left, n1, k1, r.value.1, m1, fuel, base);
      var l := Eval(a.host, left, r.value.1);
      if l.Some? {
        Do(a, INT_OP(op), k, m2, fuel);
        Calculates(a.host, op, m2, l.value.0, r.value.0, m.stack);
        var v := EvalInt(op, l.value.0, r.value.0);
        if v.Some? { m' := m2.(stack := [v.value] + m.stack); }
      }
    }
  }

  lemma Popped(v: int, rest: seq<int>)
    ensures ([v] + rest)[1..] == rest
  {
  }

  /** The second operand runs, or the first one already decides. */
  lemma {:induction false} LogicComputes(a: Activation, e: Expr, n: Labels, k: seq<Instr>, env: Env, m: Machine, fuel: nat,
                                         base: nat) returns (m': Machine)
    requires e.Logic?
    requires Runnable(a) && IsSuffix(ExprCode(e, n, k), a.code) && GoodExpr(e, base) && Agree(env, m, base)
    ensures Computes(a, Eval(a.host, e, env), ExprCode(e, n, k), m, m', fuel, k, base)
    decreases e, 0
  {
    hide Run, Fine, OneWord, Step, AfterExpr, IsSuffix;
    m' := m;
    var Logic(isAnd, right, left) := e;
    var n1 := AfterExpr(right, n).NextConditional().NextUnconditional();
    var c, u := n1.conditional, n1.unconditional;
    var k1 := [SCRATCH, LBL(u), RESULT] + k;
    var k2 := ExprCode(left, n1, k1);
    var k3 := [SCRATCH, JMP(u, -1)] + ([LBL(c)] + k2);
    var k4 := [LOAD_INT_LIT(Bool(!isAnd))] + k3;
    var k5 := LogicMiddle(isAnd, n1) + k2;
    assert k5 == [JMP(c, Bool(isAnd))] + k4;
    LogicPlaced(a, e, n, k, n1, k2, k5);
    var m1 := ExprComputes(a, right, n, k5, env, m, fuel, base);
    var r := Eval(a.host, right, env);
    if r.None? { return; }
    BranchTo(a, c, Bool(isAnd), k4, k2, m1, fuel);
    Popped(r.value.0, m.stack);
    var m2 := m1.(stack := m.stack);
    if r.value.0 == Bool(isAnd) {
      var m3 := ExprComputes(a, left, n1, k1, r.value.1, m2, fuel, base);
      var l := Eval(a.host, left, r.value.1);
      if l.Some? { m' := Reload(a, u, k, l.value.1, m3, fuel); }
    } else {
      Do(a, LOAD_INT_LIT(Bool(!isAnd)), k3, m2, fuel);
      Literal(a.host, Bool(!isAnd), m2);
      var m3 := m2.(stack := [Bool(!isAnd)] + m.stack);
      m' := Meet(a, u, k, [LBL(c)] + k2, r.value.1, m3, fuel);
    }
  }

  lemma LogicUnfolds(e: Expr, n: Labels, k: seq<Instr>, n1: Labels, k2: seq<Instr>, k5: seq<Instr>)
    requires e.Logic? && n1 == AfterExpr(e.right, n).NextConditional().NextUnconditional()
    requires k2 == ExprCode(e.left, n1, [SCRATCH, LBL(n1.unconditional), RESULT] + k) && k5 == LogicMiddle(e.isAnd, n1) + k2
    ensures ExprCode(e, n, k) == ExprCode(e.right, n, k5)
  {
  }

  lemma LogicPlaced(a: Activation, e: Expr, n: Labels, k: seq<Instr>, n1: Labels, k2: seq<Instr>, k5: seq<Instr>)
    requires e.Logic? && Fine(a.code) && IsSuffix(ExprCode(e, n, k), a.code)
    requires n1 == AfterExpr(e.right, n).NextConditional().NextUnconditional()
    requires k2 == ExprCode(e.left, n1, [SCRATCH, LBL(n1.unconditional), RESULT] + k) && k5 == LogicMiddle(e.isAnd, n1) + k2
    ensures ExprCode(e, n, k) == ExprCode(e.right, n, k5) && IsSuffix(k2, a.code) && |k2| > |k|
    ensures AfterLabel(a.code, n1.conditional) == Some(k2) && AfterLabel(a.code, n1.unconditional) == Some([RESULT] + k)
  {
    hide *;
    var k1 := [SCRATCH, LBL(n1.unconditional), RESULT] + k;
    LogicUnfolds(e, n, k, n1, k2, k5);
    ExprEnds(e.right, n, k5);
    Within(k5, ExprCode(e, n, k), a.code);
    MiddlePlaced(a.code, e.isAnd, n1, k2);
    ExprEnds(e.left, n1, k1);
    NoLonger(k1, k2);
    Within(k1, k2, a.code);
    MeetingPoint(a, n1.unconditional, k);
  }

  lemma NoLonger(x: seq<Instr>, code: seq<Instr>)
    requires IsSuffix(x, code)
    ensures |x| <= |code|
  {
  }

  lemma MiddlePlaced(code: seq<Instr>, isAnd: bool, n1: Labels, k2: seq<Instr>)
    requires Fine(code) && IsSuffix(LogicMiddle(isAnd, n1) + k2, code)
    ensures IsSuffix(k2, code) && AfterLabel(code, n1.conditional) == Some(k2)
  {
    hide Fine, AfterLabel, IsSuffix;
    var head := LogicMiddle(isAnd, n1)[..4];
    assert LogicMiddle(isAnd, n1) + k2 == head + ([LBL(n1.conditional)] + k2);
    Behind(head, [LBL(n1.conditional)] + k2, code);
    Lands(code, n1.conditional, k2);
    Behind([LBL(n1.conditional)], k2, code);
  }

  lemma {:induction false} CondComputes(a: Activation, e: Expr, n: Labels, k: seq<Instr>, env: Env, m: Machine, fuel: nat,
                                        base: nat) returns (m': Machine)
    requires e.Cond?
    requires Runnable(a) && IsSuffix(ExprCode(e, n, k), a.code) && GoodExpr(e, base) && Agree(env, m, base)
    ensures Computes(a, Eval(a.host, e, env), ExprCode(e, n, k), m, m', fuel, k, base)
    decreases e, 0
  {
    hide Run, Fine, OneWord, Step, AfterExpr, IsSuffix;
    m' := m;
    var Cond(test, yes, no) := e;
    var n1 := n.NextUnconditional();
    var n2 := AfterExpr(test, n1).NextConditional();
    var c, u := n2.conditional, n1.unconditional;
    var k1 := [SCRATCH, LBL(u), RESULT] + k;
    var k2 := ExprCode(no, AfterExpr(yes, n2), k1);
    var k3 := CondMiddle(n1, n2) + k2;
    var k4 := ExprCode(yes, n2, k3);
    var k5 := [JMP(c, 0)] + k4;
    CondPlaced(a, e, n, k, n2, k2, k3, k4, k5);
    var m1 := ExprComputes(a, test, n1, k5, env, m, fuel, base);
    var r := Eval(a.host, test, env);
    if r.None? { return; }
    BranchTo(a, c, 0, k4, k2, m1, fuel);
    Popped(r.value.0, m.stack);
    var m2 := m1.(stack := m.stack);
    if r.value.0 == 0 {
      var m3 := ExprComputes(a, no, AfterExpr(yes, n2), k1, r.value.1, m2, fuel, base);
      var v := Eval(a.host, no, r.value.1);
      if v.Some? { m' := Reload(a, u, k, v.value.1, m3, fuel); }
    } else {
      var m3 := ExprComputes(a, yes, n2, k3, r.value.1, m2, fuel, base);
      var v := Eval(a.host, yes, r.value.1);
      assert k3 == [SCRATCH, JMP(u, -1)] + ([LBL(c)] + k2);
      if v.Some? { m' := Meet(a, u, k, [LBL(c)] + k2, v.value.1, m3, fuel); }
    }
  }

  lemma CondPlaced(a: Activation, e: Expr, n: Labels, k: seq<Instr>, n2: Labels, k2: seq<Instr>, k3: seq<Instr>, k4: seq<Instr>,
                   k5: seq<Instr>)
    requires e.Cond? && Fine(a.code) && IsSuffix(ExprCode(e, n, k), a.code)
    requires n2 == AfterExpr(e.test, n.NextUnconditional()).NextConditional()
    requires k2 == ExprCode(e.no, AfterExpr(e.yes, n2), [SCRATCH, LBL(n.unconditional + 1), RESULT] + k)
    requires k3 == CondMiddle(n.NextUnconditional(), n2) + k2 && k4 == ExprCode(e.yes, n2, k3)
    requires k5 == [JMP(n2.conditional, 0)] + k4
    ensures ExprCode(e, n, k) == ExprCode(e.test, n.NextUnconditional(), k5)
    ensures IsSuffix(k2, a.code) && IsSuffix(k4, a.code) && |k2| > |k| && |k4| >= |k2|
    ensures AfterLabel(a.code, n2.conditional) == Some(k2) && AfterLabel(a.code, n.unconditional + 1) == Some([RESULT] + k)
  {
    hide Fine, AfterLabel, AfterExpr;
    assert ExprCode(e, n, k) == ExprCode(e.test, n.NextUnconditional(), k5);
    hide ExprCode;
    ExprEnds(e.test, n.NextUnconditional(), k5);
    Within(k5, ExprCode(e, n, k), a.code);
    Behind([JMP(n2.conditional, 0)], k4, a.code);
    ExprEnds(e.yes, n2, k3);
    Within(k3, k4, a.code);
    OtherwisePlaced(a, e.no, AfterExpr(e.yes, n2), n.NextUnconditional(), n2, k, k2);
  }

  lemma OtherwisePlaced(a: Activation, e: Expr, n: Labels, n1: Labels, n2: Labels, k: seq<Instr>, k2: seq<Instr>)
    requires Fine(a.code) && IsSuffix(CondMiddle(n1, n2) + k2, a.code)
    requires k2 == ExprCode(e, n, [SCRATCH, LBL(n1.unconditional), RESULT] + k)
    ensures IsSuffix(k2, a.code) && |k2| > |k|
    ensures AfterLabel(a.code, n2.conditional) == Some(k2) && AfterLabel(a.code, n1.unconditional) == Some([RESULT] + k)
  {
    hide Fine, AfterLabel, ExprCode;
    var c, u, k1 := n2.conditional, n1.unconditional, [SCRATCH, LBL(n1.unconditional), RESULT] + k;
    assert CondMiddle(n1, n2) + k2 == [SCRATCH, JMP(u, -1)] + ([LBL(c)] + k2);
    Behind([SCRATCH, JMP(u, -1)], [LBL(c)] + k2, a.code);
    Lands(a.code, c, k2);
    Behind([LBL(c)], k2, a.code);
    ExprEnds(e, n, k1);
    Within(k1, k2, a.code);
    MeetingPoint(a, u, k);
  }

  function Reversed(s: seq<int>): seq<int> {
    if s == [] then [] else [s[|s| - 1]] + Reversed(s[..|s| - 1])
  }

  lemma {:induction false} ReversedFirst(v: int, s: seq<int>)
    ensures Reversed([v] + s) == Reversed(s) + [v]
  {
    var t := [v] + s;
    if s == [] {
      assert t[..0] == [];
    } else {
      assert t[..|t| - 1] == [v] + s[..|s| - 1] && t[|t| - 1] == s[|s| - 1];
      ReversedFirst(v, s[..|s| - 1]);
    }
  }

  /** Argument code leaves the values, the last one on top. */
  lemma {:induction false} ArgsCompute(a: Activation, args: seq<Expr>, n: Labels, k: seq<Instr>, env: Env, m: Machine, fuel: nat,
                                       base: nat) returns (m': Machine)
    requires Runnable(a) && IsSuffix(ArgsCode(args, n, k), a.code) && (forall e <- args :: GoodExpr(e, base)) && Agree(env, m, base)
    ensures var r := EvalAll(a.host, args, env);
      if r.None? then Run(a, ArgsCode(args, n, k), m, fuel) == Fault
      else
        && Run(a, ArgsCode(args, n, k), m, fuel) == Run(a, k, m', fuel)
        && Agree(r.value.1, m', base) && SameFrame(m, m') && m'.stack == Reversed(r.value.0) + m.stack
  {
    hide Run, Fine, OneWord, ExprCode, Eval, GoodExpr;
    m' := m;
    if args == [] {
      assert Reversed([]) + m.stack == m.stack;
      return;
    }
    var n1 := AfterExpr(args[0], n);
    var k1 := ArgsCode(args[1..], n1, k);
    ExprEnds(args[0], n, k1);
    Within(k1, ArgsCode(args, n, k), a.code);
    assert args[0] in args;
    var m1 := ExprComputes(a, args[0], n, k1, env, m, fuel, base);
    var v := Eval(a.host, args[0], env);
    if v.Some? {
      m' := ArgsCompute(a, args[1..], n1, k, v.value.1, m1, fuel, base);
      var rest := EvalAll(a.host, args[1..], v.value.1);
      if rest.Some? {
        ReversedFirst(v.value.0, rest.value.0);
        assert Reversed(rest.value.0) + ([v.value.0] + m.stack) == Reversed(rest.value.0) + [v.value.0] + m.stack;
      }
    }
  }
}
