// Statement code does what the statement does: it reaches the same end with the same locals,
// leaves the operand stack as it found it, and breaks to the label at the top of the break stack.

module StmtMeaning {
  import opened Wrappers
  import opened Words
  import opened Bytecode
  import opened Simulation
  import opened Source
  import opened Emission
  import opened Discipline
  import opened StmtDiscipline
  import opened Placement
  import opened ExprMeaning
  import opened SelectMeaning

  /** Running code in front of k from m comes to what r says, in m'. */
  ghost predicate Follows(a: Activation, r: Result, code: seq<Instr>, m: Machine, m': Machine, fuel: nat, k: seq<Instr>, brk: int,
                          base: nat) {
    match r
    case Normal(env, f) => Run(a, code, m, fuel) == Run(a, k, m', f) && Untouched(env, m, m', base)
    case Broke(env, f) => Run(a, code, m, fuel) == Run(a, At(a.code, brk), m', f) && Untouched(env, m, m', base)
    case Returned(values, env, f) =>
      && Run(a, code, m, fuel) == Done(m', f)
      && Agree(env, m', base) && SameFrame(m, m') && m'.stack == values + m.stack
    case Crash => Run(a, code, m, fuel) == Fault
    case Out => Run(a, code, m, fuel) == Timeout
    case Wrong => true
  }

  /** What a caller sees of a source method's result. */
  ghost predicate SameResult(r: Result, o: Outcome, rest: seq<int>) {
    match r
    case Returned(values, env, f) =>
      o.Done? && o.fuel == f && o.m.stack == values + rest && o.m.heap == env.heap && o.m.ext == env.ext
    case Crash => o.Fault?
    case Out => o.Timeout?
    case Wrong => true
    case Normal(_, _) => false
    case Broke(_, _) => false
  }

  /** The methods of the program return what the source methods return, one call level further down. */
  ghost predicate ServesCalls(a: Activation, w: World) {
    && (forall id :: id in w.methods <==> id in a.program)
    && (forall id :: id in a.program ==> (a.program[id].virtual <==> w.methods[id].None?))
    && forall id: MethodId, args: seq<int>, m: Machine, rest: seq<int>, fuel: nat :: Served(a, w, id, args, m, rest, fuel)
  }

  ghost predicate Served(a: Activation, w: World, id: MethodId, args: seq<int>, m: Machine, rest: seq<int>, fuel: nat) {
    id in a.program && a.depth > 0 && Entered(w, id, args, m, rest) ==>
      SameResult(Invoke(w.(depth := w.depth - 1), w.methods[id].value, args, Env(m.locals, m.inst, m.heap, m.ext), fuel),
                 RunBody(a.host, a.program, a.program[id].code, m, fuel, a.depth - 1), rest)
  }

  /** A machine that starts method id with these arguments on top of rest. */
  predicate Entered(w: World, id: MethodId, args: seq<int>, m: Machine, rest: seq<int>) {
    && w.depth > 0 && id in w.methods && w.methods[id].Some? && Takes(w.methods[id].value, args)
    && |m.locals| == LOCAL_WORDS && m.stack == Reversed(args) + rest
  }

  ghost predicate Serves(a: Activation, w: World) {
    a.host == w.host && a.depth == w.depth && ServesCalls(a, w)
  }

  /** Statements that may be left by a break know where to. */
  ghost predicate Breakable(a: Activation, brk: int, k: seq<Instr>, inLoop: bool) {
    inLoop ==> Ahead(a.code, brk, k)
  }

  lemma FollowsOn(a: Activation, r: Result, code: seq<Instr>, m: Machine, fuel: nat, code1: seq<Instr>, m1: Machine, fuel1: nat,
                  m': Machine, k: seq<Instr>, brk: int, base: nat)
    requires Run(a, code, m, fuel) == Run(a, code1, m1, fuel1) && SameFrame(m, m1) && m1.stack == m.stack
    requires Follows(a, r, code1, m1, m', fuel1, k, brk, base)
    ensures Follows(a, r, code, m, m', fuel, k, brk, base)
  {
    hide Run;
  }

  /** Where falling through k1 is as good as being at k. */
  lemma FallsTo(a: Activation, r: Result, code: seq<Instr>, m: Machine, m': Machine, fuel: nat, k1: seq<Instr>, k: seq<Instr>,
                brk: int, base: nat)
    requires Follows(a, r, code, m, m', fuel, k1, brk, base)
    requires r.Normal? ==> Run(a, k1, m', r.fuel) == Run(a, k, m', r.fuel)
    ensures Follows(a, r, code, m, m', fuel, k, brk, base)
  {
    hide Run;
  }

  lemma Longer(a: Activation, brk: int, k: seq<Instr>, k1: seq<Instr>, inLoop: bool)
    requires Breakable(a, brk, k, inLoop) && |k| <= |k1|
    ensures Breakable(a, brk, k1, inLoop)
  {
  }

  // ----- Simple statements -----

  lemma Stored(h: Host, x: int, v: int, m: Machine, rest: seq<int>, env: Env, base: nat)
    requires m.stack == [v] + rest && base <= x < LOCAL_WORDS && Agree(env, m, base)
    ensures InRange(env, x)
    ensures var m' := m.(stack := rest, locals := m.locals[x := v]);
      Step(h, STOR_INT_VAR(x, LOCL), m) == Some(m') && Agree(Store(env, x, v), m', base)
  {
  }

  lemma AssignFollows(a: Activation, w: World, s: Stmt, n: Labels, brk: int, k: seq<Instr>, env: Env, m: Machine, fuel: nat, base: nat,
                      inLoop: bool) returns (m': Machine)
    requires s.Assign? && Runnable(a) && Serves(a, w) && GoodStmt(s, base, inLoop) && Agree(env, m, base)
    requires IsSuffix(StmtCode(s, n, brk, k), a.code)
    ensures Follows(a, Exec(w, s, env, fuel), StmtCode(s, n, brk, k), m, m', fuel, k, brk, base)
  {
    hide ServesCalls, Run, Fine, OneWord, ExprCode, IsSuffix, Eval, GoodExpr, Step;
    var k1 := [STOR_INT_VAR(s.slot, LOCL)] + k;
    m' := ExprComputes(a, s.value, n, k1, env, m, fuel, base);
    var r := Eval(a.host, s.value, env);
    if r.Some? {
      Stored(a.host, s.slot, r.value.0, m', m.stack, r.value.1, base);
      Do(a, STOR_INT_VAR(s.slot, LOCL), k, m', fuel);
      m' := m'.(stack := m.stack, locals := m'.locals[s.slot := r.value.0]);
    }
  }

  lemma OpAssignFollows(a: Activation, w: World, s: Stmt, n: Labels, brk: int, k: seq<Instr>, env: Env, m: Machine, fuel: nat, base: nat,
                        inLoop: bool) returns (m': Machine)
    requires s.OpAssign? && Runnable(a) && Serves(a, w) && GoodStmt(s, base, inLoop) && Agree(env, m, base)
    requires IsSuffix(StmtCode(s, n, brk, k), a.code)
    ensures Follows(a, Exec(w, s, env, fuel), StmtCode(s, n, brk, k), m, m', fuel, k, brk, base)
  {
    hide ServesCalls, Run, Fine, OneWord, ExprCode, IsSuffix, Eval, GoodExpr, Step, EvalInt;
    var OpAssign(op, x, e) := s;
    var k3 := [STOR_INT_VAR(x, LOCL)] + k;
    var k2 := [INT_OP(op)] + k3;
    var k1 := [LOAD_INT_VAR(x, LOCL), INT_OP(op), STOR_INT_VAR(x, LOCL)] + k;
    assert k1 == [LOAD_INT_VAR(x, LOCL)] + k2;
    m' := ExprComputes(a, e, n, k1, env, m, fuel, base);
    var r := Eval(a.host, e, env);
    if r.None? { return; }
    var old', m1 := m'.locals[x], m';
    Do(a, LOAD_INT_VAR(x, LOCL), k2, m1, fuel);
    Loaded(a.host, x, m1);
    var m2 := m1.(stack := [old'] + m1.stack);
    Do(a, INT_OP(op), k3, m2, fuel);
    Calculates(a.host, op, m2, old', r.value.0, m.stack);
    var v := EvalInt(op, old', r.value.0);
    if v.None? { return; }
    var m3 := m2.(stack := [v.value] + m.stack);
    Stored(a.host, x, v.value, m3, m.stack, r.value.1, base);
    Do(a, STOR_INT_VAR(x, LOCL), k, m3, fuel);
    m' := m3.(stack := m.stack, locals := m3.locals[x := v.value]);
  }

  /** Storing the top of the stack in the own instance. */
  lemma FieldStored(a: Activation, x: int, v: int, k: seq<Instr>, m: Machine, rest: seq<int>, fuel: nat, env: Env, base: nat)
    requires m.stack == [v] + rest && Agree(env, m, base)
    ensures var m' := m.(stack := rest, heap := m.heap[(m.inst, x) := v]);
      Agree(Put(env, x, v), m', base) && Run(a, FieldStore(x) + k, m, fuel) == if m.inst == 0 then Fault else Run(a, k, m', fuel)
  {
    hide Run;
    var m1, store := m.(stack := [m.inst] + m.stack), [STOR_INT_VAR(x, INST)] + k;
    assert FieldStore(x) + k == [LOAD_INST_MEM] + store;
    assert m1.stack[2..] == rest && m1.stack[1] == v;
    Do(a, LOAD_INST_MEM, store, m, fuel);
    Do(a, STOR_INT_VAR(x, INST), k, m1, fuel);
  }

  lemma SetFieldFollows(a: Activation, w: World, s: Stmt, n: Labels, brk: int, k: seq<Instr>, env: Env, m: Machine, fuel: nat, base: nat,
                        inLoop: bool) returns (m': Machine)
    requires s.SetField? && Runnable(a) && Serves(a, w) && GoodStmt(s, base, inLoop) && Agree(env, m, base)
    requires IsSuffix(StmtCode(s, n, brk, k), a.code)
    ensures Follows(a, Exec(w, s, env, fuel), StmtCode(s, n, brk, k), m, m', fuel, k, brk, base)
  {
    hide ServesCalls, Run, Fine, OneWord, ExprCode, IsSuffix, Eval, GoodExpr, FieldStore;
    m' := ExprComputes(a, s.value, n, FieldStore(s.slot) + k, env, m, fuel, base);
    var r := Eval(a.host, s.value, env);
    if r.Some? {
      FieldStored(a, s.slot, r.value.0, k, m', m.stack, fuel, r.value.1, base);
      m' := m'.(stack := m.stack, heap := m'.heap[(m'.inst, s.slot) := r.value.0]);
    }
  }

  lemma OpSetFieldFollows(a: Activation, w: World, s: Stmt, n: Labels, brk: int, k: seq<Instr>, env: Env, m: Machine, fuel: nat, base: nat,
                          inLoop: bool) returns (m': Machine)
    requires s.OpSetField? && Runnable(a) && Serves(a, w) && GoodStmt(s, base, inLoop) && Agree(env, m, base)
    requires IsSuffix(StmtCode(s, n, brk, k), a.code)
    ensures Follows(a, Exec(w, s, env, fuel), StmtCode(s, n, brk, k), m, m', fuel, k, brk, base)
  {
    hide ServesCalls, Run, Fine, OneWord, ExprCode, IsSuffix, Eval, GoodExpr, EvalInt;
    var OpSetField(op, x, e) := s;
    var k3 := FieldStore(x) + k;
    var k2 := [INT_OP(op)] + k3;
    assert FieldChange(op, x) + k == [LOAD_INST_MEM, LOAD_INT_VAR(x, INST)] + k2;
    m' := ExprComputes(a, e, n, FieldChange(op, x) + k, env, m, fuel, base);
    var r := Eval(a.host, e, env);
    if r.None? { return; }
    var old', m1 := HeapGet(m'.heap, (m'.inst, x)), m';
    var m2 := FieldComputes(a, x, k2, m1, fuel);
    if m1.inst == 0 { return; }
    hide Step, FieldStore;
    Do(a, INT_OP(op), k3, m2, fuel);
    Calculates(a.host, op, m2, old', r.value.0, m.stack);
    var v := EvalInt(op, old', r.value.0);
    if v.None? { return; }
    var m3 := m2.(stack := [v.value] + m.stack);
    FieldStored(a, x, v.value, k, m3, m.stack, fuel, r.value.1, base);
    m' := m3.(stack := m.stack, heap := m3.heap[(m3.inst, x) := v.value]);
  }

  lemma ReturnFollows(a: Activation, w: World, s: Stmt, n: Labels, brk: int, k: seq<Instr>, env: Env, m: Machine, fuel: nat, base: nat,
                      inLoop: bool) returns (m': Machine)
    requires s.Return? && Runnable(a) && Serves(a, w) && GoodStmt(s, base, inLoop) && Agree(env, m, base)
    requires IsSuffix(StmtCode(s, n, brk, k), a.code)
    ensures Follows(a, Exec(w, s, env, fuel), StmtCode(s, n, brk, k), m, m', fuel, k, brk, base)
  {
    m' := m;
    assert m.stack == [] + m.stack;
    Returns(a, k, m, fuel);
    if s.result.Some? {
      hide ServesCalls, Run, Fine, OneWord, ExprCode, IsSuffix, Eval, GoodExpr;
      m' := ExprComputes(a, s.result.value, n, [RTRN] + k, env, m, fuel, base);
      Returns(a, k, m', fuel);
    }
  }

  lemma Returns(a: Activation, k: seq<Instr>, m: Machine, fuel: nat)
    ensures Run(a, [RTRN] + k, m, fuel) == Done(m, fuel)
  {
  }

  // ----- Calls -----

  /** The word or none that the callee leaves is stored, dropped, or not expected. */
  lemma Receives(a: Activation, id: MethodId, dest: Destination, k: seq<Instr>, values: seq<int>, env: Env, m: Machine, fuel: nat,
                 rest: seq<int>, base: nat) returns (m': Machine)
    requires |values| == (if dest.Nowhere? then 0 else 1) && m.stack == values + rest && Agree(env, m, base)
    requires dest.Into? ==> base <= dest.slot < LOCAL_WORDS
    ensures Run(a, CallTail(id, dest)[2..] + k, m, fuel) == Run(a, k, m', fuel)
    ensures SameFrame(m, m') && m'.stack == rest
    ensures dest.Into? ==> InRange(env, dest.slot) && Agree(Store(env, dest.slot, values[0]), m', base)
    ensures !dest.Into? ==> Agree(env, m', base)
  {
    hide Run, Step;
    m' := m;
    match dest
    case Nowhere =>
      assert CallTail(id, dest)[2..] + k == k && values + rest == rest;
    case Dropped =>
      assert CallTail(id, dest)[2..] + k == [POP_INT] + k;
      Do(a, POP_INT, k, m, fuel);
      Pops(a.host, m);
      m' := m.(stack := rest);
    case Into(x) =>
      assert CallTail(id, dest)[2..] + k == [STOR_INT_VAR(x, LOCL)] + k && values == [values[0]];
      Do(a, STOR_INT_VAR(x, LOCL), k, m, fuel);
      Stored(a.host, x, values[0], m, rest, env, base);
      m' := m.(stack := rest, locals := m.locals[x := values[0]]);
  }

  lemma Pops(h: Host, m: Machine)
    requires |m.stack| >= 1
    ensures Step(h, POP_INT, m) == Some(m.(stack := m.stack[1..]))
  {
  }

  /** The call instruction with the arguments and the instance on the stack, told by the source method. */
  lemma CallRuns(a: Activation, w: World, id: MethodId, k: seq<Instr>, values: seq<int>, env: Env, m: Machine, fuel: nat,
                 rest: seq<int>, base: nat) returns (m': Machine)
    requires Serves(a, w) && Agree(env, m, base) && m.stack == [m.inst] + (Reversed(values) + rest)
    ensures var target := Target(w, id, env);
      if target.None? then Run(a, [MTHD_CALL(id)] + k, m, fuel) == Fault
      else Takes(target.value, values) ==>
        if w.depth == 0 then Run(a, [MTHD_CALL(id)] + k, m, fuel) == Timeout
        else var r := Invoke(w.(depth := w.depth - 1), target.value, values, Fresh(w.host, env), fuel);
          && (r.Returned? ==> Run(a, [MTHD_CALL(id)] + k, m, fuel) == Run(a, k, m', r.fuel) && SameFrame(m, m')
                              && m'.stack == r.values + rest && Agree(env.(heap := r.env.heap, ext := r.env.ext), m', base))
          && (r.Crash? ==> Run(a, [MTHD_CALL(id)] + k, m, fuel) == Fault)
          && (r.Out? ==> Run(a, [MTHD_CALL(id)] + k, m, fuel) == Timeout)
  {
    hide Run, Invoke;
    var code := [MTHD_CALL(id)] + k;
    assert code[1..] == k;
    RunCall(a, code, m, fuel);
    m' := m;
    var callee := Callee(a.host, a.program, id, m);
    var target := Target(w, id, env);
    assert callee.Some? <==> target.Some?;
    if callee.None? || !Takes(target.value, values) || w.depth == 0 { return; }
    assert target == w.methods[callee.value];
    var callee' := a.program[callee.value];
    var e := Enter(a.host, callee', m);
    assert e.stack == Reversed(values) + rest;
    assert Entered(w, callee.value, values, e, rest);
    assert Env(e.locals, e.inst, e.heap, e.ext) == Fresh(w.host, env);
    var o := RunBody(a.host, a.program, callee'.code, e, fuel, a.depth - 1);
    assert Served(a, w, callee.value, values, e, rest, fuel);
    if o.Done? { m' := Leave(m, o.m); }
  }

  lemma CallFollows(a: Activation, w: World, s: Stmt, n: Labels, brk: int, k: seq<Instr>, env: Env, m: Machine, fuel: nat, base: nat,
                    inLoop: bool) returns (m': Machine)
    requires s.Call? && Runnable(a) && Serves(a, w) && GoodStmt(s, base, inLoop) && Agree(env, m, base)
    requires IsSuffix(StmtCode(s, n, brk, k), a.code)
    ensures Follows(a, Exec(w, s, env, fuel), StmtCode(s, n, brk, k), m, m', fuel, k, brk, base)
  {
    hide ServesCalls, Run, Fine, OneWord, ArgsCode, IsSuffix, EvalAll, Agree, Step, Invoke, Target, Takes;
    var Call(id, args, dest) := s;
    var k1 := CallTail(id, dest)[2..] + k;
    assert CallTail(id, dest) + k == [LOAD_INST_MEM] + ([MTHD_CALL(id)] + k1);
    m' := ArgsCompute(a, args, n, CallTail(id, dest) + k, env, m, fuel, base);
    var v := EvalAll(a.host, args, env);
    if v.None? { return; }
    var (values, env1) := v.value;
    Do(a, LOAD_INST_MEM, [MTHD_CALL(id)] + k1, m', fuel);
    OwnInstance(a.host, m', env1, base);
    var m1 := m'.(stack := [m'.inst] + m'.stack);
    m' := CallRuns(a, w, id, k1, values, env1, m1, fuel, m.stack, base);
    var target := Target(w, id, env1);
    if target.Some? && Takes(target.value, values) && w.depth > 0 {
      var r := Invoke(w.(depth := w.depth - 1), target.value, values, Fresh(w.host, env1), fuel);
      if r.Returned? && |r.values| == (if dest.Nowhere? then 0 else 1) {
        m' := Receives(a, id, dest, k, r.values, env1.(heap := r.env.heap, ext := r.env.ext), m', r.fuel, m.stack, base);
      }
    }
  }

  lemma OwnInstance(h: Host, m: Machine, env: Env, base: nat)
    requires Agree(env, m, base)
    ensures Step(h, LOAD_INST_MEM, m) == Some(m.(stack := [m.inst] + m.stack))
    ensures Agree(env, m.(stack := [m.inst] + m.stack), base)
  {
  }

  // ----- All statements -----

  lemma {:induction false} StmtFollows(a: Activation, w: World, s: Stmt, n: Labels, brk: int, k: seq<Instr>, env: Env, m: Machine, fuel: nat,
                                       base: nat, inLoop: bool) returns (m': Machine)
    requires Runnable(a) && Serves(a, w) && GoodStmt(s, base, inLoop) && Agree(env, m, base) && Breakable(a, brk, k, inLoop)
    requires IsSuffix(StmtCode(s, n, brk, k), a.code)
    ensures Follows(a, Exec(w, s, env, fuel), StmtCode(s, n, brk, k), m, m', fuel, k, brk, base)
    decreases fuel, s, 5
  {
    hide ServesCalls;
    match s
    case Assign(_, _) => m' := AssignFollows(a, w, s, n, brk, k, env, m, fuel, base, inLoop);
    case OpAssign(_, _, _) => m' := OpAssignFollows(a, w, s, n, brk, k, env, m, fuel, base, inLoop);
    case SetField(_, _) => m' := SetFieldFollows(a, w, s, n, brk, k, env, m, fuel, base, inLoop);
    case OpSetField(_, _, _) => m' := OpSetFieldFollows(a, w, s, n, brk, k, env, m, fuel, base, inLoop);
    case If(_) => m' := IfFollows(a, w, s, n, brk, k, env, m, fuel, base, inLoop);
    case While(_, _) => m' := WhileFollows(a, w, s, n, brk, k, env, m, fuel, base, inLoop);
    case DoWhile(_, _) => m' := DoWhileFollows(a, w, s, n, brk, k, env, m, fuel, base, inLoop);
    case For(_, _, _, _) => m' := ForFollows(a, w, s, n, brk, k, env, m, fuel, base, inLoop);
    case Select(_, _, _) =>
      if |Values(s.cases)| >= 2 { m' := SelectFollows(a, w, s, n, brk, k, env, m, fuel, base, inLoop); }
      else { m' := SingleFollows(a, w, s, n, brk, k, env, m, fuel, base, inLoop); }
    case Call(_, _, _) => m' := CallFollows(a, w, s, n, brk, k, env, m, fuel, base, inLoop);
    case Empty => m' := m;
    case Break =>
      hide Run;
      m' := m;
      JumpTo(a, brk, k, At(a.code, brk), m, fuel);
    case Return(_) => m' := ReturnFollows(a, w, s, n, brk, k, env, m, fuel, base, inLoop);
  }

  lemma {:induction false} StmtsFollow(a: Activation, w: World, ss: Stmts, n: Labels, brk: int, k: seq<Instr>, env: Env, m: Machine, fuel: nat,
                                       base: nat, inLoop: bool) returns (m': Machine)
    requires Runnable(a) && Serves(a, w) && GoodStmts(ss, base, inLoop) && Agree(env, m, base) && Breakable(a, brk, k, inLoop)
    requires IsSuffix(StmtsCode(ss, n, brk, k), a.code)
    ensures Follows(a, ExecAll(w, ss, env, fuel), StmtsCode(ss, n, brk, k), m, m', fuel, k, brk, base)
    decreases fuel, ss, 0
  {
    hide ServesCalls, Run, Fine, OneWord, StmtCode, Exec, GoodStmt, Agree;
    m' := m;
    if ss.Cons? {
      var n1 := AfterStmt(ss.head, n);
      var k1 := StmtsCode(ss.tail, n1, brk, k);
      StmtsEnd(ss.tail, n1, brk, k);
      StmtEnds(ss.head, n, brk, k1);
      Within(k1, StmtCode(ss.head, n, brk, k1), a.code);
      Longer(a, brk, k, k1, inLoop);
      m' := StmtFollows(a, w, ss.head, n, brk, k1, env, m, fuel, base, inLoop);
      var r := Exec(w, ss.head, env, fuel);
      if r.Normal? {
        var m1 := m';
        m' := StmtsFollow(a, w, ss.tail, n1, brk, k, r.env, m1, r.fuel, base, inLoop);
        FollowsOn(a, ExecAll(w, ss.tail, r.env, r.fuel), StmtCode(ss.head, n, brk, k1), m, fuel, k1, m1, r.fuel, m', k, brk, base);
      }
    }
  }

  // ----- if -----

  lemma {:induction false} IfFollows(a: Activation, w: World, s: Stmt, n: Labels, brk: int, k: seq<Instr>, env: Env, m: Machine, fuel: nat,
                                     base: nat, inLoop: bool) returns (m': Machine)
    requires s.If?
    requires Runnable(a) && Serves(a, w) && GoodStmt(s, base, inLoop) && Agree(env, m, base) && Breakable(a, brk, k, inLoop)
    requires IsSuffix(StmtCode(s, n, brk, k), a.code)
    ensures Follows(a, Exec(w, s, env, fuel), StmtCode(s, n, brk, k), m, m', fuel, k, brk, base)
    decreases fuel, s, 4
  {
    var n1 := n.NextUnconditional().NextConditional();
    hide ServesCalls, Run, Fine, OneWord, ChainCode, ExecIf, GoodChain, Agree;
    m' := ChainFollows(a, w, s.chain, n1.conditional, n1.unconditional, n1, brk, k, env, m, fuel, base, inLoop);
  }

  /** The code of an expression, the branch behind it to l when it is 0, and both ways on. */
  lemma TestZero(a: Activation, e: Expr, n: Labels, l: int, k: seq<Instr>, env: Env, m: Machine, fuel: nat, base: nat)
    returns (m': Machine)
    requires Runnable(a) && GoodExpr(e, base) && Agree(env, m, base) && Ahead(a.code, l, k)
    requires IsSuffix(ExprCode(e, n, [JMP(l, 0)] + k), a.code)
    ensures var r := Eval(a.host, e, env);
      if r.None? then Run(a, ExprCode(e, n, [JMP(l, 0)] + k), m, fuel) == Fault
      else
        && Run(a, ExprCode(e, n, [JMP(l, 0)] + k), m, fuel) == Run(a, if r.value.0 == 0 then At(a.code, l) else k, m', fuel)
        && Untouched(r.value.1, m, m', base)
  {
    hide ServesCalls, Run, Fine, OneWord, ExprCode, IsSuffix, Eval, GoodExpr;
    m' := ExprComputes(a, e, n, [JMP(l, 0)] + k, env, m, fuel, base);
    var r := Eval(a.host, e, env);
    if r.Some? {
      BranchTo(a, l, 0, k, At(a.code, l), m', fuel);
      Popped(r.value.0, m.stack);
      m' := m'.(stack := m.stack);
    }
  }

  /** The parts of a chain: what its body falls into and what its else part starts with. */
  lemma ChainPlaced(a: Activation, chain: Chain, next: int, end: int, n: Labels, brk: int, k: seq<Instr>)
    returns (n1: Labels, k1: seq<Instr>, k2: seq<Instr>, k3: seq<Instr>)
    requires Fine(a.code) && IsSuffix(ChainCode(chain, next, end, n, brk, [LBL(end)] + k), a.code)
    ensures n1 == AfterExpr(chain.test, n).NextConditional()
    ensures k1 == ElseCode(chain.orElse, n1.conditional, end, AfterStmts(chain.body, n1), brk, [LBL(end)] + k)
    ensures k2 == Guard(chain) + k1 && k3 == StmtsCode(chain.body, n1, brk, [JMP(end, -1)] + k2)
    ensures var l := if chain.orElse.NoElse? then end else n1.conditional;
      ChainCode(chain, next, end, n, brk, [LBL(end)] + k) == [LBL(next)] + ExprCode(chain.test, n, [JMP(l, 0)] + k3)
      && IsSuffix(ExprCode(chain.test, n, [JMP(l, 0)] + k3), a.code)
    ensures IsSuffix(k1, a.code) && IsSuffix(k3, a.code) && |k| < |k1| <= |k2| < |k3| && AfterLabel(a.code, end) == Some(k)
  {
    n1 := AfterExpr(chain.test, n).NextConditional();
    var c, n2, tail := n1.conditional, AfterStmts(chain.body, n1), [LBL(end)] + k;
    k1 := ElseCode(chain.orElse, c, end, n2, brk, tail);
    k2 := Guard(chain) + k1;
    assert [JMP(end, -1)] + Guard(chain) + k1 == [JMP(end, -1)] + k2;
    k3 := StmtsCode(chain.body, n1, brk, [JMP(end, -1)] + k2);
    var i := [JMP(if chain.orElse.NoElse? then end else c, 0)];
    assert ChainCode(chain, next, end, n, brk, tail) == [LBL(next)] + ExprCode(chain.test, n, i + k3);
    hide Fine, ChainCode, ElseCode, StmtsCode, ExprCode, Guard, AfterLabel, IsSuffix;
    Behind([LBL(next)], ExprCode(chain.test, n, i + k3), a.code);
    ExprEnds(chain.test, n, i + k3);
    Within(i + k3, ExprCode(chain.test, n, i + k3), a.code);
    Behind(i, k3, a.code);
    StmtsEnd(chain.body, n1, brk, [JMP(end, -1)] + k2);
    Within([JMP(end, -1)] + k2, k3, a.code);
    Behind([JMP(end, -1)], k2, a.code);
    Behind(Guard(chain), k1, a.code);
    ElseEnds(chain.orElse, c, end, n2, brk, tail);
    Within(tail, k1, a.code);
    Lands(a.code, end, k);
    Shorter(tail, k1);
    Shorter([JMP(end, -1)] + k2, k3);
  }

  lemma {:induction false} ChainFollows(a: Activation, w: World, chain: Chain, next: int, end: int, n: Labels, brk: int, k: seq<Instr>, env: Env,
                                        m: Machine, fuel: nat, base: nat, inLoop: bool) returns (m': Machine)
    requires Runnable(a) && Serves(a, w) && GoodChain(chain, base, inLoop) && Agree(env, m, base) && Breakable(a, brk, k, inLoop)
    requires IsSuffix(ChainCode(chain, next, end, n, brk, [LBL(end)] + k), a.code)
    ensures Follows(a, ExecIf(w, chain, env, fuel), ChainCode(chain, next, end, n, brk, [LBL(end)] + k), m, m', fuel, k, brk, base)
    decreases fuel, chain, 1
  {
    hide ServesCalls, Run, Fine, OneWord, ChainCode, ElseCode, StmtsCode, ExprCode, Guard, IsSuffix, Eval, GoodExpr, Agree, ExecAll, GoodStmts;
    var n1, k1, k2, k3 := ChainPlaced(a, chain, next, end, n, brk, k);
    var code := ChainCode(chain, next, end, n, brk, [LBL(end)] + k);
    var l := if chain.orElse.NoElse? then end else n1.conditional;
    PassLabel(a, next, ExprCode(chain.test, n, [JMP(l, 0)] + k3), m, fuel);
    ElseAhead(a, chain.orElse, n1.conditional, end, AfterStmts(chain.body, n1), brk, k, k1);
    var m1 := TestZero(a, chain.test, n, l, k3, env, m, fuel, base);
    var r := Eval(a.host, chain.test, env);
    if r.None? { m' := m1; return; }
    if r.value.0 != 0 {
      Longer(a, brk, k, [JMP(end, -1)] + k2, inLoop);
      m' := StmtsFollow(a, w, chain.body, n1, brk, [JMP(end, -1)] + k2, r.value.1, m1, fuel, base, inLoop);
      var body := ExecAll(w, chain.body, r.value.1, fuel);
      if body.Normal? { JumpTo(a, end, k2, k, m', body.fuel); }
      FallsTo(a, body, k3, m1, m', fuel, [JMP(end, -1)] + k2, k, brk, base);
      FollowsOn(a, body, code, m, fuel, k3, m1, fuel, m', k, brk, base);
    } else {
      m' := ElseFollows(a, w, chain.orElse, n1.conditional, end, AfterStmts(chain.body, n1), brk, k, r.value.1, m1, fuel, base, inLoop);
      FollowsOn(a, ExecIf(w, chain, env, fuel), code, m, fuel, At(a.code, l), m1, fuel, m', k, brk, base);
    }
  }

  /** The place a failing test branches to. */
  lemma ElseAhead(a: Activation, orElse: Else, c: int, end: int, n: Labels, brk: int, k: seq<Instr>, k1: seq<Instr>)
    requires Fine(a.code) && IsSuffix(k1, a.code) && k1 == ElseCode(orElse, c, end, n, brk, [LBL(end)] + k)
    requires AfterLabel(a.code, end) == Some(k) && |k| < |k1|
    ensures var l := if orElse.NoElse? then end else c;
      AfterLabel(a.code, l).Some? && |At(a.code, l)| < |k1|
    ensures !orElse.NoElse? ==> k1 == [LBL(c)] + At(a.code, c)
    ensures orElse.NoElse? ==> At(a.code, end) == k
  {
    hide Fine, AfterLabel;
    if !orElse.NoElse? {
      assert k1[0] == LBL(c);
      assert k1 == [LBL(c)] + k1[1..];
      Lands(a.code, c, k1[1..]);
    }
  }

  /** What ExecIf does once the test of the chain is 0. */
  function ExecElse(w: World, orElse: Else, env: Env, fuel: nat): Result {
    match orElse
    case NoElse => Normal(env, fuel)
    case ElseIf(next) => ExecIf(w, next, env, fuel)
    case Otherwise(rest) => ExecAll(w, rest, env, fuel)
  }

  lemma {:induction false} ElseFollows(a: Activation, w: World, orElse: Else, c: int, end: int, n: Labels, brk: int, k: seq<Instr>, env: Env,
                                       m: Machine, fuel: nat, base: nat, inLoop: bool) returns (m': Machine)
    requires Runnable(a) && Serves(a, w) && GoodElse(orElse, base, inLoop) && Agree(env, m, base) && Breakable(a, brk, k, inLoop)
    requires IsSuffix(ElseCode(orElse, c, end, n, brk, [LBL(end)] + k), a.code) && AfterLabel(a.code, end) == Some(k)
    requires |k| < |ElseCode(orElse, c, end, n, brk, [LBL(end)] + k)|
    ensures Follows(a, ExecElse(w, orElse, env, fuel), At(a.code, if orElse.NoElse? then end else c), m, m', fuel, k, brk, base)
    decreases fuel, orElse, 0
  {
    hide ServesCalls, Run, Fine, OneWord, AfterLabel, ExecAll, ExecIf, GoodStmts, GoodChain, Agree, StmtsCode, ChainCode;
    var k1 := ElseCode(orElse, c, end, n, brk, [LBL(end)] + k);
    ElseAhead(a, orElse, c, end, n, brk, k, k1);
    m' := m;
    match orElse
    case NoElse =>
    case ElseIf(next) =>
      m' := ChainFollows(a, w, next, c, end, n, brk, k, env, m, fuel, base, inLoop);
      PassLabel(a, c, At(a.code, c), m, fuel);
      FollowsOn(a, ExecIf(w, next, env, fuel), At(a.code, c), m, fuel, k1, m, fuel, m', k, brk, base);
    case Otherwise(rest) =>
      var k2 := StmtsCode(rest, n, brk, [LBL(end)] + k);
      assert k1[1..] == k2;
      Behind([LBL(c)], k2, a.code);
      Longer(a, brk, k, [LBL(end)] + k, inLoop);
      m' := StmtsFollow(a, w, rest, n, brk, [LBL(end)] + k, env, m, fuel, base, inLoop);
      var r := ExecAll(w, rest, env, fuel);
      if r.Normal? { PassLabel(a, end, k, m', r.fuel); }
      FallsTo(a, r, k2, m, m', fuel, [LBL(end)] + k, k, brk, base);
  }

  // ----- Loops -----

  /** Label counts of a while or for loop: at its start label, and at its break label. */
  function LoopStart(s: Stmt, n: Labels): Labels
    requires s.While? || s.For?
  {
    (if s.For? then AfterStmt(s.pre, n) else n).NextUnconditional()
  }

  function LoopBreak(s: Stmt, n: Labels): Labels
    requires s.While? || s.For?
  {
    AfterExpr(s.test, LoopStart(s, n)).NextConditional()
  }

  /** What follows the body of a loop. */
  function LoopUpdate(s: Stmt, n: Labels, k: seq<Instr>): seq<Instr>
    requires s.While? || s.For?
  {
    var n2 := LoopBreak(s, n);
    var back := [JMP(LoopStart(s, n).unconditional, -1)] + ([LBL(n2.conditional)] + k);
    if s.For? then StmtCode(s.update, AfterStmts(s.body, n2), n2.conditional, back) else back
  }

  function LoopBody(s: Stmt, n: Labels, k: seq<Instr>): seq<Instr>
    requires s.While? || s.For?
  {
    StmtsCode(s.body, LoopBreak(s, n), LoopBreak(s, n).conditional, LoopUpdate(s, n, k))
  }

  function LoopTest(s: Stmt, n: Labels, k: seq<Instr>): seq<Instr>
    requires s.While? || s.For?
  {
    ExprCode(s.test, LoopStart(s, n), [JMP(LoopBreak(s, n).conditional, 0)] + LoopBody(s, n, k))
  }

  lemma LoopShape(s: Stmt, n: Labels, brk: int, k: seq<Instr>)
    requires s.While? || s.For?
    ensures var head := [LBL(LoopStart(s, n).unconditional)] + LoopTest(s, n, k);
      StmtCode(s, n, brk, k) == if s.For? then StmtCode(s.pre, n, brk, head) else head
  {
    hide ExprCode, StmtsCode;
    var u, e := LoopStart(s, n).unconditional, LoopBreak(s, n).conditional;
    assert [JMP(u, -1), LBL(e)] + k == [JMP(u, -1)] + ([LBL(e)] + k);
  }

  /** Where the labels and the parts of a loop lie. */
  lemma LoopPlaced(a: Activation, s: Stmt, n: Labels, k: seq<Instr>)
    requires (s.While? || s.For?) && Fine(a.code)
    requires IsSuffix([LBL(LoopStart(s, n).unconditional)] + LoopTest(s, n, k), a.code)
    ensures AfterLabel(a.code, LoopStart(s, n).unconditional) == Some(LoopTest(s, n, k))
    ensures AfterLabel(a.code, LoopBreak(s, n).conditional) == Some(k)
    ensures IsSuffix(LoopTest(s, n, k), a.code) && IsSuffix(LoopBody(s, n, k), a.code) && IsSuffix(LoopUpdate(s, n, k), a.code)
    ensures |k| + 2 <= |LoopUpdate(s, n, k)| <= |LoopBody(s, n, k)| < |LoopTest(s, n, k)|
  {
    var u, n2 := LoopStart(s, n).unconditional, LoopBreak(s, n);
    var e := n2.conditional;
    var test, body, update := LoopTest(s, n, k), LoopBody(s, n, k), LoopUpdate(s, n, k);
    var end := [LBL(e)] + k;
    var back := [JMP(u, -1)] + end;
    Behind([LBL(u)], test, a.code);
    ExprEnds(s.test, LoopStart(s, n), [JMP(e, 0)] + body);
    StmtsEnd(s.body, n2, e, update);
    if s.For? { StmtEnds(s.update, AfterStmts(s.body, n2), e, back); }
    assert IsSuffix(back, update);
    hide Fine, LoopTest, LoopBody, LoopUpdate, LoopStart, LoopBreak, AfterLabel, IsSuffix, ExprCode, StmtCode, StmtsCode;
    Within([JMP(e, 0)] + body, test, a.code);
    Behind([JMP(e, 0)], body, a.code);
    Within(update, body, a.code);
    Within(back, update, a.code);
    Behind([JMP(u, -1)], end, a.code);
    Lands(a.code, u, test);
    Lands(a.code, e, k);
    Shorter([JMP(e, 0)] + body, test);
    Shorter(update, body);
    Shorter(back, update);
  }

  lemma {:induction false} WhileFollows(a: Activation, w: World, s: Stmt, n: Labels, brk: int, k: seq<Instr>, env: Env, m: Machine, fuel: nat,
                                        base: nat, inLoop: bool) returns (m': Machine)
    requires s.While?
    requires Runnable(a) && Serves(a, w) && GoodStmt(s, base, inLoop) && Agree(env, m, base) && Breakable(a, brk, k, inLoop)
    requires IsSuffix(StmtCode(s, n, brk, k), a.code)
    ensures Follows(a, Exec(w, s, env, fuel), StmtCode(s, n, brk, k), m, m', fuel, k, brk, base)
    decreases fuel, s, 4
  {
    var u := LoopStart(s, n).unconditional;
    LoopShape(s, n, brk, k);
    hide ServesCalls, Run, Fine, OneWord, StmtCode, LoopTest, ExecLoop, Agree;
    m' := LoopFollows(a, w, s, n, brk, k, env, m, fuel, base, inLoop);
    PassLabel(a, u, LoopTest(s, n, k), m, fuel);
    FollowsOn(a, ExecLoop(w, s, env, fuel), StmtCode(s, n, brk, k), m, fuel, LoopTest(s, n, k), m, fuel, m', k, brk, base);
  }

  lemma {:induction false} ForFollows(a: Activation, w: World, s: Stmt, n: Labels, brk: int, k: seq<Instr>, env: Env, m: Machine, fuel: nat,
                                      base: nat, inLoop: bool) returns (m': Machine)
    requires s.For?
    requires Runnable(a) && Serves(a, w) && GoodStmt(s, base, inLoop) && Agree(env, m, base) && Breakable(a, brk, k, inLoop)
    requires IsSuffix(StmtCode(s, n, brk, k), a.code)
    ensures Follows(a, Exec(w, s, env, fuel), StmtCode(s, n, brk, k), m, m', fuel, k, brk, base)
    decreases fuel, s, 4
  {
    var u := LoopStart(s, n).unconditional;
    var head := [LBL(u)] + LoopTest(s, n, k);
    LoopShape(s, n, brk, k);
    var r := Exec(w, s.pre, env, fuel);
    var whole := Exec(w, s, env, fuel);
    assert whole == if r.Normal? then ExecLoop(w, s, r.env, r.fuel) else r;
    hide ServesCalls, Run, Fine, OneWord, StmtCode, LoopTest, Exec, ExecLoop, Agree;
    StmtEnds(s.pre, n, brk, head);
    Within(head, StmtCode(s, n, brk, k), a.code);
    LoopPlaced(a, s, n, k);
    Longer(a, brk, k, head, inLoop);
    m' := StmtFollows(a, w, s.pre, n, brk, head, env, m, fuel, base, inLoop);
    if r.Normal? {
      var m1 := m';
      m' := LoopFollows(a, w, s, n, brk, k, r.env, m1, r.fuel, base, inLoop);
      PassLabel(a, u, LoopTest(s, n, k), m1, r.fuel);
      FollowsOn(a, whole, StmtCode(s, n, brk, k), m, fuel, LoopTest(s, n, k), m1, r.fuel, m', k, brk, base);
    }
  }

  /** A while or for loop from its test on: each time round is one backward jump. */
  lemma {:induction false} LoopFollows(a: Activation, w: World, s: Stmt, n: Labels, brk: int, k: seq<Instr>, env: Env, m: Machine, fuel: nat,
                                       base: nat, inLoop: bool) returns (m': Machine)
    requires s.While? || s.For?
    requires Runnable(a) && Serves(a, w) && GoodStmt(s, base, inLoop) && Agree(env, m, base)
    requires IsSuffix([LBL(LoopStart(s, n).unconditional)] + LoopTest(s, n, k), a.code)
    ensures Follows(a, ExecLoop(w, s, env, fuel), LoopTest(s, n, k), m, m', fuel, k, brk, base)
    decreases fuel, s, 3
  {
    hide ServesCalls, Run, Fine, OneWord, LoopTest, LoopBody, LoopStart, IsSuffix, Eval, GoodExpr, GoodStmt, Agree, ExecAll, Exec;
    var test, body := LoopTest(s, n, k), LoopBody(s, n, k);
    m' := LoopTested(a, s, n, k, env, m, fuel, base, inLoop);
    var v := Eval(a.host, s.test, env);
    if v.Some? && v.value.0 != 0 {
      var m1 := m';
      m' := RoundFollows(a, w, s, n, brk, k, v.value.1, m1, fuel, base, inLoop);
      FollowsOn(a, ExecLoop(w, s, env, fuel), test, m, fuel, body, m1, fuel, m', k, brk, base);
    }
  }

  lemma LoopTested(a: Activation, s: Stmt, n: Labels, k: seq<Instr>, env: Env, m: Machine, fuel: nat, base: nat, inLoop: bool)
    returns (m': Machine)
    requires s.While? || s.For?
    requires Runnable(a) && GoodStmt(s, base, inLoop) && Agree(env, m, base)
    requires IsSuffix([LBL(LoopStart(s, n).unconditional)] + LoopTest(s, n, k), a.code)
    ensures var r := Eval(a.host, s.test, env);
      if r.None? then Run(a, LoopTest(s, n, k), m, fuel) == Fault
      else
        && Run(a, LoopTest(s, n, k), m, fuel) == Run(a, if r.value.0 == 0 then k else LoopBody(s, n, k), m', fuel)
        && Untouched(r.value.1, m, m', base)
  {
    hide ServesCalls, Run, Fine, OneWord, LoopBody, LoopStart, IsSuffix, ExprCode, Eval, GoodExpr, Agree;
    LoopPlaced(a, s, n, k);
    m' := TestZero(a, s.test, LoopStart(s, n), LoopBreak(s, n).conditional, LoopBody(s, n, k), env, m, fuel, base);
  }

  /** ExecLoop behind its test. */
  function ExecRound(w: World, s: Stmt, env: Env, fuel: nat): Result
    requires s.While? || s.For?
  {
    var r := ExecAll(w, s.body, env, fuel);
    if r.Broke? then Normal(r.env, r.fuel) else
    if !r.Normal? then r else ExecBack(w, s, r.env, r.fuel)
  }

  /** ExecLoop behind its body. */
  function ExecBack(w: World, s: Stmt, env: Env, fuel: nat): Result
    requires s.While? || s.For?
  {
    var u := if s.For? then Exec(w, s.update, env, fuel) else Normal(env, fuel);
    if u.Broke? then Normal(u.env, u.fuel)
    else if !u.Normal? then u
    else if u.fuel == 0 then Out
    else ExecLoop(w, s, u.env, u.fuel - 1)
  }

  lemma {:induction false} RoundFollows(a: Activation, w: World, s: Stmt, n: Labels, brk: int, k: seq<Instr>, env: Env, m: Machine, fuel: nat,
                                        base: nat, inLoop: bool) returns (m': Machine)
    requires s.While? || s.For?
    requires Runnable(a) && Serves(a, w) && GoodStmt(s, base, inLoop) && Agree(env, m, base)
    requires IsSuffix([LBL(LoopStart(s, n).unconditional)] + LoopTest(s, n, k), a.code)
    ensures Follows(a, ExecRound(w, s, env, fuel), LoopBody(s, n, k), m, m', fuel, k, brk, base)
    decreases fuel, s, 2
  {
    LoopPlaced(a, s, n, k);
    var n2, body, update := LoopBreak(s, n), LoopBody(s, n, k), LoopUpdate(s, n, k);
    var e := n2.conditional;
    assert body == StmtsCode(s.body, n2, e, update) && GoodStmts(s.body, base, true);
    hide ServesCalls, Run, Fine, OneWord, LoopTest, LoopBody, LoopUpdate, LoopStart, LoopBreak, IsSuffix, StmtsCode, Agree, GoodStmt, GoodStmts,
         ExecAll, ExecBack;
    m' := StmtsFollow(a, w, s.body, n2, e, update, env, m, fuel, base, true);
    var r := ExecAll(w, s.body, env, fuel);
    if r.Normal? {
      var m1 := m';
      m' := BackFollows(a, w, s, n, brk, k, r.env, m1, r.fuel, base, inLoop);
      FollowsOn(a, ExecBack(w, s, r.env, r.fuel), body, m, fuel, update, m1, r.fuel, m', k, brk, base);
    }
  }

  lemma {:induction false} BackFollows(a: Activation, w: World, s: Stmt, n: Labels, brk: int, k: seq<Instr>, env: Env, m: Machine, fuel: nat,
                                       base: nat, inLoop: bool) returns (m': Machine)
    requires s.While? || s.For?
    requires Runnable(a) && Serves(a, w) && GoodStmt(s, base, inLoop) && Agree(env, m, base)
    requires IsSuffix([LBL(LoopStart(s, n).unconditional)] + LoopTest(s, n, k), a.code)
    ensures Follows(a, ExecBack(w, s, env, fuel), LoopUpdate(s, n, k), m, m', fuel, k, brk, base)
    decreases fuel, s, 1
  {
    hide ServesCalls, Run, Fine, OneWord, LoopTest, LoopBody, LoopStart, LoopBreak, IsSuffix, StmtCode, Agree, Exec, ExecLoop, AfterStmts, GoodStmt;
    LoopPlaced(a, s, n, k);
    var start, n2, update := LoopStart(s, n).unconditional, LoopBreak(s, n), LoopUpdate(s, n, k);
    var e, n3 := n2.conditional, AfterStmts(s.body, n2);
    var end := [LBL(e)] + k;
    var back := [JMP(start, -1)] + end;
    assert update == if s.For? then StmtCode(s.update, n3, e, back) else back;
    hide LoopUpdate;
    m' := UpdateFollows(a, w, s, n3, e, back, update, env, m, fuel, base, inLoop);
    var u := if s.For? then Exec(w, s.update, env, fuel) else Normal(env, fuel);
    if u.Normal? {
      var m1 := m';
      JumpTo(a, start, end, LoopTest(s, n, k), m1, u.fuel);
      if u.fuel > 0 {
        m' := LoopFollows(a, w, s, n, brk, k, u.env, m1, u.fuel - 1, base, inLoop);
        FollowsOn(a, ExecBack(w, s, env, fuel), update, m, fuel, LoopTest(s, n, k), m1, u.fuel - 1, m', k, brk, base);
      }
    }
  }

  lemma {:induction false} UpdateFollows(a: Activation, w: World, s: Stmt, n: Labels, brk: int, k: seq<Instr>, update: seq<Instr>, env: Env,
                                         m: Machine, fuel: nat, base: nat, inLoop: bool) returns (m': Machine)
    requires s.While? || s.For?
    requires Runnable(a) && Serves(a, w) && GoodStmt(s, base, inLoop) && Agree(env, m, base) && Ahead(a.code, brk, k)
    requires update == (if s.For? then StmtCode(s.update, n, brk, k) else k) && IsSuffix(update, a.code)
    ensures Follows(a, if s.For? then Exec(w, s.update, env, fuel) else Normal(env, fuel), update, m, m', fuel, k, brk, base)
    decreases fuel, s, 0
  {
    assert s.For? ==> GoodStmt(s.update, base, true);
    hide ServesCalls, Run, Fine, OneWord, IsSuffix, StmtCode, Agree, GoodStmt, Exec;
    m' := m;
    if s.For? { m' := StmtFollows(a, w, s.update, n, brk, k, env, m, fuel, base, true); }
  }

  lemma {:induction false} DoWhileFollows(a: Activation, w: World, s: Stmt, n: Labels, brk: int, k: seq<Instr>, env: Env, m: Machine, fuel: nat,
                                          base: nat, inLoop: bool) returns (m': Machine)
    requires s.DoWhile?
    requires Runnable(a) && Serves(a, w) && GoodStmt(s, base, inLoop) && Agree(env, m, base) && Breakable(a, brk, k, inLoop)
    requires IsSuffix(StmtCode(s, n, brk, k), a.code)
    ensures Follows(a, Exec(w, s, env, fuel), StmtCode(s, n, brk, k), m, m', fuel, k, brk, base)
    decreases fuel, s, 4
  {
    var n1 := n.NextConditional().NextUnconditional();
    var n2, c, e := AfterStmts(s.body, n1), n1.conditional, n1.unconditional;
    var end := [LBL(e)] + k;
    assert [JMP(c, 1), LBL(e)] + k == [JMP(c, 1)] + end;
    var test := ExprCode(s.test, n2, [JMP(c, 1)] + end);
    var body := StmtsCode(s.body, n1, e, test);
    var code := StmtCode(s, n, brk, k);
    assert code == [LBL(c)] + body && GoodStmts(s.body, base, true) && GoodExpr(s.test, base);
    var r := ExecAll(w, s.body, env, fuel);
    var whole := Exec(w, s, env, fuel);
    assert r.Broke? ==> whole == Normal(r.env, r.fuel);
    assert !r.Broke? && !r.Normal? ==> whole == r;
    assert r.Normal? ==> whole == ExecAgain(w, s, r.env, r.fuel);
    StmtsEnd(s.body, n1, e, test);
    DoWhilePlaced(a, s, n2, c, e, k, body, test);
    hide ServesCalls, Run, Fine, OneWord, StmtCode, StmtsCode, ExprCode, IsSuffix, GoodStmts, GoodExpr, ExecAll, AfterLabel, Agree, Eval;
    m' := StmtsFollow(a, w, s.body, n1, e, test, env, m, fuel, base, true);
    PassLabel(a, c, body, m, fuel);
    if r.Normal? {
      var m1 := m';
      m' := AgainFollows(a, w, s, n, brk, k, n1, n2, body, test, r.env, m1, r.fuel, base, inLoop);
      FollowsOn(a, whole, code, m, fuel, test, m1, r.fuel, m', k, brk, base);
    }
  }

  lemma DoWhilePlaced(a: Activation, s: Stmt, n2: Labels, c: int, e: int, k: seq<Instr>, body: seq<Instr>, test: seq<Instr>)
    requires s.DoWhile? && Fine(a.code) && IsSuffix([LBL(c)] + body, a.code)
    requires test == ExprCode(s.test, n2, [JMP(c, 1)] + ([LBL(e)] + k)) && IsSuffix(test, body)
    ensures AfterLabel(a.code, c) == Some(body) && AfterLabel(a.code, e) == Some(k)
    ensures IsSuffix(body, a.code) && IsSuffix(test, a.code) && |k| + 2 <= |test| <= |body|
  {
    hide Fine, AfterLabel, ExprCode;
    var end := [LBL(e)] + k;
    Behind([LBL(c)], body, a.code);
    Within(test, body, a.code);
    ExprEnds(s.test, n2, [JMP(c, 1)] + end);
    Within([JMP(c, 1)] + end, test, a.code);
    Behind([JMP(c, 1)], end, a.code);
    Lands(a.code, c, body);
    Lands(a.code, e, k);
  }

  /** Exec of a do/while behind its body. */
  function ExecAgain(w: World, s: Stmt, env: Env, fuel: nat): Result
    requires s.DoWhile?
  {
    var v := Eval(w.host, s.test, env);
    if v.None? then Crash
    else if v.value.0 != 1 then Normal(v.value.1, fuel)
    else if fuel == 0 then Out
    else Exec(w, s, v.value.1, fuel - 1)
  }

  lemma {:induction false} AgainFollows(a: Activation, w: World, s: Stmt, n: Labels, brk: int, k: seq<Instr>, n1: Labels, n2: Labels,
                                        body: seq<Instr>, test: seq<Instr>, env: Env, m: Machine, fuel: nat, base: nat,
                                        inLoop: bool) returns (m': Machine)
    requires s.DoWhile? && GoodExpr(s.test, base)
    requires Runnable(a) && Serves(a, w) && GoodStmt(s, base, inLoop) && Agree(env, m, base) && Breakable(a, brk, k, inLoop)
    requires IsSuffix(StmtCode(s, n, brk, k), a.code) && StmtCode(s, n, brk, k) == [LBL(n1.conditional)] + body
    requires test == ExprCode(s.test, n2, [JMP(n1.conditional, 1)] + ([LBL(n1.unconditional)] + k)) && IsSuffix(test, a.code)
    requires AfterLabel(a.code, n1.conditional) == Some(body) && |k| + 2 <= |body|
    ensures Follows(a, ExecAgain(w, s, env, fuel), test, m, m', fuel, k, brk, base)
    decreases fuel, s, 3
  {
    hide ServesCalls, Run, Fine, OneWord, StmtCode, StmtsCode, ExprCode, IsSuffix, GoodStmt, GoodExpr, AfterLabel, Eval, Exec, Breakable;
    var c, e := n1.conditional, n1.unconditional;
    var end := [LBL(e)] + k;
    m' := ExprComputes(a, s.test, n2, [JMP(c, 1)] + end, env, m, fuel, base);
    var v := Eval(a.host, s.test, env);
    if v.None? { return; }
    BranchTo(a, c, 1, end, body, m', fuel);
    Popped(v.value.0, m.stack);
    m' := m'.(stack := m.stack);
    PassLabel(a, e, k, m', fuel);
    if v.value.0 == 1 && fuel > 0 {
      var m1 := m';
      m' := StmtFollows(a, w, s, n, brk, k, v.value.1, m1, fuel - 1, base, inLoop);
      PassLabel(a, c, body, m1, fuel - 1);
      FollowsOn(a, ExecAgain(w, s, env, fuel), test, m, fuel, StmtCode(s, n, brk, k), m1, fuel - 1, m', k, brk, base);
    }
  }

  // ----- select -----

  /** The parts of a select with one label: the end, its other part, its only case. */
  lemma SinglePlaced(a: Activation, s: Stmt, n: Labels, brk: int, k: seq<Instr>)
    returns (n1: Labels, n3: Labels, k1: seq<Instr>, k2: seq<Instr>, k3: seq<Instr>)
    requires s.Select? && |Values(s.cases)| < 2 && s.cases.Case? && Fine(a.code) && IsSuffix(StmtCode(s, n, brk, k), a.code)
    ensures n1 == SingleStart(s.other, n)
    ensures var end := [LBL(n1.unconditional)] + k;
      k1 == if s.other.Some? then StmtsCode(s.other.value, n3, brk, end) else k
    ensures var n2, l := AfterExpr(s.selector, n1), if s.other.Some? then n1.conditional else n1.unconditional;
      && k3 == StmtsCode(s.cases.body, n2, brk, [JMP(n1.unconditional, -1)] + k2)
      && StmtCode(s, n, brk, k) == [LOAD_INT_LIT(s.cases.value)] + ExprCode(s.selector, n1, [INT_OP(Eql), JMP(l, 0)] + k3)
      && AfterLabel(a.code, l) == Some(k1) && AfterLabel(a.code, n1.unconditional) == Some(k)
      && IsSuffix(ExprCode(s.selector, n1, [INT_OP(Eql), JMP(l, 0)] + k3), a.code)
    ensures IsSuffix(k1, a.code) && IsSuffix(k3, a.code) && |k| <= |k1| < |k2| < |k3|
  {
    n1 := SingleStart(s.other, n);
    var n2 := AfterExpr(s.selector, n1);
    n3 := AfterCases(s.cases, n2);
    var u, c := n1.unconditional, n1.conditional;
    var l := if s.other.Some? then c else u;
    var end, skip := [LBL(u)] + k, [JMP(u, -1)];
    k1 := if s.other.Some? then StmtsCode(s.other.value, n3, brk, end) else k;
    k2 := [LBL(l)] + k1;
    k3 := StmtsCode(s.cases.body, n2, brk, skip + k2);
    var test := ExprCode(s.selector, n1, [INT_OP(Eql), JMP(l, 0)] + k3);
    assert SingleTail(s.other, n1, n3, brk, k) == skip + k2;
    assert StmtCode(s, n, brk, k) == [LOAD_INT_LIT(s.cases.value)] + test;
    hide Fine, StmtCode, ExprCode, StmtsCode, AfterLabel, IsSuffix, AfterExpr, AfterCases;
    Behind([LOAD_INT_LIT(s.cases.value)], test, a.code);
    ExprEnds(s.selector, n1, [INT_OP(Eql), JMP(l, 0)] + k3);
    Within([INT_OP(Eql), JMP(l, 0)] + k3, test, a.code);
    Behind([INT_OP(Eql), JMP(l, 0)], k3, a.code);
    StmtsEnd(s.cases.body, n2, brk, skip + k2);
    Within(skip + k2, k3, a.code);
    Behind(skip, k2, a.code);
    Behind([LBL(l)], k1, a.code);
    Lands(a.code, l, k1);
    Shorter(skip + k2, k3);
    if s.other.Some? {
      StmtsEnd(s.other.value, n3, brk, end);
      Within(end, k1, a.code);
      Lands(a.code, u, k);
      Shorter(end, k1);
    }
  }

  /** The test of a select with one label. */
  lemma SingleTested(a: Activation, e: Expr, n: Labels, w: int, l: int, k: seq<Instr>, env: Env, m: Machine, fuel: nat, base: nat)
    returns (m': Machine)
    requires Runnable(a) && GoodExpr(e, base) && Agree(env, m, base) && Ahead(a.code, l, k)
    requires IsSuffix(ExprCode(e, n, [INT_OP(Eql), JMP(l, 0)] + k), a.code)
    ensures var r, code := Eval(a.host, e, env), [LOAD_INT_LIT(w)] + ExprCode(e, n, [INT_OP(Eql), JMP(l, 0)] + k);
      if r.None? then Run(a, code, m, fuel) == Fault
      else
        && Run(a, code, m, fuel) == Run(a, if r.value.0 == w then k else At(a.code, l), m', fuel)
        && Untouched(r.value.1, m, m', base)
  {
    hide ServesCalls, Run, Fine, OneWord, ExprCode, IsSuffix, Eval, GoodExpr;
    var k1 := [INT_OP(Eql), JMP(l, 0)] + k;
    assert k1 == [INT_OP(Eql)] + ([JMP(l, 0)] + k);
    Do(a, LOAD_INT_LIT(w), ExprCode(e, n, k1), m, fuel);
    Literal(a.host, w, m);
    var m1 := m.(stack := [w] + m.stack);
    m' := ExprComputes(a, e, n, k1, env, m1, fuel, base);
    var r := Eval(a.host, e, env);
    if r.Some? {
      Do(a, INT_OP(Eql), [JMP(l, 0)] + k, m', fuel);
      Calculates(a.host, Eql, m', r.value.0, w, m.stack);
      var b := Bool(r.value.0 == w);
      var m3 := m'.(stack := [b] + m.stack);
      BranchTo(a, l, 0, k, At(a.code, l), m3, fuel);
      Popped(b, m.stack);
      m' := m3.(stack := m.stack);
    }
  }

  lemma {:induction false} SingleFollows(a: Activation, w: World, s: Stmt, n: Labels, brk: int, k: seq<Instr>, env: Env, m: Machine, fuel: nat,
                                         base: nat, inLoop: bool) returns (m': Machine)
    requires s.Select? && |Values(s.cases)| < 2
    requires Runnable(a) && Serves(a, w) && GoodStmt(s, base, inLoop) && Agree(env, m, base) && Breakable(a, brk, k, inLoop)
    requires IsSuffix(StmtCode(s, n, brk, k), a.code)
    ensures Follows(a, Exec(w, s, env, fuel), StmtCode(s, n, brk, k), m, m', fuel, k, brk, base)
    decreases fuel, s, 4
  {
    var Select(e, cases, other) := s;
    var n1, n3, k1, k2, k3 := SinglePlaced(a, s, n, brk, k);
    SingleExec(w, s, env, fuel, base, inLoop);
    hide ServesCalls, Run, Fine, OneWord, ExprCode, StmtCode, StmtsCode, IsSuffix, Eval, GoodExpr, GoodStmt, GoodStmts, Exec, ExecAll, Agree, AfterLabel;
    var u, l := n1.unconditional, if other.Some? then n1.conditional else n1.unconditional;
    var m1 := SingleTested(a, e, n1, cases.value, l, k3, env, m, fuel, base);
    m' := m1;
    var r := Eval(a.host, e, env);
    if r.None? { return; }
    var result := Exec(w, s, env, fuel);
    if r.value.0 == cases.value {
      Longer(a, brk, k, [JMP(u, -1)] + k2, inLoop);
      m' := StmtsFollow(a, w, cases.body, AfterExpr(e, n1), brk, [JMP(u, -1)] + k2, r.value.1, m1, fuel, base, inLoop);
      if result.Normal? { JumpTo(a, u, k2, k, m', result.fuel); }
      FallsTo(a, result, k3, m1, m', fuel, [JMP(u, -1)] + k2, k, brk, base);
      FollowsOn(a, result, StmtCode(s, n, brk, k), m, fuel, k3, m1, fuel, m', k, brk, base);
    } else if other.Some? {
      Longer(a, brk, k, [LBL(u)] + k, inLoop);
      m' := StmtsFollow(a, w, other.value, n3, brk, [LBL(u)] + k, r.value.1, m1, fuel, base, inLoop);
      if result.Normal? { PassLabel(a, u, k, m', result.fuel); }
      FallsTo(a, result, k1, m1, m', fuel, [LBL(u)] + k, k, brk, base);
      FollowsOn(a, result, StmtCode(s, n, brk, k), m, fuel, k1, m1, fuel, m', k, brk, base);
    }
  }

  lemma SingleExec(w: World, s: Stmt, env: Env, fuel: nat, base: nat, inLoop: bool)
    requires s.Select? && |Values(s.cases)| < 2 && GoodStmt(s, base, inLoop)
    ensures s.cases.Case? && GoodExpr(s.selector, base) && GoodStmts(s.cases.body, base, inLoop)
    ensures s.other.Some? ==> GoodStmts(s.other.value, base, inLoop)
    ensures var v := Eval(w.host, s.selector, env);
      Exec(w, s, env, fuel) ==
        if v.None? then Crash
        else if v.value.0 == s.cases.value then ExecAll(w, s.cases.body, v.value.1, fuel)
        else if s.other.Some? then ExecAll(w, s.other.value, v.value.1, fuel)
        else Normal(v.value.1, fuel)
  {
    SingleCase(s.cases);
    assert Values(s.cases) == [s.cases.value];
  }

  /** Every case value's statements are placed behind its label. */
  lemma {:induction false} CasesPlaced(a: Activation, cases: Cases, labels: map<int, int>, end: int, n: Labels, brk: int, k: seq<Instr>)
    requires Fine(a.code) && IsSuffix(CasesCode(cases, labels, end, n, brk, k), a.code)
    ensures |k| <= |CasesCode(cases, labels, end, n, brk, k)|
    ensures forall w <- Values(cases) :: Ahead(a.code, LabelOf(labels, w), CasesCode(cases, labels, end, n, brk, k))
    decreases cases
  {
    if cases.Case? {
      var n1, l := AfterStmts(cases.body, n), LabelOf(labels, cases.value);
      var k1 := CasesCode(cases.rest, labels, end, n1, brk, k);
      var k2 := StmtsCode(cases.body, n, brk, [JMP(end, -1)] + k1);
      hide Fine, StmtsCode, AfterLabel;
      CasePlaced(a, cases, labels, end, n, brk, k);
      CasesPlaced(a, cases.rest, labels, end, n1, brk, k);
      forall w | w in Values(cases) ensures Ahead(a.code, LabelOf(labels, w), CasesCode(cases, labels, end, n, brk, k)) {
        if w != cases.value { assert w in Values(cases.rest); }
      }
    }
  }

  lemma CasePlaced(a: Activation, cases: Cases, labels: map<int, int>, end: int, n: Labels, brk: int, k: seq<Instr>)
    requires cases.Case? && Fine(a.code) && IsSuffix(CasesCode(cases, labels, end, n, brk, k), a.code)
    ensures var l, k1 := LabelOf(labels, cases.value), CasesCode(cases.rest, labels, end, AfterStmts(cases.body, n), brk, k);
      var k2 := StmtsCode(cases.body, n, brk, [JMP(end, -1)] + k1);
      && CasesCode(cases, labels, end, n, brk, k) == [LBL(l)] + k2
      && AfterLabel(a.code, l) == Some(k2) && IsSuffix(k1, a.code) && IsSuffix(k2, a.code) && |k| <= |k1| < |k2|
  {
    var n1, l := AfterStmts(cases.body, n), LabelOf(labels, cases.value);
    var k1 := CasesCode(cases.rest, labels, end, n1, brk, k);
    var k2 := StmtsCode(cases.body, n, brk, [JMP(end, -1)] + k1);
    assert CasesCode(cases, labels, end, n, brk, k) == [LBL(l)] + k2;
    hide Fine, StmtsCode, AfterLabel, CasesCode;
    Behind([LBL(l)], k2, a.code);
    Lands(a.code, l, k2);
    StmtsEnd(cases.body, n, brk, [JMP(end, -1)] + k1);
    Within([JMP(end, -1)] + k1, k2, a.code);
    Behind([JMP(end, -1)], k1, a.code);
    CasesEnd(cases.rest, labels, end, n1, brk, k);
  }

  /** Behind the label of v, the statements of case v and a jump to the end. */
  lemma {:induction false} CaseFollows(a: Activation, w: World, cases: Cases, labels: map<int, int>, end: int, n: Labels, brk: int, k: seq<Instr>,
                                       k0: seq<Instr>, v: int, env: Env, m: Machine, fuel: nat, base: nat, inLoop: bool)
    returns (m': Machine)
    requires Runnable(a) && Serves(a, w) && GoodCases(cases, base, inLoop) && Agree(env, m, base) && Breakable(a, brk, k, inLoop)
    requires IsSuffix(CasesCode(cases, labels, end, n, brk, k), a.code) && AfterLabel(a.code, end) == Some(k0) && |k0| <= |k|
    requires v in Values(cases)
    ensures Follows(a, ExecCase(w, cases, v, env, fuel), At(a.code, LabelOf(labels, v)), m, m', fuel, k0, brk, base)
    decreases fuel, cases, 0
  {
    hide ServesCalls, Run, Fine, OneWord, StmtsCode, IsSuffix, GoodStmts, ExecAll, Agree, AfterLabel, LabelOf;
    CasePlaced(a, cases, labels, end, n, brk, k);
    var n1, l := AfterStmts(cases.body, n), LabelOf(labels, cases.value);
    var k1 := CasesCode(cases.rest, labels, end, n1, brk, k);
    var k2 := StmtsCode(cases.body, n, brk, [JMP(end, -1)] + k1);
    if v == cases.value {
      Longer(a, brk, k, [JMP(end, -1)] + k1, inLoop);
      m' := StmtsFollow(a, w, cases.body, n, brk, [JMP(end, -1)] + k1, env, m, fuel, base, inLoop);
      var r := ExecAll(w, cases.body, env, fuel);
      if r.Normal? { JumpTo(a, end, k1, k0, m', r.fuel); }
      FallsTo(a, r, k2, m, m', fuel, [JMP(end, -1)] + k1, k0, brk, base);
    } else {
      assert v in Values(cases.rest);
      m' := CaseFollows(a, w, cases.rest, labels, end, n1, brk, k, k0, v, env, m, fuel, base, inLoop);
    }
  }

  lemma PlanDefault(s: Stmt, n: Labels)
    requires s.Select? && |Values(s.cases)| >= 2
    ensures s.other.None? ==> Plan(s, n).default == Plan(s, n).end
  {
    hide Divide, LabelMap;
  }

  /** Everything behind the tree of a select: k1 is its other part, k0 its cases. */
  lemma SelectPlaced(a: Activation, s: Stmt, n: Labels, brk: int, k: seq<Instr>) returns (n2: Labels, k1: seq<Instr>, k0: seq<Instr>)
    requires s.Select? && |Values(s.cases)| >= 2 && Fine(a.code) && IsSuffix(StmtCode(s, n, brk, k), a.code)
    ensures var p := Plan(s, n);
      && k0 == CasesCode(s.cases, p.labels, p.end, p.after, brk, [LBL(p.default)] + k1)
      && k1 == (if s.other.Some? then StmtsCode(s.other.value, n2, brk, [JMP(p.end, -1), LBL(p.end)] + k) else k)
      && StmtCode(s, n, brk, k) == TreeCode(s.selector, p.root, p.labels, p.default, p.treeStart, k0)
      && AfterLabel(a.code, p.end) == Some(k) && AfterLabel(a.code, p.default) == Some(k1)
    ensures IsSuffix(k0, a.code) && IsSuffix(k1, a.code) && |k| <= |k1| < |k0|
  {
    hide Fine, StmtsCode, CasesCode, TreeCode, AfterLabel, IsSuffix, AfterCases, Plan;
    var p := Plan(s, n);
    PlanDefault(s, n);
    n2 := AfterCases(s.cases, p.after);
    var end := [JMP(p.end, -1), LBL(p.end)] + k;
    assert end == [JMP(p.end, -1)] + ([LBL(p.end)] + k);
    k1 := if s.other.Some? then StmtsCode(s.other.value, n2, brk, end) else k;
    k0 := CasesCode(s.cases, p.labels, p.end, p.after, brk, [LBL(p.default)] + k1);
    assert StmtCode(s, n, brk, k) == TreeCode(s.selector, p.root, p.labels, p.default, p.treeStart, k0);
    hide StmtCode;
    TreeEnds(s.selector, p.root, p.labels, p.default, p.treeStart, k0);
    Within(k0, StmtCode(s, n, brk, k), a.code);
    CasesEnd(s.cases, p.labels, p.end, p.after, brk, [LBL(p.default)] + k1);
    Within([LBL(p.default)] + k1, k0, a.code);
    Behind([LBL(p.default)], k1, a.code);
    Lands(a.code, p.default, k1);
    Shorter([LBL(p.default)] + k1, k0);
    if s.other.Some? {
      StmtsEnd(s.other.value, n2, brk, end);
      Within(end, k1, a.code);
      Behind([JMP(p.end, -1)], [LBL(p.end)] + k, a.code);
      Lands(a.code, p.end, k);
      Shorter(end, k1);
    }
  }

  lemma SelectGood(h: Host, s: Stmt, env: Env, base: nat, inLoop: bool)
    requires s.Select? && |Values(s.cases)| >= 2 && GoodStmt(s, base, inLoop)
    ensures GoodExpr(s.selector, base) && Pure(s.selector) && GoodCases(s.cases, base, inLoop) && Sorted(Values(s.cases))
    ensures s.other.Some? ==> GoodStmts(s.other.value, base, inLoop)
    ensures var v := Eval(h, s.selector, env); v.Some? ==> v.value.1 == env
  {
    PureEval(h, s.selector, env);
  }

  /** The tree finds exactly the case values. */
  lemma RootFinds(s: Stmt, n: Labels, v: int)
    requires s.Select? && |Values(s.cases)| >= 2 && Sorted(Values(s.cases))
    ensures Finds(Plan(s, n).root, v) <==> v in Values(s.cases)
    ensures forall w <- Tested(Plan(s, n).root) :: w in Values(s.cases)
  {
    hide Divide, Finds, Tested;
    var values := Values(s.cases);
    var last := n.conditional + |values| + if s.other.Some? then 1 else 0;
    DivideFinds(values, 0, |values| - 1, last, v);
    DivideTests(values, 0, |values| - 1, last);
  }

  /** Where the tree of a select leads: the statements of the selector's value, or its default. */
  lemma SelectDispatches(a: Activation, s: Stmt, n: Labels, brk: int, k: seq<Instr>, k1: seq<Instr>, k0: seq<Instr>, env: Env,
                         m: Machine, fuel: nat, base: nat) returns (m': Machine)
    requires s.Select? && |Values(s.cases)| >= 2 && Sorted(Values(s.cases))
    requires Runnable(a) && GoodExpr(s.selector, base) && Agree(env, m, base)
    requires var v := Eval(a.host, s.selector, env); v.Some? ==> v.value.1 == env
    requires var p := Plan(s, n);
      && k0 == CasesCode(s.cases, p.labels, p.end, p.after, brk, [LBL(p.default)] + k1)
      && IsSuffix(k0, a.code) && AfterLabel(a.code, p.default) == Some(k1) && |k1| <= |k0|
      && IsSuffix(TreeCode(s.selector, p.root, p.labels, p.default, p.treeStart, k0), a.code)
    ensures var p, v := Plan(s, n), Eval(a.host, s.selector, env);
      var code := TreeCode(s.selector, p.root, p.labels, p.default, p.treeStart, k0);
      if v.None? then Run(a, code, m, fuel) == Fault
      else
        && Run(a, code, m, fuel) ==
             Run(a, if v.value.0 in Values(s.cases) then At(a.code, LabelOf(p.labels, v.value.0)) else k1, m', fuel)
        && Untouched(env, m, m', base)
  {
    hide ServesCalls, Run, Fine, OneWord, CasesCode, TreeCode, IsSuffix, Eval, GoodExpr, Agree, AfterLabel, Plan, Values, Finds, Tested, LabelOf;
    var p, r := Plan(s, n), Eval(a.host, s.selector, env);
    m' := m;
    if r.None? {
      SelectFaults(a, s.selector, p.root, p.labels, p.default, p.treeStart, k0, env, m, fuel, base);
    } else {
      RootFinds(s, n, r.value.0);
      CasesPlaced(a, s.cases, p.labels, p.end, p.after, brk, [LBL(p.default)] + k1);
      m' := TreeDispatches(a, s.selector, p.root, p.labels, p.default, p.treeStart, k0, env, r.value.0, m, fuel, base);
    }
  }

  lemma SelectExec(w: World, s: Stmt, env: Env, fuel: nat)
    requires s.Select?
    ensures var r := Eval(w.host, s.selector, env);
      Exec(w, s, env, fuel) ==
        if r.None? then Crash
        else if r.value.0 in Values(s.cases) then ExecCase(w, s.cases, r.value.0, r.value.1, fuel)
        else if s.other.Some? then ExecAll(w, s.other.value, r.value.1, fuel) else Normal(r.value.1, fuel)
  {
  }

  /** Dispatch: whatever the selector's value, its own statements run, or other, or none. */
  lemma {:induction false} SelectFollows(a: Activation, w: World, s: Stmt, n: Labels, brk: int, k: seq<Instr>, env: Env, m: Machine, fuel: nat,
                                         base: nat, inLoop: bool) returns (m': Machine)
    requires s.Select? && |Values(s.cases)| >= 2
    requires Runnable(a) && Serves(a, w) && GoodStmt(s, base, inLoop) && Agree(env, m, base) && Breakable(a, brk, k, inLoop)
    requires IsSuffix(StmtCode(s, n, brk, k), a.code)
    ensures Follows(a, Exec(w, s, env, fuel), StmtCode(s, n, brk, k), m, m', fuel, k, brk, base)
    decreases fuel, s, 4
  {
    hide ServesCalls, Run, Fine, OneWord, StmtCode, StmtsCode, CasesCode, TreeCode, IsSuffix, Eval, GoodExpr, GoodStmt, GoodStmts, GoodCases,
         Exec, ExecAll, ExecCase, Agree, AfterLabel, Plan, Values, Finds, Tested, LabelOf, Sorted, Pure;
    SelectExec(w, s, env, fuel);
    SelectGood(a.host, s, env, base, inLoop);
    var p, result, r := Plan(s, n), Exec(w, s, env, fuel), Eval(a.host, s.selector, env);
    var n2, k1, k0 := SelectPlaced(a, s, n, brk, k);
    var m1 := SelectDispatches(a, s, n, brk, k, k1, k0, env, m, fuel, base);
    m' := m1;
    if r.Some? {
      var v, t := r.value.0, k1;
      if v in Values(s.cases) {
        Longer(a, brk, k, [LBL(p.default)] + k1, inLoop);
        t := At(a.code, LabelOf(p.labels, v));
        m' := CaseFollows(a, w, s.cases, p.labels, p.end, p.after, brk, [LBL(p.default)] + k1, k, v, env, m1, fuel, base, inLoop);
      } else if s.other.Some? {
        m' := OtherFollows(a, w, s.other.value, n2, p.end, brk, k, env, m1, fuel, base, inLoop);
      }
      FollowsOn(a, result, StmtCode(s, n, brk, k), m, fuel, t, m1, fuel, m', k, brk, base);
    }
  }

  lemma SelectFaults(a: Activation, e: Expr, root: Node, labels: map<int, int>, default: int, n: Labels, k: seq<Instr>, env: Env,
                     m: Machine, fuel: nat, base: nat)
    requires Runnable(a) && GoodExpr(e, base) && Agree(env, m, base) && Eval(a.host, e, env).None?
    requires IsSuffix(TreeCode(e, root, labels, default, n, k), a.code)
    ensures Run(a, TreeCode(e, root, labels, default, n, k), m, fuel) == Fault
  {
    hide ServesCalls, Run, Fine, OneWord, TreeCode, IsSuffix, Eval, GoodExpr, Agree, ExprCode;
    TreeIsNode(e, root, labels, default, n, k);
    var code := NodeCode(e, root, labels, default, n, k);
    PassLabel(a, root.id, code, m, fuel);
    Behind([LBL(root.id)], code, a.code);
    var k1 := match root
      case Equal(_, value) => [INT_OP(Eql), JMP(LabelOf(labels, value), 1)] + ([JMP(default, -1)] + k)
      case Less(_, _, left, _) => [INT_OP(Les), JMP(left.id, 1)] + Subtrees(e, root, labels, default, AfterExpr(e, n), k)
      case LessOrEqual(_, value, value2, left, _) =>
        [INT_OP(Eql), JMP(LabelOf(labels, value), 1)]
        + ([LOAD_INT_LIT(value2)]
           + ExprCode(e, AfterExpr(e, n), [INT_OP(Les), JMP(left.id, 1)]
                                          + Subtrees(e, root, labels, default, AfterExpr(e, AfterExpr(e, n)), k)));
    Behind([LOAD_INT_LIT(root.value)], ExprCode(e, n, k1), a.code);
    ComparisonFaults(a, e, n, root.value, k1, env, m, fuel, base);
  }

  lemma {:induction false} OtherFollows(a: Activation, w: World, other: Stmts, n: Labels, end: int, brk: int, k: seq<Instr>, env: Env, m: Machine,
                                        fuel: nat, base: nat, inLoop: bool) returns (m': Machine)
    requires Runnable(a) && Serves(a, w) && GoodStmts(other, base, inLoop) && Agree(env, m, base) && Breakable(a, brk, k, inLoop)
    requires IsSuffix(StmtsCode(other, n, brk, [JMP(end, -1), LBL(end)] + k), a.code) && AfterLabel(a.code, end) == Some(k)
    ensures Follows(a, ExecAll(w, other, env, fuel), StmtsCode(other, n, brk, [JMP(end, -1), LBL(end)] + k), m, m', fuel,
                    k, brk, base)
    decreases fuel, other, 1
  {
    hide ServesCalls, Run, Fine, OneWord, StmtsCode, IsSuffix, GoodStmts, ExecAll, Agree, AfterLabel;
    var k1 := [JMP(end, -1), LBL(end)] + k;
    assert k1 == [JMP(end, -1)] + ([LBL(end)] + k);
    Longer(a, brk, k, k1, inLoop);
    m' := StmtsFollow(a, w, other, n, brk, k1, env, m, fuel, base, inLoop);
    var r := ExecAll(w, other, env, fuel);
    if r.Normal? { JumpTo(a, end, [LBL(end)] + k, k, m', r.fuel); }
    FallsTo(a, r, StmtsCode(other, n, brk, k1), m, m', fuel, k1, k, brk, base);
  }
}
