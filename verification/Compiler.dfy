// A whole method: the emitted block returns what the source method returns, its labels are in
// order, and the optimizer may be let loose on it at every level.

module Compiler {
  import opened Wrappers
  import opened Words
  import opened Bytecode
  import opened Simulation
  import opened Passes
  import opened Accessors
  import opened Pipeline
  import opened Source
  import opened Emission
  import opened Discipline
  import opened StmtDiscipline
  import opened Placement
  import opened ExprMeaning
  import opened SelectMeaning
  import opened StmtMeaning

  // ----- Labels -----

  lemma {:induction false} PrologueLabels(params: seq<int>, k: seq<Instr>)
    ensures Marks(Prologue(params, k)) == Marks(k) && Targets(Prologue(params, k)) == Targets(k)
    ensures Fine(k) ==> Fine(Prologue(params, k))
    decreases |params|
  {
    if params != [] {
      var last := |params| - 1;
      PrologueLabels(params[..last], k);
      hide Marks, Targets, Fine;
      Prepend(STOR_INT_VAR(params[last], LOCL), Prologue(params[..last], k));
    }
  }

  lemma EpilogueLabels(r: Routine)
    ensures Marks(Epilogue(r)) == {} && Targets(Epilogue(r)) == {} && Fine(Epilogue(r))
  {
    var k := if LastReturns(r.body) then [] else [RTRN];
    if !LastReturns(r.body) { Prepend(RTRN, []); assert [RTRN] + [] == k; }
    if r.constructs { Prepend(LOAD_INST_MEM, k); } else { assert Epilogue(r) == k; }
  }

  /** In the block of a method no label is placed twice, every jump lands in the block, no
      conditional jump stands before its own label, and all labels are fresh. */
  lemma RoutineDisciplined(r: Routine, n: Labels, base: nat)
    requires GoodRoutine(r, base) && Apart(n, AfterStmts(r.body, n))
    ensures Fine(RoutineCode(r, n)) && Targets(RoutineCode(r, n)) <= Marks(RoutineCode(r, n))
    ensures forall l <- Marks(RoutineCode(r, n)) :: Between(l, n, AfterStmts(r.body, n))
  {
    hide Marks, Targets, Fine;
    var end, n' := Epilogue(r), AfterStmts(r.body, n);
    EpilogueLabels(r);
    Start(end, n, n', {});
    StmtsBefore(r.body, n, 0, base, false, n, n', {}, end, end);
    var body := StmtsCode(r.body, n, 0, end);
    forall l | l in Targets(body) ensures l in Marks(body) {}
    PrologueLabels(r.params, body);
  }

  lemma {:induction false} LabelsGrow(routines: seq<Routine>, n: Labels, i: nat, j: nat)
    requires i <= j <= |routines|
    ensures Ordered(LabelsAt(routines, n, i), LabelsAt(routines, n, j))
    decreases j
  {
    if i < j {
      LabelsGrow(routines, n, i, j - 1);
      StmtsOrdered(routines[j - 1].body, LabelsAt(routines, n, j - 1));
    }
  }

  /** No label number is placed in two methods. */
  lemma ProgramLabels(routines: seq<Routine>, n: Labels, i: nat, j: nat, base: nat, base': nat)
    requires i < j < |routines| && GoodRoutine(routines[i], base) && GoodRoutine(routines[j], base')
    requires Apart(n, LabelsAt(routines, n, |routines|))
    ensures Marks(RoutineCode(routines[i], LabelsAt(routines, n, i))) !! Marks(RoutineCode(routines[j], LabelsAt(routines, n, j)))
  {
    hide *;
    var end := LabelsAt(routines, n, |routines|);
    var ni, ni', nj, nj' := LabelsAt(routines, n, i), LabelsAt(routines, n, i + 1), LabelsAt(routines, n, j), LabelsAt(routines, n, j + 1);
    NextLabels(routines, n, i);
    NextLabels(routines, n, j);
    LabelsGrow(routines, n, 0, i);
    LabelsGrow(routines, n, i, i + 1);
    LabelsGrow(routines, n, i + 1, j);
    LabelsGrow(routines, n, j, j + 1);
    LabelsGrow(routines, n, j + 1, |routines|);
    RangesApart(n, ni, ni', nj, nj', end);
    RoutineRange(routines[i], ni, base);
    RoutineRange(routines[j], nj, base');
    WithinApart(Marks(RoutineCode(routines[i], ni)), Marks(RoutineCode(routines[j], nj)), ni, ni', nj, nj');
  }

  lemma NextLabels(routines: seq<Routine>, n: Labels, i: nat)
    requires i < |routines|
    ensures LabelsAt(routines, n, 0) == n && LabelsAt(routines, n, i + 1) == AfterStmts(routines[i].body, LabelsAt(routines, n, i))
  {
  }

  ghost predicate HandedOut(labels: set<int>, n: Labels, n': Labels) {
    forall l <- labels :: Between(l, n, n')
  }

  lemma WithinApart(x: set<int>, y: set<int>, ni: Labels, ni': Labels, nj: Labels, nj': Labels)
    requires HandedOut(x, ni, ni') && HandedOut(y, nj, nj') && Apart(ni, nj') && Ordered(ni', nj) && Apart(ni, ni') && Apart(nj, nj')
    ensures x !! y
  {
    forall l | l in x ensures l !in y { assert Between(l, ni, ni'); }
  }

  lemma RoutineRange(r: Routine, n: Labels, base: nat)
    requires GoodRoutine(r, base) && Apart(n, AfterStmts(r.body, n))
    ensures HandedOut(Marks(RoutineCode(r, n)), n, AfterStmts(r.body, n))
  {
    hide RoutineCode, AfterStmts, GoodRoutine;
    RoutineDisciplined(r, n, base);
  }

  lemma RangesApart(n: Labels, ni: Labels, ni': Labels, nj: Labels, nj': Labels, end: Labels)
    requires Apart(n, end) && Ordered(n, ni) && Ordered(ni, ni') && Ordered(ni', nj) && Ordered(nj, nj') && Ordered(nj', end)
    ensures Apart(ni, ni') && Apart(nj, nj') && Apart(ni, nj')
  {
  }

  lemma {:induction false} FineUnique(code: seq<Instr>)
    requires Fine(code)
    ensures UniqueLabels(code) && NoBranchToNext(code)
  {
    if code != [] {
      var tail := code[1..];
      FineUnique(tail);
      forall i, j | 0 <= i < j < |code| && code[i].LBL? && code[j].LBL? ensures code[i].mark != code[j].mark {
        if i == 0 { MarkIn(tail, j - 1); } else { assert tail[i - 1] == code[i] && tail[j - 1] == code[j]; }
      }
      forall k | 0 <= k < |code| - 1 && code[k].JMP? && code[k + 1] == LBL(code[k].target) ensures code[k].cond < 0 {
        if k > 0 { assert tail[k - 1] == code[k] && tail[k] == code[k + 1]; }
      }
    }
  }

  // ----- Which results a method has -----

  /** Statements outside a loop are not left by a break. */
  lemma {:induction false} NoBreak(w: World, s: Stmt, env: Env, fuel: nat, base: nat)
    requires GoodStmt(s, base, false)
    ensures !Exec(w, s, env, fuel).Broke?
    decreases fuel, s, 1
  {
    match s
    case If(chain) => NoBreakIf(w, chain, env, fuel, base);
    case While(_, _) => LoopNotBroken(w, s, env, fuel);
    case For(pre, _, _, _) =>
      NoBreak(w, pre, env, fuel, base);
      var r := Exec(w, pre, env, fuel);
      if r.Normal? { LoopNotBroken(w, s, r.env, r.fuel); }
    case DoWhile(body, test) =>
      var r := ExecAll(w, body, env, fuel);
      if r.Normal? {
        var v := Eval(w.host, test, r.env);
        if v.Some? && v.value.0 == 1 && r.fuel > 0 { NoBreak(w, s, v.value.1, r.fuel - 1, base); }
      }
    case Select(selector, cases, other) =>
      var v := Eval(w.host, selector, env);
      if v.Some? {
        NoBreakCase(w, cases, v.value.0, v.value.1, fuel, base);
        if other.Some? { NoBreakAll(w, other.value, v.value.1, fuel, base); }
      }
    case Call(_, _, _) =>
    case Empty =>
    case Assign(_, _) =>
    case OpAssign(_, _, _) =>
    case SetField(_, _) =>
    case OpSetField(_, _, _) =>
    case Return(_) =>
    case Break =>
  }

  lemma {:induction false} NoBreakAll(w: World, ss: Stmts, env: Env, fuel: nat, base: nat)
    requires GoodStmts(ss, base, false)
    ensures !ExecAll(w, ss, env, fuel).Broke?
    decreases fuel, ss, 0
  {
    if ss.Cons? {
      NoBreak(w, ss.head, env, fuel, base);
      var r := Exec(w, ss.head, env, fuel);
      if r.Normal? { NoBreakAll(w, ss.tail, r.env, r.fuel, base); }
    }
  }

  lemma {:induction false} NoBreakIf(w: World, chain: Chain, env: Env, fuel: nat, base: nat)
    requires GoodChain(chain, base, false)
    ensures !ExecIf(w, chain, env, fuel).Broke?
    decreases fuel, chain, 0
  {
    var v := Eval(w.host, chain.test, env);
    if v.Some? {
      NoBreakAll(w, chain.body, v.value.1, fuel, base);
      match chain.orElse
      case NoElse =>
      case ElseIf(next) => NoBreakIf(w, next, v.value.1, fuel, base);
      case Otherwise(rest) => NoBreakAll(w, rest, v.value.1, fuel, base);
    }
  }

  lemma {:induction false} NoBreakCase(w: World, cases: Cases, v: int, env: Env, fuel: nat, base: nat)
    requires GoodCases(cases, base, false)
    ensures !ExecCase(w, cases, v, env, fuel).Broke?
    decreases fuel, cases, 0
  {
    if cases.Case? {
      NoBreakAll(w, cases.body, env, fuel, base);
      NoBreakCase(w, cases.rest, v, env, fuel, base);
    }
  }

  /** A break ends the innermost loop and nothing else. */
  lemma {:induction false} LoopNotBroken(w: World, s: Stmt, env: Env, fuel: nat)
    requires s.While? || s.For?
    ensures !ExecLoop(w, s, env, fuel).Broke?
    decreases fuel
  {
    var v := Eval(w.host, s.test, env);
    if v.Some? && v.value.0 != 0 {
      var r := ExecAll(w, s.body, v.value.1, fuel);
      if r.Normal? {
        var u := if s.For? then Exec(w, s.update, r.env, r.fuel) else r;
        if u.Normal? && u.fuel > 0 { LoopNotBroken(w, s, u.env, u.fuel - 1); }
      }
    }
  }

  /** A list that ends in a return is not fallen off. */
  lemma {:induction false} LastReturnsNotNormal(w: World, ss: Stmts, env: Env, fuel: nat)
    requires LastReturns(ss)
    ensures !ExecAll(w, ss, env, fuel).Normal?
    decreases ss
  {
    var r := Exec(w, ss.head, env, fuel);
    if r.Normal? && ss.tail.Cons? { LastReturnsNotNormal(w, ss.tail, r.env, r.fuel); }
  }

  // ----- The block of a method returns what the method returns -----

  /** The prologue pops the arguments, the last one first, into the parameters. */
  lemma {:induction false} PrologueBinds(a: Activation, params: seq<int>, args: seq<int>, rest: seq<int>, k: seq<Instr>, m: Machine,
                                         fuel: nat)
    requires |params| == |args| && SlotsFrom(params, 0, |m.locals|) && m.stack == Reversed(args) + rest
    ensures Run(a, Prologue(params, k), m, fuel) ==
      Run(a, k, m.(stack := rest, locals := Bind(m.locals, params, args)), fuel)
    decreases |params|
  {
    if params == [] {
      assert m.stack == rest;
    } else {
      var last := |params| - 1;
      var store, tail := STOR_INT_VAR(params[last], LOCL), Reversed(args[..last]) + rest;
      assert m.stack == [args[last]] + tail;
      var m1 := m.(stack := tail, locals := m.locals[params[last] := args[last]]);
      Popped(args[last], tail);
      hide Run;
      Do(a, store, Prologue(params[..last], k), m, fuel);
      assert Step(a.host, store, m) == Some(m1);
      PrologueBinds(a, params[..last], args[..last], rest, k, m1, fuel);
    }
  }

  lemma {:induction false} PrologueEnds(params: seq<int>, k: seq<Instr>)
    ensures IsSuffix(k, Prologue(params, k))
    decreases |params|
  {
    if params != [] {
      PrologueEnds(params[..|params| - 1], k);
      EndsIn([STOR_INT_VAR(params[|params| - 1], LOCL)], Prologue(params[..|params| - 1], k));
      Within(k, Prologue(params[..|params| - 1], k), Prologue(params, k));
    }
  }

  lemma BoundAgree(m: Machine, rest: seq<int>, params: seq<int>, args: seq<int>, base: nat)
    requires |m.locals| == LOCAL_WORDS && |params| == |args| && SlotsFrom(params, 0, LOCAL_WORDS)
    ensures var vars := Bind(m.locals, params, args);
      Agree(Env(vars, m.inst, m.heap, m.ext), m.(stack := rest, locals := vars), base)
  {
  }

  /** Falling off the statements: the instance if the method constructs one, then the return. */
  lemma EpilogueReturns(a: Activation, r: Routine, m: Machine, fuel: nat)
    requires !LastReturns(r.body)
    ensures var o := Run(a, Epilogue(r), m, fuel);
      o == Done(m.(stack := (if r.constructs then [m.inst] else []) + m.stack), fuel)
  {
    var m1 := m.(stack := [m.inst] + m.stack);
    assert [RTRN] + [] == [RTRN] && [] + m.stack == m.stack;
    Returns(a, [], m, fuel);
    Returns(a, [], m1, fuel);
    if r.constructs {
      hide Run;
      Do(a, LOAD_INST_MEM, [RTRN], m, fuel);
    } else {
      assert Epilogue(r) == [RTRN];
    }
  }

  /** For every method, all arguments and every number of loop rounds, the emitted block returns, faults or goes on
      exactly as the source method does, if the methods it calls do so. */
  lemma RoutineFollows(a: Activation, w: World, r: Routine, n: Labels, base: nat, args: seq<int>, rest: seq<int>, m: Machine, fuel: nat)
    requires OneWord(a.host) && Serves(a, w) && GoodRoutine(r, base) && Apart(n, AfterStmts(r.body, n)) && a.code == RoutineCode(r, n)
    requires |m.locals| == LOCAL_WORDS && |args| == |r.params| && m.stack == Reversed(args) + rest
    ensures SameResult(Invoke(w, r, args, Env(m.locals, m.inst, m.heap, m.ext), fuel), Run(a, a.code, m, fuel), rest)
  {
    var end := Epilogue(r);
    var body := StmtsCode(r.body, n, 0, end);
    var m1 := m.(stack := rest, locals := Bind(m.locals, r.params, args));
    var env := Env(m1.locals, m.inst, m.heap, m.ext);
    var result := ExecAll(w, r.body, env, fuel);
    assert Invoke(w, r, args, Env(m.locals, m.inst, m.heap, m.ext), fuel) ==
      if result.Normal? then Returned(if r.constructs then [m.inst] else [], result.env, result.fuel) else result;
    RoutineDisciplined(r, n, base);
    PrologueEnds(r.params, body);
    PrologueBinds(a, r.params, args, rest, body, m, fuel);
    BoundAgree(m, rest, r.params, args, base);
    NoBreakAll(w, r.body, env, fuel, base);
    hide Run, Fine, OneWord, StmtsCode, Prologue, ExecAll, GoodStmts, Agree, Marks, Targets, ServesCalls, Invoke;
    var m2 := StmtsFollow(a, w, r.body, n, 0, end, env, m1, fuel, base, false);
    if result.Normal? {
      if LastReturns(r.body) { LastReturnsNotNormal(w, r.body, env, fuel); }
      EpilogueReturns(a, r, m2, result.fuel);
    }
    AgreeMemory(result, m2, base);
  }

  // ----- A whole program -----

  /** The emitted block of one source method. */
  ghost predicate EmittedFrom(code: seq<Instr>, r: Routine, n: Labels, base: nat) {
    GoodRoutine(r, base) && Apart(n, AfterStmts(r.body, n)) && code == RoutineCode(r, n)
  }

  ghost predicate EmittedOf(code: seq<Instr>, r: Routine) {
    exists n: Labels, base: nat :: EmittedFrom(code, r, n, base)
  }

  /** The program holds the emitted block of every method of the source, and nothing for a virtual one. */
  ghost predicate Implements(p: Program, methods: map<MethodId, Option<Routine>>) {
    && p.Keys == methods.Keys
    && forall id :: id in p ==>
         (p[id].virtual <==> methods[id].None?) && (methods[id].Some? ==> EmittedOf(p[id].code, methods[id].value))
  }

  lemma {:induction false} ProgramServes(a: Activation, w: World)
    requires OneWord(a.host) && Implements(a.program, w.methods) && a.host == w.host && a.depth == w.depth
    ensures Serves(a, w)
    decreases w.depth, 0
  {
    forall id: MethodId, args: seq<int>, m: Machine, rest: seq<int>, fuel: nat ensures Served(a, w, id, args, m, rest, fuel) {
      if id in a.program && a.depth > 0 && Entered(w, id, args, m, rest) {
        ProgramRuns(a.host, a.program, w.(depth := w.depth - 1), id, args, rest, m, fuel);
      }
    }
  }

  /** Compiler correctness: in every emitted program, for every method, all arguments, every number of loop rounds and
      every nesting of calls, the block returns, faults or goes on exactly as the source method does. */
  lemma {:induction false} ProgramRuns(h: Host, p: Program, w: World, id: MethodId, args: seq<int>, rest: seq<int>, m: Machine, fuel: nat)
    requires OneWord(h) && Implements(p, w.methods) && w.host == h && id in p && w.methods[id].Some? && Takes(w.methods[id].value, args)
    requires |m.locals| == LOCAL_WORDS && m.stack == Reversed(args) + rest
    ensures SameResult(Invoke(w, w.methods[id].value, args, Env(m.locals, m.inst, m.heap, m.ext), fuel),
                       RunBody(h, p, p[id].code, m, fuel, w.depth), rest)
    decreases w.depth, 1
  {
    var r := w.methods[id].value;
    var a := Activation(h, p, p[id].code, w.depth);
    var n: Labels, base: nat :| EmittedFrom(p[id].code, r, n, base);
    hide Run, Invoke;
    ProgramServes(a, w);
    RoutineFollows(a, w, r, n, base, args, rest, m, fuel);
  }

  lemma AgreeMemory(r: Result, m: Machine, base: nat)
    ensures (r.Normal? || r.Returned?) && Agree(r.env, m, base) ==> m.heap == r.env.heap && m.ext == r.env.ext
  {
  }
}
