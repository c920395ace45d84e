// What Bool variables hold: in an accepted program that changes none of them by += or -= every Bool expression
// gives 0 or 1, so it does not matter that do/while asks for 1 and the other tests for anything but 0.

module Booleans {
  import opened Wrappers
  import opened Words
  import opened Bytecode
  import opened Source
  import opened DoWhileTests

  /** The Bool locals of a method, its Bool parameters, and whether it returns a Bool. */
  datatype Kinding = Kinding(bools: set<int>, params: seq<bool>, result: bool)

  /** The types of the methods, and the expressions of type Bool that are not looked into. */
  datatype Typing = Typing(kinds: map<MethodId, Kinding>, flags: set<int>)

  predicate Compares(op: IntOp) {
    op.Eql? || op.Neql? || op.Les? || op.Gtr? || op.LesEql? || op.GtrEql?
  }

  predicate BoolExpr(t: Typing, bools: set<int>, e: Expr) {
    match e
    case IntLit(v) => v == 0 || v == 1
    case Variable(x) => x in bools
    case Field(_) => false
    case Effect(number) => number in t.flags
    case Calculated(op, _, _) => Compares(op)
    case Logic(_, right, left) => BoolExpr(t, bools, right) && BoolExpr(t, bools, left)
    case Cond(_, yes, no) => BoolExpr(t, bools, yes) && BoolExpr(t, bools, no)
  }

  /** Tests are of type Bool, and what becomes of Bool type is; of the operation assignments the analyzer, which looks at
      none of them, only *= and /= are left to Bool variables. */
  predicate BoolStmt(t: Typing, k: Kinding, s: Stmt) {
    match s
    case Assign(x, e) => x in k.bools ==> BoolExpr(t, k.bools, e)
    case OpAssign(op, x, e) => x in k.bools ==> KeepsBools(op) && BoolExpr(t, k.bools, e)
    case SetField(_, _) => true
    case OpSetField(_, _, _) => true
    case If(chain) => BoolChain(t, k, chain)
    case While(test, body) => BoolExpr(t, k.bools, test) && BoolStmts(t, k, body)
    case DoWhile(body, test) => BoolExpr(t, k.bools, test) && BoolStmts(t, k, body)
    case For(pre, test, update, body) =>
      BoolStmt(t, k, pre) && BoolExpr(t, k.bools, test) && BoolStmt(t, k, update) && BoolStmts(t, k, body)
    case Select(_, cases, other) => BoolCases(t, k, cases) && (other.Some? ==> BoolStmts(t, k, other.value))
    case Call(id, args, dest) =>
      && id in t.kinds && BoolArgs(t, k.bools, t.kinds[id].params, args)
      && (dest.Into? && dest.slot in k.bools ==> t.kinds[id].result)
    case Return(e) => k.result && e.Some? ==> BoolExpr(t, k.bools, e.value)
    case Empty => true
    case Break => true
  }

  predicate BoolStmts(t: Typing, k: Kinding, ss: Stmts) {
    ss.Cons? ==> BoolStmt(t, k, ss.head) && BoolStmts(t, k, ss.tail)
  }

  predicate BoolChain(t: Typing, k: Kinding, chain: Chain) {
    && BoolExpr(t, k.bools, chain.test) && BoolStmts(t, k, chain.body)
    && match chain.orElse
       case NoElse => true
       case ElseIf(next) => BoolChain(t, k, next)
       case Otherwise(rest) => BoolStmts(t, k, rest)
  }

  predicate BoolCases(t: Typing, k: Kinding, cases: Cases) {
    cases.Case? ==> BoolStmts(t, k, cases.body) && BoolCases(t, k, cases.rest)
  }

  predicate BoolArgs(t: Typing, bools: set<int>, params: seq<bool>, args: seq<Expr>) {
    |params| == |args| && forall i :: 0 <= i < |args| && params[i] ==> BoolExpr(t, bools, args[i])
  }

  predicate KeepsBools(op: IntOp) {
    op == Mul || op == Div
  }

  predicate IsBool(v: int) {
    v == 0 || v == 1
  }

  /** Of the four operation assignments exactly *= and /= give a Bool for all Bool operands. */
  lemma KeepsBoolsExact(op: IntOp)
    requires op in {Add, Sub, Mul, Div}
    ensures KeepsBools(op) <==>
      forall a: int, b: int {:trigger EvalInt(op, a, b)} :: IsBool(a) && IsBool(b) && EvalInt(op, a, b).Some? ==> IsBool(EvalInt(op, a, b).value)
  {
    assert EvalInt(Add, 1, 1) == Some(2) && EvalInt(Sub, 0, 1) == Some(-1);
    assert EvalInt(Mul, 0, 0) == EvalInt(Mul, 0, 1) == EvalInt(Mul, 1, 0) == Some(0) && EvalInt(Mul, 1, 1) == Some(1);
    assert EvalInt(Div, 0, 1) == Some(0) && EvalInt(Div, 1, 1) == Some(1) && EvalInt(Div, 0, 0) == EvalInt(Div, 1, 0) == None;
    if op == Add { assert !IsBool(EvalInt(op, 1, 1).value); }
    if op == Sub { assert !IsBool(EvalInt(op, 0, 1).value); }
  }

  predicate BoolRoutine(t: Typing, k: Kinding, r: Routine) {
    && |k.params| == |r.params| && (forall i :: 0 <= i < |r.params| && r.params[i] in k.bools ==> k.params[i])
    && BoolStmts(t, k, r.body) && (k.result ==> !r.constructs)
  }

  /** Expressions of type Bool give Bools, fresh frames hold them where a method has Bool locals, and what a virtual
      method is bound to has its types. */
  ghost predicate BoolHost(h: Host, t: Typing) {
    && (forall number <- t.flags, heap: Heap, ext: int {:trigger h.other(EffectCode(number), [], heap, ext)} ::
          var r := h.other(EffectCode(number), [], heap, ext); r.Some? && |r.value.stack| == 1 ==> IsBool(r.value.stack[0]))
    && (forall id <- t.kinds, x <- t.kinds[id].bools, ext: int :: IsBool(h.stale(ext, x)))
    && (forall id <- t.kinds, inst: int, ext: int {:trigger h.bind(id, inst, ext)} :: h.bind(id, inst, ext) in t.kinds ==>
          t.kinds[h.bind(id, inst, ext)].params == t.kinds[id].params && t.kinds[h.bind(id, inst, ext)].result == t.kinds[id].result)
  }

  ghost predicate BoolWorld(w: World, t: Typing) {
    && w.methods.Keys == t.kinds.Keys && BoolHost(w.host, t)
    && forall id :: id in w.methods && w.methods[id].Some? ==> BoolRoutine(t, t.kinds[id], w.methods[id].value)
  }

  predicate BoolsIn(bools: set<int>, vars: seq<int>) {
    forall x <- bools :: 0 <= x < |vars| ==> IsBool(vars[x])
  }

  /** A Bool expression over Bool variables gives 0 or 1. */
  lemma {:induction false} BoolValue(h: Host, t: Typing, bools: set<int>, e: Expr, env: Env)
    requires BoolHost(h, t) && BoolsIn(bools, env.vars) && BoolExpr(t, bools, e)
    ensures Eval(h, e, env).Some? ==> IsBool(Eval(h, e, env).value.0)
  {
    hide BoolHost;
    match e
    case IntLit(_) =>
    case Variable(_) =>
    case Effect(number) => FlagValue(h, t, number, env);
    case Calculated(op, left, right) =>
      var r := Eval(h, right, env);
      if r.Some? && Eval(h, left, r.value.1).Some? { ComparisonValue(op, Eval(h, left, r.value.1).value.0, r.value.0); }
    case Logic(_, right, left) =>
      var r := Eval(h, right, env);
      if r.Some? { BoolValue(h, t, bools, left, r.value.1); }
    case Cond(test, yes, no) =>
      var r := Eval(h, test, env);
      if r.Some? {
        BoolValue(h, t, bools, yes, r.value.1);
        BoolValue(h, t, bools, no, r.value.1);
      }
  }

  lemma FlagValue(h: Host, t: Typing, number: int, env: Env)
    requires BoolHost(h, t) && number in t.flags
    ensures Eval(h, Expr.Effect(number), env).Some? ==> IsBool(Eval(h, Expr.Effect(number), env).value.0)
  {
  }

  lemma ComparisonValue(op: IntOp, left: int, right: int)
    requires Compares(op)
    ensures EvalInt(op, left, right).Some? && IsBool(EvalInt(op, left, right).value)
  {
  }

  lemma {:induction false} BoolValues(h: Host, t: Typing, bools: set<int>, params: seq<bool>, args: seq<Expr>, env: Env)
    requires BoolHost(h, t) && BoolsIn(bools, env.vars) && BoolArgs(t, bools, params, args)
    ensures var v := EvalAll(h, args, env); v.Some? ==> forall i :: 0 <= i < |args| && params[i] ==> IsBool(v.value.0[i])
    decreases |args|
  {
    if args == [] { return; }
    hide BoolHost, Eval, BoolsIn;
    var v := Eval(h, args[0], env);
    if v.None? { return; }
    if params[0] { BoolValue(h, t, bools, args[0], env); }
    BoolValues(h, t, bools, params[1..], args[1..], v.value.1);
    var rest := EvalAll(h, args[1..], v.value.1);
    if rest.Some? {
      forall i | 0 <= i < |args| && params[i] ensures IsBool(([v.value.0] + rest.value.0)[i]) {
        if i > 0 { assert params[1..][i - 1]; }
      }
    }
  }

  /** What a statement leaves in Bool variables, and what a Bool method returns, is Bool. */
  predicate Bools(r: Result, k: Kinding) {
    && (r.Normal? || r.Broke? ==> BoolsIn(k.bools, r.env.vars))
    && (r.Returned? && k.result ==> forall v <- r.values :: IsBool(v))
  }

  lemma {:induction false} BoolFrame(bools: set<int>, vars: seq<int>, params: seq<int>, args: seq<int>)
    requires |params| == |args| && SlotsFrom(params, 0, |vars|) && BoolsIn(bools, vars)
    requires forall i :: 0 <= i < |params| && params[i] in bools ==> IsBool(args[i])
    ensures BoolsIn(bools, Bind(vars, params, args))
    decreases |params|
  {
    if params != [] {
      var last := |params| - 1;
      BoolFrame(bools, vars[params[last] := args[last]], params[..last], args[..last]);
    }
  }

  lemma TargetBools(w: World, t: Typing, id: MethodId, env: Env) returns (k: Kinding)
    requires BoolWorld(w, t) && id in t.kinds && Target(w, id, env).Some?
    ensures BoolRoutine(t, k, Target(w, id, env).value) && k.params == t.kinds[id].params && k.result == t.kinds[id].result
    ensures forall ext: int :: BoolsIn(k.bools, NewFrame(w.host, ext))
  {
    var bound := if w.methods[id].Some? then id else w.host.bind(id, env.inst, env.ext);
    assert bound in w.methods && w.methods[bound].Some?;
    k := t.kinds[bound];
    hide BoolRoutine;
  }

  lemma CallBools(r: Result, dest: Destination, env: Env, callee: Kinding, k: Kinding)
    requires Bools(r, callee) && BoolsIn(k.bools, env.vars) && (dest.Into? && dest.slot in k.bools ==> callee.result)
    ensures Bools(Resume(r, dest, env), k)
  {
  }

  lemma {:induction false} ExecBools(w: World, t: Typing, k: Kinding, s: Stmt, env: Env, fuel: nat)
    requires BoolWorld(w, t) && BoolStmt(t, k, s) && BoolsIn(k.bools, env.vars)
    ensures Bools(Exec(w, s, env, fuel), k)
    decreases w.depth, fuel, s, 1
  {
    assert BoolHost(w.host, t);
    hide BoolWorld, BoolHost, Invoke, Target, Eval, EvalAll, EvalInt, BoolExpr, BoolArgs, BoolsIn;
    match s
    case Assign(x, e) => AssignBools(w.host, t, k, x, e, env);
    case OpAssign(op, x, e) => OpAssignBools(w.host, t, k, op, x, e, env);
    case SetField(_, _) =>
    case OpSetField(_, _, _) =>
    case If(chain) => IfBools(w, t, k, chain, env, fuel);
    case While(_, _) => LoopBools(w, t, k, s, env, fuel);
    case For(pre, _, _, _) =>
      ExecBools(w, t, k, pre, env, fuel);
      var r := Exec(w, pre, env, fuel);
      if r.Normal? { LoopBools(w, t, k, s, r.env, r.fuel); }
    case DoWhile(body, test) =>
      AllBools(w, t, k, body, env, fuel);
      var r := ExecAll(w, body, env, fuel);
      if r.Normal? {
        var v := Eval(w.host, test, r.env);
        if v.Some? && v.value.0 == 1 && r.fuel > 0 { ExecBools(w, t, k, s, v.value.1, r.fuel - 1); }
      }
    case Select(selector, cases, other) =>
      var v := Eval(w.host, selector, env);
      if v.Some? {
        CasesBools(w, t, k, cases, v.value.0, v.value.1, fuel);
        if other.Some? { AllBools(w, t, k, other.value, v.value.1, fuel); }
      }
    case Call(id, args, dest) =>
      var v := EvalAll(w.host, args, env);
      if v.Some? && Target(w, id, v.value.1).Some? {
        var (values, env1) := v.value;
        var target := Target(w, id, env1).value;
        if Takes(target, values) && w.depth > 0 {
          var callee := TargetBools(w, t, id, env1);
          BoolValues(w.host, t, k.bools, t.kinds[id].params, args, env);
          InvokeBools(w.(depth := w.depth - 1), t, callee, target, values, Fresh(w.host, env1), fuel);
          CallBools(Invoke(w.(depth := w.depth - 1), target, values, Fresh(w.host, env1), fuel), dest, env1, callee, k);
        }
      }
    case Return(e) => if e.Some? && k.result { BoolValue(w.host, t, k.bools, e.value, env); }
    case Empty =>
    case Break =>
  }

  lemma AssignBools(h: Host, t: Typing, k: Kinding, x: int, e: Expr, env: Env)
    requires BoolHost(h, t) && BoolsIn(k.bools, env.vars) && (x in k.bools ==> BoolExpr(t, k.bools, e))
    ensures var v := Eval(h, e, env);
      v.Some? && InRange(env, x) ==> BoolsIn(k.bools, Store(v.value.1, x, v.value.0).vars)
  {
    if x in k.bools { BoolValue(h, t, k.bools, e, env); }
    hide Eval, BoolHost, BoolExpr;
  }

  lemma OpAssignBools(h: Host, t: Typing, k: Kinding, op: IntOp, x: int, e: Expr, env: Env)
    requires BoolHost(h, t) && BoolsIn(k.bools, env.vars) && (x in k.bools ==> KeepsBools(op) && BoolExpr(t, k.bools, e))
    ensures var v := Eval(h, e, env);
      v.Some? && InRange(env, x) && EvalInt(op, v.value.1.vars[x], v.value.0).Some? ==>
        BoolsIn(k.bools, Store(v.value.1, x, EvalInt(op, v.value.1.vars[x], v.value.0).value).vars)
  {
    if x in k.bools {
      BoolValue(h, t, k.bools, e, env);
      KeepsBoolsExact(op);
    }
    hide Eval, BoolHost, BoolExpr, EvalInt;
  }

  lemma {:induction false} InvokeBools(w: World, t: Typing, k: Kinding, r: Routine, args: seq<int>, env: Env, fuel: nat)
    requires BoolWorld(w, t) && BoolRoutine(t, k, r) && Takes(r, args) && |env.vars| == LOCAL_WORDS && BoolsIn(k.bools, env.vars)
    requires forall i :: 0 <= i < |args| && k.params[i] ==> IsBool(args[i])
    ensures Bools(Invoke(w, r, args, env, fuel), k)
    decreases w.depth, fuel, r.body, 1
  {
    BoolFrame(k.bools, env.vars, r.params, args);
    hide BoolWorld, BoolStmts, ExecAll, BoolsIn;
    AllBools(w, t, k, r.body, env.(vars := Bind(env.vars, r.params, args)), fuel);
  }

  lemma {:induction false} AllBools(w: World, t: Typing, k: Kinding, ss: Stmts, env: Env, fuel: nat)
    requires BoolWorld(w, t) && BoolStmts(t, k, ss) && BoolsIn(k.bools, env.vars)
    ensures Bools(ExecAll(w, ss, env, fuel), k)
    decreases w.depth, fuel, ss, 0
  {
    hide BoolWorld, BoolStmt, Exec, BoolsIn;
    if ss.Cons? {
      ExecBools(w, t, k, ss.head, env, fuel);
      var r := Exec(w, ss.head, env, fuel);
      if r.Normal? { AllBools(w, t, k, ss.tail, r.env, r.fuel); }
    }
  }

  lemma {:induction false} IfBools(w: World, t: Typing, k: Kinding, chain: Chain, env: Env, fuel: nat)
    requires BoolWorld(w, t) && BoolChain(t, k, chain) && BoolsIn(k.bools, env.vars)
    ensures Bools(ExecIf(w, chain, env, fuel), k)
    decreases w.depth, fuel, chain, 0
  {
    hide BoolWorld, BoolStmts, BoolExpr, ExecAll, Eval, BoolsIn;
    var v := Eval(w.host, chain.test, env);
    if v.Some? {
      AllBools(w, t, k, chain.body, v.value.1, fuel);
      match chain.orElse
      case NoElse =>
      case ElseIf(next) => IfBools(w, t, k, next, v.value.1, fuel);
      case Otherwise(rest) => AllBools(w, t, k, rest, v.value.1, fuel);
    }
  }

  lemma {:induction false} LoopBools(w: World, t: Typing, k: Kinding, s: Stmt, env: Env, fuel: nat)
    requires BoolWorld(w, t) && BoolStmt(t, k, s) && (s.While? || s.For?) && BoolsIn(k.bools, env.vars)
    ensures Bools(ExecLoop(w, s, env, fuel), k)
    decreases w.depth, fuel, s, 0
  {
    hide BoolWorld, BoolStmts, BoolExpr, ExecAll, Exec, Eval, BoolsIn;
    var v := Eval(w.host, s.test, env);
    if v.Some? && v.value.0 != 0 {
      AllBools(w, t, k, s.body, v.value.1, fuel);
      var r := ExecAll(w, s.body, v.value.1, fuel);
      if r.Normal? {
        if s.For? { ExecBools(w, t, k, s.update, r.env, r.fuel); }
        var u := if s.For? then Exec(w, s.update, r.env, r.fuel) else r;
        if u.Normal? && u.fuel > 0 { LoopBools(w, t, k, s, u.env, u.fuel - 1); }
      }
    }
  }

  lemma {:induction false} CasesBools(w: World, t: Typing, k: Kinding, cases: Cases, v: int, env: Env, fuel: nat)
    requires BoolWorld(w, t) && BoolCases(t, k, cases) && BoolsIn(k.bools, env.vars)
    ensures Bools(ExecCase(w, cases, v, env, fuel), k)
    decreases w.depth, fuel, cases, 0
  {
    hide BoolWorld, BoolStmts, ExecAll, BoolsIn;
    if cases.Case? {
      AllBools(w, t, k, cases.body, env, fuel);
      CasesBools(w, t, k, cases.rest, v, env, fuel);
    }
  }

  // ----- Both loops -----

  lemma {:induction false} AcceptedTests(w: World, t: Typing, k: Kinding, body: Stmts, test: Expr, env: Env, fuel: nat)
    requires BoolWorld(w, t) && BoolStmt(t, k, DoWhile(body, test)) && BoolsIn(k.bools, env.vars)
    ensures TestsBoolean(w, body, test, env, fuel)
    decreases fuel
  {
    assert BoolHost(w.host, t);
    hide BoolWorld, BoolHost, BoolStmts, BoolExpr, ExecAll, Eval, BoolsIn;
    AllBools(w, t, k, body, env, fuel);
    var r := ExecAll(w, body, env, fuel);
    if r.Normal? {
      var v := Eval(w.host, test, r.env);
      BoolValue(w.host, t, k.bools, test, r.env);
      if v.Some? && v.value.0 == 1 && r.fuel > 0 { AcceptedTests(w, t, k, body, test, v.value.1, r.fuel - 1); }
    }
  }

  /** Every do/while of such a program runs as if it asked for anything but 0, as while and for do. */
  lemma AcceptedDoWhile(w: World, t: Typing, k: Kinding, body: Stmts, test: Expr, env: Env, fuel: nat)
    requires BoolWorld(w, t) && BoolStmt(t, k, DoWhile(body, test)) && BoolsIn(k.bools, env.vars)
    ensures Exec(w, DoWhile(body, test), env, fuel) == Exec(w, DoWhile(body, NotZero(test)), env, fuel)
  {
    AcceptedTests(w, t, k, body, test, env, fuel);
    hide Exec, TestsBoolean;
    DoWhileExact(w, body, test, env, fuel);
  }

  /** A Bool variable set to true and added true to, which the analyzer accepts: a do/while over it ends at once, where
      one asking for anything but 0 goes round for ever. */
  lemma AddedToTrue(w: World, x: nat, env: Env, fuel: nat)
    requires x < |env.vars|
    ensures var env' := env.(vars := env.vars[x := 2]);
      && ExecAll(w, Cons(Assign(x, IntLit(1)), Cons(OpAssign(Add, x, IntLit(1)), Nil)), env, fuel) == Normal(env', fuel)
      && Exec(w, DoWhile(Nil, Variable(x)), env', fuel) == Normal(env', fuel)
      && Exec(w, DoWhile(Nil, NotZero(Variable(x))), env', fuel) == Out
  {
    var env1, env' := env.(vars := env.vars[x := 1]), env.(vars := env.vars[x := 2]);
    assert env1.vars[x := 2] == env'.vars;
    assert EvalInt(Add, 1, 1) == Some(2);
    TwoAgain(w, x, env', fuel);
    assert Exec(w, OpAssign(Add, x, IntLit(1)), env1, fuel) == Normal(env', fuel);
    assert ExecAll(w, Cons(OpAssign(Add, x, IntLit(1)), Nil), env1, fuel) == Normal(env', fuel);
  }

  lemma {:induction false} TwoAgain(w: World, x: nat, env: Env, fuel: nat)
    requires x < |env.vars| && env.vars[x] == 2
    ensures Exec(w, DoWhile(Nil, Variable(x)), env, fuel) == Normal(env, fuel)
    ensures Exec(w, DoWhile(Nil, NotZero(Variable(x))), env, fuel) == Out
  {
    NotZeroValue(w.host, Variable(x), env);
    if fuel > 0 { TwoAgain(w, x, env, fuel - 1); }
  }
}
