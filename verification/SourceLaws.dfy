// Equations between statements: each construct told by simpler ones.

module SourceLaws {
  import opened Wrappers
  import opened Words
  import opened Bytecode
  import opened Source

  function Append(ss: Stmts, last: Stmt): Stmts {
    match ss
    case Nil => Cons(last, Nil)
    case Cons(head, tail) => Cons(head, Append(tail, last))
  }

  lemma {:induction false} AppendRuns(w: World, ss: Stmts, last: Stmt, env: Env, fuel: nat)
    ensures ExecAll(w, Append(ss, last), env, fuel) ==
      var r := ExecAll(w, ss, env, fuel);
      if r.Normal? then Exec(w, last, r.env, r.fuel) else r
    decreases ss
  {
    hide Exec;
    match ss
    case Nil => OneRuns(w, last, env, fuel);
    case Cons(head, tail) =>
      var r := Exec(w, head, env, fuel);
      if r.Normal? { AppendRuns(w, tail, last, r.env, r.fuel); }
  }

  lemma OneRuns(w: World, s: Stmt, env: Env, fuel: nat)
    ensures ExecAll(w, Cons(s, Nil), env, fuel) == Exec(w, s, env, fuel)
  {
    hide Exec;
    var r := Exec(w, s, env, fuel);
    if r.Normal? { assert ExecAll(w, Nil, r.env, r.fuel) == r; }
  }

  lemma {:induction false} LoopsAlike(w: World, pre: Stmt, test: Expr, update: Stmt, body: Stmts, env: Env, fuel: nat)
    ensures ExecLoop(w, For(pre, test, update, body), env, fuel) == ExecLoop(w, While(test, Append(body, update)), env, fuel)
    decreases fuel
  {
    hide Exec, ExecAll, Eval;
    var s, t := For(pre, test, update, body), While(test, Append(body, update));
    var v := Eval(w.host, test, env);
    if v.Some? && v.value.0 != 0 {
      AppendRuns(w, body, update, v.value.1, fuel);
      var r := ExecAll(w, body, v.value.1, fuel);
      if r.Normal? {
        var u := Exec(w, update, r.env, r.fuel);
        if u.Normal? && u.fuel > 0 { LoopsAlike(w, pre, test, update, body, u.env, u.fuel - 1); }
      }
    }
  }

  /** for (pre; test; update) body is pre; while (test) { body; update }. */
  lemma ForIsWhile(w: World, pre: Stmt, test: Expr, update: Stmt, body: Stmts, env: Env, fuel: nat)
    ensures Exec(w, For(pre, test, update, body), env, fuel) ==
      ExecAll(w, Cons(pre, Cons(While(test, Append(body, update)), Nil)), env, fuel)
  {
    var loop := While(test, Append(body, update));
    var r := Exec(w, pre, env, fuel);
    if r.Normal? {
      LoopsAlike(w, pre, test, update, body, r.env, r.fuel);
      OneRuns(w, loop, r.env, r.fuel);
      assert Exec(w, loop, r.env, r.fuel) == ExecLoop(w, loop, r.env, r.fuel);
    }
  }

  /** x op= e is x := x op e, for variables of the method and of its instance. */
  lemma OperationAssigns(w: World, op: IntOp, x: int, e: Expr, env: Env, fuel: nat)
    ensures Exec(w, OpAssign(op, x, e), env, fuel) == Exec(w, Assign(x, Calculated(op, Variable(x), e)), env, fuel)
    ensures Exec(w, OpSetField(op, x, e), env, fuel) == Exec(w, SetField(x, Calculated(op, Field(x), e)), env, fuel)
  {
    hide EvalInt;
    var r := Eval(w.host, e, env);
    if r.Some? {
      assert Eval(w.host, Variable(x), r.value.1) == if InRange(env, x) then Some((r.value.1.vars[x], r.value.1)) else None;
      assert Eval(w.host, Field(x), r.value.1) ==
        if env.inst == 0 then None else Some((HeapGet(r.value.1.heap, (env.inst, x)), r.value.1));
    }
  }

  /** if (e == v1) body1 else if (e == v2) body2 ... else other. */
  function ChainOf(e: Expr, cases: Cases, other: Option<Stmts>): Chain
    requires cases.Case?
  {
    Chain(Calculated(Eql, e, IntLit(cases.value)), cases.body,
          if cases.rest.Case? then ElseIf(ChainOf(e, cases.rest, other))
          else if other.Some? then Otherwise(other.value) else NoElse)
  }

  lemma TestEquals(h: Host, e: Expr, v: int, env: Env, n: int)
    requires Eval(h, e, env) == Some((v, env))
    ensures Eval(h, Calculated(Eql, e, IntLit(n)), env) == Some((Bool(v == n), env))
  {
    var lit := IntLit(n);
    assert Eval(h, lit, env) == Some((n, env));
  }

  lemma {:induction false} CasesChain(w: World, e: Expr, cases: Cases, other: Option<Stmts>, v: int, env: Env, fuel: nat)
    requires cases.Case? && Eval(w.host, e, env) == Some((v, env))
    ensures ExecIf(w, ChainOf(e, cases, other), env, fuel) ==
      if v in Values(cases) then ExecCase(w, cases, v, env, fuel)
      else if other.Some? then ExecAll(w, other.value, env, fuel) else Normal(env, fuel)
    decreases cases
  {
    hide ExecAll, Eval;
    TestEquals(w.host, e, v, env, cases.value);
    if cases.rest.Case? { CasesChain(w, e, cases.rest, other, v, env, fuel); }
  }

  /** A select over an expression without effects is a chain of comparisons with its values, in order. */
  lemma SelectIsChain(w: World, e: Expr, cases: Cases, other: Option<Stmts>, v: int, env: Env, fuel: nat)
    requires cases.Case? && Eval(w.host, e, env) == Some((v, env))
    ensures Exec(w, Select(e, cases, other), env, fuel) == Exec(w, If(ChainOf(e, cases, other)), env, fuel)
  {
    hide ExecAll, Eval, ExecIf, ExecCase;
    CasesChain(w, e, cases, other, v, env, fuel);
  }

  /** 1 takes the first branch and 0 the second. */
  lemma BranchesTaken(w: World, yes: Expr, no: Expr, body: Stmts, rest: Stmts, env: Env, fuel: nat)
    ensures Eval(w.host, Cond(IntLit(1), yes, no), env) == Eval(w.host, yes, env)
    ensures Eval(w.host, Cond(IntLit(0), yes, no), env) == Eval(w.host, no, env)
    ensures Exec(w, If(Chain(IntLit(1), body, Otherwise(rest))), env, fuel) == ExecAll(w, body, env, fuel)
    ensures Exec(w, If(Chain(IntLit(0), body, Otherwise(rest))), env, fuel) == ExecAll(w, rest, env, fuel)
  {
    hide ExecAll;
    var one, zero := IntLit(1), IntLit(0);
    assert Eval(w.host, one, env) == Some((1, env)) && Eval(w.host, zero, env) == Some((0, env));
  }

  /** while (x > 0) { x := x - 1; } takes as many rounds as x counts, and leaves 0. */
  lemma {:induction false} CountsDown(w: World, x: int, env: Env, fuel: nat)
    requires InRange(env, x) && 0 <= env.vars[x] <= fuel && env.vars[x] < -INT_MIN
    ensures var loop := While(Calculated(Gtr, Variable(x), IntLit(0)), Cons(Assign(x, Calculated(Sub, Variable(x), IntLit(1))), Nil));
      Exec(w, loop, env, fuel) == Normal(Store(env, x, 0), fuel - env.vars[x])
    decreases env.vars[x]
  {
    var test, step := Calculated(Gtr, Variable(x), IntLit(0)), Assign(x, Calculated(Sub, Variable(x), IntLit(1)));
    var loop := While(test, Cons(step, Nil));
    var n := env.vars[x];
    VariableAgainst(w.host, Gtr, x, 0, env);
    VariableAgainst(w.host, Sub, x, 1, env);
    if n == 0 {
      assert Store(env, x, 0) == env;
    } else {
      var next := Store(env, x, n - 1);
      assert Exec(w, step, env, fuel) == Normal(next, fuel);
      OneRuns(w, step, env, fuel);
      CountsDown(w, x, next, fuel - 1);
      assert Store(next, x, 0) == Store(env, x, 0);
      assert Exec(w, loop, next, fuel - 1) == ExecLoop(w, loop, next, fuel - 1);
    }
    assert Exec(w, loop, env, fuel) == ExecLoop(w, loop, env, fuel);
  }

  lemma VariableAgainst(h: Host, op: IntOp, x: int, n: int, env: Env)
    requires InRange(env, x)
    ensures Eval(h, Calculated(op, Variable(x), IntLit(n)), env) ==
      var v := EvalInt(op, env.vars[x], n);
      if v.None? then None else Some((v.value, env))
  {
    hide EvalInt;
    var lit, variable := IntLit(n), Variable(x);
    assert Eval(h, lit, env) == Some((n, env)) && Eval(h, variable, env) == Some((env.vars[x], env));
  }

  /** A call of a method that returns the difference of its parameters stores the first argument less the second. */
  lemma CallSubtracts(w: World, id: MethodId, a: int, b: int, x: int, env: Env, fuel: nat)
    requires w.depth > 0 && InRange(env, x) && id in w.methods
    requires w.methods[id] == Some(Routine([1, 2], Cons(Return(Some(Calculated(Sub, Variable(1), Variable(2)))), Nil), false, true))
    ensures Exec(w, Call(id, [IntLit(a), IntLit(b)], Into(x)), env, fuel) == Normal(Store(env, x, Wrap(a - b)), fuel)
  {
    var e := Calculated(Sub, Variable(1), Variable(2));
    var r := w.methods[id].value;
    var args := [IntLit(a), IntLit(b)];
    ArgumentsLeftToRight(w.host, a, b, env);
    var callee := w.(depth := w.depth - 1);
    var env1 := Fresh(w.host, env);
    Bound(env1.vars, a, b);
    var env2 := env1.(vars := Bind(env1.vars, [1, 2], [a, b]));
    DifferenceOf(w.host, env2, a, b);
    var result := Returned([Wrap(a - b)], env2, fuel);
    assert ExecAll(callee, r.body, env2, fuel) == result by {
      assert Exec(callee, r.body.head, env2, fuel) == result;
    }
    assert Invoke(callee, r, [a, b], env1, fuel) == result;
  }

  lemma ArgumentsLeftToRight(h: Host, a: int, b: int, env: Env)
    ensures EvalAll(h, [IntLit(a), IntLit(b)], env) == Some(([a, b], env))
  {
    var x, y := IntLit(a), IntLit(b);
    assert Eval(h, x, env) == Some((a, env)) && Eval(h, y, env) == Some((b, env));
    hide Eval;
    assert EvalAll(h, [], env) == Some(([], env));
    FirstArgument(h, y, b, [], [], env);
    assert [y] + [] == [y] && [b] + [] == [b];
    FirstArgument(h, x, a, [y], [b], env);
    assert [x] + [y] == [x, y] && [a] + [b] == [a, b];
  }

  lemma FirstArgument(h: Host, e: Expr, v: int, args: seq<Expr>, values: seq<int>, env: Env)
    requires Eval(h, e, env) == Some((v, env)) && EvalAll(h, args, env) == Some((values, env))
    ensures EvalAll(h, [e] + args, env) == Some(([v] + values, env))
  {
    hide Eval;
    assert ([e] + args)[1..] == args;
  }

  lemma Bound(vars: seq<int>, a: int, b: int)
    requires |vars| > 2
    ensures SlotsFrom([1, 2], 0, |vars|)
    ensures var r := Bind(vars, [1, 2], [a, b]); |r| == |vars| && r[1] == a && r[2] == b
  {
    assert [1, 2][..1] == [1] && [a, b][..1] == [a] && [1][..0] == [] && [a][..0] == [];
    var v := vars[2 := b];
    assert Bind(v, [1], [a]) == Bind(v[1 := a], [], []);
  }

  lemma DifferenceOf(h: Host, env: Env, a: int, b: int)
    requires |env.vars| > 2 && env.vars[1] == a && env.vars[2] == b
    ensures Eval(h, Calculated(Sub, Variable(1), Variable(2)), env) == Some((Wrap(a - b), env))
  {
    var x, y := Variable(1), Variable(2);
    assert Eval(h, x, env) == Some((a, env)) && Eval(h, y, env) == Some((b, env));
  }

  /** A constructor returns its instance. */
  lemma InstanceReturned(w: World, env: Env, fuel: nat)
    requires |env.vars| == LOCAL_WORDS
    ensures Invoke(w, Routine([], Nil, true, true), [], env, fuel) == Returned([env.inst], env, fuel)
  {
    assert Bind(env.vars, [], []) == env.vars;
  }
}
