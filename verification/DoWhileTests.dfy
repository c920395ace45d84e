// A do/while goes round again when its test gives 1, where while and for ask for anything but 0.

module DoWhileTests {
  import opened Wrappers
  import opened Words
  import opened Bytecode
  import opened Source

  function NotZero(e: Expr): Expr {
    Calculated(Neql, e, IntLit(0))
  }

  /** Every test the loop comes to gives 0 or 1. */
  predicate TestsBoolean(w: World, body: Stmts, test: Expr, env: Env, fuel: nat)
    decreases fuel
  {
    var r := ExecAll(w, body, env, fuel);
    r.Normal? ==>
      var v := Eval(w.host, test, r.env);
      v.Some? ==> v.value.0 in {0, 1} && (v.value.0 == 1 && r.fuel > 0 ==> TestsBoolean(w, body, test, v.value.1, r.fuel - 1))
  }

  lemma NotZeroValue(h: Host, e: Expr, env: Env)
    ensures var v := Eval(h, e, env);
      Eval(h, NotZero(e), env) == if v.None? then None else Some((if v.value.0 != 0 then 1 else 0, v.value.1))
  {
  }

  /** Asking for 1 is asking for anything but 0 exactly if every test the loop comes to gives 0 or 1. */
  lemma {:induction false} DoWhileExact(w: World, body: Stmts, test: Expr, env: Env, fuel: nat)
    ensures Exec(w, DoWhile(body, test), env, fuel) == Exec(w, DoWhile(body, NotZero(test)), env, fuel)
            <==> TestsBoolean(w, body, test, env, fuel)
    decreases fuel
  {
    hide ExecAll, Eval;
    var r := ExecAll(w, body, env, fuel);
    if r.Normal? {
      var v := Eval(w.host, test, r.env);
      NotZeroValue(w.host, test, r.env);
      if v.Some? && v.value.0 == 1 && r.fuel > 0 { DoWhileExact(w, body, test, v.value.1, r.fuel - 1); }
    }
  }
}
