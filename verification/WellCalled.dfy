// What the contextual analyzer promises of calls: in a program it accepts no call goes wrong, however deep calls nest.

module WellCalled {
  import opened Wrappers
  import opened Words
  import opened Bytecode
  import opened Source
  import opened Compiler

  /** How many arguments a method takes and whether it leaves a word. */
  datatype Signature = Signature(arity: nat, leaves: bool)

  type Signatures = map<MethodId, Signature>

  /** Whether the return statements of a method give a value; a constructor has none. */
  type Kind = Option<bool>

  function KindOf(r: Routine): Kind {
    if r.constructs then None else Some(r.valued)
  }

  predicate CheckedStmt(sigs: Signatures, kind: Kind, s: Stmt) {
    match s
    case Call(id, args, dest) => id in sigs && |args| == sigs[id].arity && (dest.Nowhere? <==> !sigs[id].leaves)
    case Return(e) => kind == Some(e.Some?)
    case If(chain) => CheckedChain(sigs, kind, chain)
    case While(_, body) => CheckedStmts(sigs, kind, body)
    case DoWhile(body, _) => CheckedStmts(sigs, kind, body)
    case For(pre, _, update, body) => CheckedStmt(sigs, kind, pre) && CheckedStmt(sigs, kind, update) && CheckedStmts(sigs, kind, body)
    case Select(_, cases, other) => CheckedCases(sigs, kind, cases) && (other.Some? ==> CheckedStmts(sigs, kind, other.value))
    case _ => true
  }

  predicate CheckedStmts(sigs: Signatures, kind: Kind, ss: Stmts) {
    ss.Cons? ==> CheckedStmt(sigs, kind, ss.head) && CheckedStmts(sigs, kind, ss.tail)
  }

  predicate CheckedChain(sigs: Signatures, kind: Kind, chain: Chain) {
    && CheckedStmts(sigs, kind, chain.body)
    && match chain.orElse
       case NoElse => true
       case ElseIf(next) => CheckedChain(sigs, kind, next)
       case Otherwise(rest) => CheckedStmts(sigs, kind, rest)
  }

  predicate CheckedCases(sigs: Signatures, kind: Kind, cases: Cases) {
    cases.Case? ==> CheckedStmts(sigs, kind, cases.body) && CheckedCases(sigs, kind, cases.rest)
  }

  /** A method that returns a value ends in a return; one with parameters has a frame for them. */
  ghost predicate CheckedRoutine(sigs: Signatures, r: Routine) {
    && CheckedStmts(sigs, KindOf(r), r.body) && (KindOf(r) == Some(true) ==> LastReturns(r.body))
    && exists base: nat :: GoodRoutine(r, base)
  }

  function SignatureOf(r: Routine): Signature {
    Signature(|r.params|, KindOf(r) != Some(false))
  }

  /** Every method is declared as it is, and what a virtual one is bound to is declared as the virtual one. */
  ghost predicate Checked(h: Host, methods: map<MethodId, Option<Routine>>, sigs: Signatures) {
    && methods.Keys == sigs.Keys
    && (forall id :: id in methods && methods[id].Some? ==>
          sigs[id] == SignatureOf(methods[id].value) && CheckedRoutine(sigs, methods[id].value))
    && (forall id, inst: int, ext: int {:trigger h.bind(id, inst, ext)} ::
          id in methods && methods[id].None? && h.bind(id, inst, ext) in methods ==> sigs[h.bind(id, inst, ext)] == sigs[id])
  }

  /** A statement does not go wrong, and returns what its method's return statements give. */
  predicate Keeps(r: Result, kind: Kind) {
    !r.Wrong? && (r.Returned? ==> kind == Some(|r.values| == 1) && |r.values| <= 1)
  }

  /** A call comes back with a word exactly if its method leaves one. */
  predicate Answered(r: Result, leaves: bool) {
    !r.Wrong? && !r.Normal? && !r.Broke? && (r.Returned? ==> |r.values| == if leaves then 1 else 0)
  }

  lemma TargetChecked(w: World, sigs: Signatures, id: MethodId, env: Env)
    requires Checked(w.host, w.methods, sigs) && id in sigs && Target(w, id, env).Some?
    ensures var r := Target(w, id, env).value; SignatureOf(r) == sigs[id] && CheckedRoutine(sigs, r)
  {
    if w.methods[id].None? {
      var bound := w.host.bind(id, env.inst, env.ext);
      assert bound in w.methods && sigs[bound] == sigs[id];
    }
  }

  lemma ParamsFit(sigs: Signatures, r: Routine, args: seq<int>)
    requires CheckedRoutine(sigs, r) && |args| == |r.params|
    ensures Takes(r, args)
  {
  }

  lemma ResumeKeeps(r: Result, dest: Destination, leaves: bool, env: Env, kind: Kind)
    requires Answered(r, leaves) && (dest.Nowhere? <==> !leaves)
    ensures Keeps(Resume(r, dest, env), kind)
  {
  }

  lemma {:induction false} ExecKeeps(w: World, sigs: Signatures, kind: Kind, s: Stmt, env: Env, fuel: nat)
    requires Checked(w.host, w.methods, sigs) && CheckedStmt(sigs, kind, s)
    ensures Keeps(Exec(w, s, env, fuel), kind)
    decreases w.depth, fuel, s, 1
  {
    hide Checked, Invoke, Target, Eval, EvalAll;
    match s
    case If(chain) => IfKeeps(w, sigs, kind, chain, env, fuel);
    case While(_, _) => LoopKeeps(w, sigs, kind, s, env, fuel);
    case For(pre, _, _, _) =>
      ExecKeeps(w, sigs, kind, pre, env, fuel);
      var r := Exec(w, pre, env, fuel);
      if r.Normal? { LoopKeeps(w, sigs, kind, s, r.env, r.fuel); }
    case DoWhile(body, test) =>
      AllKeeps(w, sigs, kind, body, env, fuel);
      var r := ExecAll(w, body, env, fuel);
      if r.Normal? {
        var v := Eval(w.host, test, r.env);
        if v.Some? && v.value.0 == 1 && r.fuel > 0 { ExecKeeps(w, sigs, kind, s, v.value.1, r.fuel - 1); }
      }
    case Select(selector, cases, other) =>
      var v := Eval(w.host, selector, env);
      if v.Some? {
        CasesKeep(w, sigs, kind, cases, v.value.0, v.value.1, fuel);
        if other.Some? { AllKeeps(w, sigs, kind, other.value, v.value.1, fuel); }
      }
    case Call(id, args, dest) =>
      var v := EvalAll(w.host, args, env);
      if v.Some? && Target(w, id, v.value.1).Some? {
        var (values, env1) := v.value;
        var target := Target(w, id, env1).value;
        TargetChecked(w, sigs, id, env1);
        ParamsFit(sigs, target, values);
        if w.depth > 0 {
          var callee := w.(depth := w.depth - 1);
          InvokeAnswers(callee, sigs, target, values, Fresh(w.host, env1), fuel);
          ResumeKeeps(Invoke(callee, target, values, Fresh(w.host, env1), fuel), dest, sigs[id].leaves, env1, kind);
        }
      }
    case _ =>
  }

  /** No call goes wrong, and each leaves a word exactly if its method is declared to. */
  lemma {:induction false} InvokeAnswers(w: World, sigs: Signatures, r: Routine, args: seq<int>, env: Env, fuel: nat)
    requires Checked(w.host, w.methods, sigs) && CheckedRoutine(sigs, r) && Takes(r, args) && |env.vars| == LOCAL_WORDS
    ensures Answered(Invoke(w, r, args, env, fuel), SignatureOf(r).leaves)
    decreases w.depth, fuel, r.body, 1
  {
    hide Checked, ExecAll, GoodRoutine, CheckedStmts;
    var bound := env.(vars := Bind(env.vars, r.params, args));
    var base: nat :| GoodRoutine(r, base);
    AllKeeps(w, sigs, KindOf(r), r.body, bound, fuel);
    GoodBody(r, base);
    NoBreakAll(w, r.body, bound, fuel, base);
    if LastReturns(r.body) { LastReturnsNotNormal(w, r.body, bound, fuel); }
  }

  lemma GoodBody(r: Routine, base: nat)
    requires GoodRoutine(r, base)
    ensures GoodStmts(r.body, base, false)
  {
  }

  lemma {:induction false} AllKeeps(w: World, sigs: Signatures, kind: Kind, ss: Stmts, env: Env, fuel: nat)
    requires Checked(w.host, w.methods, sigs) && CheckedStmts(sigs, kind, ss)
    ensures Keeps(ExecAll(w, ss, env, fuel), kind)
    decreases w.depth, fuel, ss, 0
  {
    hide Checked, CheckedStmt, Exec;
    if ss.Cons? {
      ExecKeeps(w, sigs, kind, ss.head, env, fuel);
      var r := Exec(w, ss.head, env, fuel);
      if r.Normal? { AllKeeps(w, sigs, kind, ss.tail, r.env, r.fuel); }
    }
  }

  lemma {:induction false} IfKeeps(w: World, sigs: Signatures, kind: Kind, chain: Chain, env: Env, fuel: nat)
    requires Checked(w.host, w.methods, sigs) && CheckedChain(sigs, kind, chain)
    ensures Keeps(ExecIf(w, chain, env, fuel), kind)
    decreases w.depth, fuel, chain, 0
  {
    hide Checked, CheckedStmts, ExecAll, Eval;
    var v := Eval(w.host, chain.test, env);
    if v.Some? {
      AllKeeps(w, sigs, kind, chain.body, v.value.1, fuel);
      match chain.orElse
      case NoElse =>
      case ElseIf(next) => IfKeeps(w, sigs, kind, next, v.value.1, fuel);
      case Otherwise(rest) => AllKeeps(w, sigs, kind, rest, v.value.1, fuel);
    }
  }

  lemma {:induction false} LoopKeeps(w: World, sigs: Signatures, kind: Kind, s: Stmt, env: Env, fuel: nat)
    requires Checked(w.host, w.methods, sigs) && CheckedStmt(sigs, kind, s) && (s.While? || s.For?)
    ensures Keeps(ExecLoop(w, s, env, fuel), kind)
    decreases w.depth, fuel, s, 0
  {
    hide Checked, CheckedStmts, ExecAll, Exec, Eval;
    var v := Eval(w.host, s.test, env);
    if v.Some? && v.value.0 != 0 {
      AllKeeps(w, sigs, kind, s.body, v.value.1, fuel);
      var r := ExecAll(w, s.body, v.value.1, fuel);
      if r.Normal? {
        if s.For? { ExecKeeps(w, sigs, kind, s.update, r.env, r.fuel); }
        var u := if s.For? then Exec(w, s.update, r.env, r.fuel) else r;
        if u.Normal? && u.fuel > 0 { LoopKeeps(w, sigs, kind, s, u.env, u.fuel - 1); }
      }
    }
  }

  lemma {:induction false} CasesKeep(w: World, sigs: Signatures, kind: Kind, cases: Cases, v: int, env: Env, fuel: nat)
    requires Checked(w.host, w.methods, sigs) && CheckedCases(sigs, kind, cases)
    ensures Keeps(ExecCase(w, cases, v, env, fuel), kind)
    decreases w.depth, fuel, cases, 0
  {
    hide Checked, CheckedStmts, ExecAll;
    if cases.Case? {
      AllKeeps(w, sigs, kind, cases.body, env, fuel);
      CasesKeep(w, sigs, kind, cases.rest, v, env, fuel);
    }
  }
}
