// The structured source the emitter translates, over integer variables, and its big-step meaning.

module Source {
  import opened Wrappers
  import opened Words
  import opened Bytecode

  datatype Expr =
    | IntLit(value: int)
    | Variable(slot: int)
    | Field(slot: int)                                   // a variable of the own instance
    | Effect(number: int)                                // any other expression that leaves one word
    | Calculated(op: IntOp, left: Expr, right: Expr)
    | Logic(isAnd: bool, right: Expr, left: Expr)        // the parser hangs the first operand on the right
    | Cond(test: Expr, yes: Expr, no: Expr)

  datatype Stmts = Nil | Cons(head: Stmt, tail: Stmts)

  datatype Chain = Chain(test: Expr, body: Stmts, orElse: Else)

  datatype Else = NoElse | ElseIf(next: Chain) | Otherwise(rest: Stmts)

  datatype Cases = NoCase | Case(value: int, body: Stmts, rest: Cases)

  datatype Stmt =
    | Assign(slot: int, value: Expr)
    | OpAssign(op: IntOp, slot: int, value: Expr)
    | SetField(slot: int, value: Expr)
    | OpSetField(op: IntOp, slot: int, value: Expr)
    | If(chain: Chain)
    | While(test: Expr, body: Stmts)
    | DoWhile(body: Stmts, test: Expr)
    | For(pre: Stmt, test: Expr, update: Stmt, body: Stmts)
    | Select(selector: Expr, cases: Cases, other: Option<Stmts>)
    | Call(id: MethodId, args: seq<Expr>, dest: Destination)  // of the same instance
    | Empty
    | Break
    | Return(result: Option<Expr>)

  /** What becomes of the value a call returns, if it returns one. */
  datatype Destination = Nowhere | Dropped | Into(slot: int)

  /** A method over local integers: the slots of its parameters, its statements, whether it constructs
      an instance, and whether it returns a value. */
  datatype Routine = Routine(params: seq<int>, body: Stmts, constructs: bool, valued: bool)

  /** The methods that can be called, None for a virtual one, and how deep calls may nest. */
  datatype World = World(host: Host, methods: map<MethodId, Option<Routine>>, depth: nat)

  /** The locals and the instance of the running method and the memory it shares. */
  datatype Env = Env(vars: seq<int>, inst: int, heap: Heap, ext: int)

  datatype Result =
    | Normal(env: Env, fuel: nat)
    | Broke(env: Env, fuel: nat)
    | Returned(values: seq<int>, env: Env, fuel: nat)
    | Crash
    | Out
    | Wrong                          // a call the analyzer does not accept

  function EffectCode(number: int): Instr {
    OTHER(Plain(number), 0)
  }

  /** Opaque expressions leave exactly one word and do not look at the operand stack. */
  ghost predicate OneWord(h: Host) {
    forall number: int, stack: seq<int>, heap: Heap, ext: int {:trigger h.other(EffectCode(number), stack, heap, ext)} ::
      var alone := h.other(EffectCode(number), [], heap, ext);
      && (alone.Some? ==> |alone.value.stack| == 1)
      && h.other(EffectCode(number), stack, heap, ext) ==
           if alone.None? then None else Some(alone.value.(stack := alone.value.stack + stack))
  }

  /** Operands are evaluated right to left, as the emitter places them; None is a machine fault.
      & and | stop early on their first operand. */
  function Eval(h: Host, e: Expr, env: Env): (r: Option<(int, Env)>)
    ensures r.Some? ==> r.value.1.vars == env.vars && r.value.1.inst == env.inst
  {
    match e
    case IntLit(v) => Some((v, env))
    case Variable(x) => if 0 <= x < |env.vars| then Some((env.vars[x], env)) else None
    case Field(x) => if env.inst == 0 then None else Some((HeapGet(env.heap, (env.inst, x)), env))
    case Effect(number) =>
      var r := h.other(EffectCode(number), [], env.heap, env.ext);
      if r.None? || |r.value.stack| != 1 then None
      else Some((r.value.stack[0], env.(heap := r.value.heap, ext := r.value.ext)))
    case Calculated(op, left, right) =>
      var r := Eval(h, right, env);
      if r.None? then None else
      var l := Eval(h, left, r.value.1);
      if l.None? then None else
      var v := EvalInt(op, l.value.0, r.value.0);
      if v.None? then None else Some((v.value, l.value.1))
    case Logic(isAnd, first, second) =>
      var r := Eval(h, first, env);
      if r.None? then None
      else if r.value.0 == Bool(isAnd) then Eval(h, second, r.value.1)
      else Some((Bool(!isAnd), r.value.1))
    case Cond(test, yes, no) =>
      var r := Eval(h, test, env);
      if r.None? then None
      else if r.value.0 == 0 then Eval(h, no, r.value.1) else Eval(h, yes, r.value.1)
  }

  /** Arguments are evaluated from the first to the last. */
  function EvalAll(h: Host, args: seq<Expr>, env: Env): (r: Option<(seq<int>, Env)>)
    ensures r.Some? ==> |r.value.0| == |args| && r.value.1.vars == env.vars && r.value.1.inst == env.inst
  {
    if args == [] then Some(([], env)) else
    var v := Eval(h, args[0], env);
    if v.None? then None else
    var rest := EvalAll(h, args[1..], v.value.1);
    if rest.None? then None else Some(([v.value.0] + rest.value.0, rest.value.1))
  }

  predicate InRange(env: Env, slot: int) {
    0 <= slot < |env.vars|
  }

  function Store(env: Env, slot: int, v: int): Env
    requires InRange(env, slot)
  {
    env.(vars := env.vars[slot := v])
  }

  function Put(env: Env, slot: int, v: int): Env {
    env.(heap := env.heap[(env.inst, slot) := v])
  }

  function Values(cases: Cases): seq<int> {
    match cases
    case NoCase => []
    case Case(value, _, rest) => [value] + Values(rest)
  }

  /** What a call reaches: virtual methods are bound through the instance. */
  function Target(w: World, id: MethodId, env: Env): Option<Routine> {
    if id !in w.methods then None
    else if w.methods[id].Some? then w.methods[id]
    else
      var bound := w.host.bind(id, env.inst, env.ext);
      if bound in w.methods then w.methods[bound] else None
  }

  /** The arguments fit the parameters, and these a frame. */
  predicate Takes(r: Routine, args: seq<int>) {
    |r.params| == |args| && SlotsFrom(r.params, 0, LOCAL_WORDS)
  }

  /** The frame of a callee. */
  function Fresh(h: Host, env: Env): Env {
    env.(vars := NewFrame(h, env.ext))
  }

  /** Arguments in their slots. */
  function Bind(vars: seq<int>, params: seq<int>, args: seq<int>): (r: seq<int>)
    requires |params| == |args| && SlotsFrom(params, 0, |vars|)
    ensures |r| == |vars|
    decreases |params|
  {
    if params == [] then vars else
    var last := |params| - 1;
    Bind(vars[params[last] := args[last]], params[..last], args[..last])
  }

  /** The caller goes on with the memory the callee leaves and, if it wants it, its value. */
  function Resume(r: Result, dest: Destination, env: Env): (result: Result)
    ensures result.Normal? ==> r.Returned? && result.fuel == r.fuel && |result.env.vars| == |env.vars| && result.env.inst == env.inst
    ensures !result.Broke? && !result.Returned?
  {
    match r
    case Returned(values, e, f) =>
      var env1 := env.(heap := e.heap, ext := e.ext);
      if |values| != (if dest.Nowhere? then 0 else 1) then Wrong
      else if !dest.Into? then Normal(env1, f)
      else if InRange(env1, dest.slot) then Normal(Store(env1, dest.slot, values[0]), f) else Crash
    case Crash => Crash
    case Out => Out
    case _ => Wrong
  }

  /** fuel bounds the times a loop goes round again. */
  function Exec(w: World, s: Stmt, env: Env, fuel: nat): (r: Result)
    ensures r.Normal? || r.Broke? || r.Returned? ==> r.fuel <= fuel && |r.env.vars| == |env.vars| && r.env.inst == env.inst
    decreases w.depth, fuel, s, 1
  {
    match s
    case Assign(x, e) =>
      var v := Eval(w.host, e, env);
      if v.None? || !InRange(env, x) then Crash else Normal(Store(v.value.1, x, v.value.0), fuel)
    case OpAssign(op, x, e) =>
      var v := Eval(w.host, e, env);
      if v.None? || !InRange(env, x) then Crash else
      var c := EvalInt(op, v.value.1.vars[x], v.value.0);
      if c.None? then Crash else Normal(Store(v.value.1, x, c.value), fuel)
    case SetField(x, e) =>
      var v := Eval(w.host, e, env);
      if v.None? || env.inst == 0 then Crash else Normal(Put(v.value.1, x, v.value.0), fuel)
    case OpSetField(op, x, e) =>
      var v := Eval(w.host, e, env);
      if v.None? || env.inst == 0 then Crash else
      var c := EvalInt(op, HeapGet(v.value.1.heap, (env.inst, x)), v.value.0);
      if c.None? then Crash else Normal(Put(v.value.1, x, c.value), fuel)
    case If(chain) => ExecIf(w, chain, env, fuel)
    case While(_, _) => ExecLoop(w, s, env, fuel)
    case For(pre, _, _, _) =>
      var r := Exec(w, pre, env, fuel);
      if r.Normal? then ExecLoop(w, s, r.env, r.fuel) else r
    case DoWhile(body, test) =>
      var r := ExecAll(w, body, env, fuel);
      if r.Broke? then Normal(r.env, r.fuel) else
      if !r.Normal? then r else
      var v := Eval(w.host, test, r.env);
      if v.None? then Crash
      else if v.value.0 != 1 then Normal(v.value.1, r.fuel)
      else if r.fuel == 0 then Out
      else Exec(w, s, v.value.1, r.fuel - 1)
    case Select(selector, cases, other) =>
      var v := Eval(w.host, selector, env);
      if v.None? then Crash
      else if v.value.0 in Values(cases) then ExecCase(w, cases, v.value.0, v.value.1, fuel)
      else if other.Some? then ExecAll(w, other.value, v.value.1, fuel)
      else Normal(v.value.1, fuel)
    case Call(id, args, dest) =>
      var v := EvalAll(w.host, args, env);
      if v.None? then Crash else
      var (values, env1) := v.value;
      var target := Target(w, id, env1);
      if target.None? then Crash
      else if !Takes(target.value, values) then Wrong
      else if w.depth == 0 then Out
      else Resume(Invoke(w.(depth := w.depth - 1), target.value, values, Fresh(w.host, env1), fuel), dest, env1)
    case Empty => Normal(env, fuel)
    case Break => Broke(env, fuel)
    case Return(result) =>
      if result.None? then Returned([], env, fuel) else
      var v := Eval(w.host, result.value, env);
      if v.None? then Crash else Returned([v.value.0], v.value.1, fuel)
  }

  /** A call: the arguments are bound, the statements run, and falling off the end returns. */
  function Invoke(w: World, r: Routine, args: seq<int>, env: Env, fuel: nat): (result: Result)
    requires Takes(r, args) && |env.vars| == LOCAL_WORDS
    ensures result.Returned? ==> result.fuel <= fuel
    decreases w.depth, fuel, r.body, 1
  {
    var result := ExecAll(w, r.body, env.(vars := Bind(env.vars, r.params, args)), fuel);
    if result.Normal? then Returned(if r.constructs then [env.inst] else [], result.env, result.fuel) else result
  }

  function ExecAll(w: World, ss: Stmts, env: Env, fuel: nat): (r: Result)
    ensures r.Normal? || r.Broke? || r.Returned? ==> r.fuel <= fuel && |r.env.vars| == |env.vars| && r.env.inst == env.inst
    decreases w.depth, fuel, ss, 0
  {
    if ss.Nil? then Normal(env, fuel) else
    var r := Exec(w, ss.head, env, fuel);
    if r.Normal? then ExecAll(w, ss.tail, r.env, r.fuel) else r
  }

  function ExecIf(w: World, chain: Chain, env: Env, fuel: nat): (r: Result)
    ensures r.Normal? || r.Broke? || r.Returned? ==> r.fuel <= fuel && |r.env.vars| == |env.vars| && r.env.inst == env.inst
    decreases w.depth, fuel, chain, 0
  {
    var v := Eval(w.host, chain.test, env);
    if v.None? then Crash
    else if v.value.0 != 0 then ExecAll(w, chain.body, v.value.1, fuel)
    else match chain.orElse
      case NoElse => Normal(v.value.1, fuel)
      case ElseIf(next) => ExecIf(w, next, v.value.1, fuel)
      case Otherwise(rest) => ExecAll(w, rest, v.value.1, fuel)
  }

  /** A while or for loop from its test on. */
  function ExecLoop(w: World, s: Stmt, env: Env, fuel: nat): (r: Result)
    requires s.While? || s.For?
    ensures r.Normal? || r.Broke? || r.Returned? ==> r.fuel <= fuel && |r.env.vars| == |env.vars| && r.env.inst == env.inst
    decreases w.depth, fuel, s, 0
  {
    var v := Eval(w.host, s.test, env);
    if v.None? then Crash
    else if v.value.0 == 0 then Normal(v.value.1, fuel)
    else
      var r := ExecAll(w, s.body, v.value.1, fuel);
      if r.Broke? then Normal(r.env, r.fuel) else
      if !r.Normal? then r else
      var u := if s.For? then Exec(w, s.update, r.env, r.fuel) else r;
      if u.Broke? then Normal(u.env, u.fuel)
      else if !u.Normal? then u
      else if u.fuel == 0 then Out
      else ExecLoop(w, s, u.env, u.fuel - 1)
  }

  function ExecCase(w: World, cases: Cases, v: int, env: Env, fuel: nat): (r: Result)
    ensures r.Normal? || r.Broke? || r.Returned? ==> r.fuel <= fuel && |r.env.vars| == |env.vars| && r.env.inst == env.inst
    decreases w.depth, fuel, cases, 0
  {
    match cases
    case NoCase => Normal(env, fuel)
    case Case(value, body, rest) => if v == value then ExecAll(w, body, env, fuel) else ExecCase(w, rest, v, env, fuel)
  }

  // ----- What the parser and the analyzer guarantee -----

  /** base is 1 when the method reserves slot 0 for and/or and conditional expressions, else 0. */
  predicate GoodExpr(e: Expr, base: nat) {
    match e
    case IntLit(_) => true
    case Variable(x) => base <= x < LOCAL_WORDS
    case Field(_) => true
    case Effect(_) => true
    case Calculated(_, l, r) => GoodExpr(l, base) && GoodExpr(r, base)
    case Logic(_, r, l) => base == 1 && GoodExpr(l, base) && GoodExpr(r, base)
    case Cond(t, y, n) => base == 1 && GoodExpr(t, base) && GoodExpr(y, base) && GoodExpr(n, base)
  }

  predicate Pure(e: Expr) {
    match e
    case IntLit(_) => true
    case Variable(_) => true
    case Field(_) => true
    case Effect(_) => false
    case Calculated(_, l, r) => Pure(l) && Pure(r)
    case Logic(_, r, l) => Pure(l) && Pure(r)
    case Cond(t, y, n) => Pure(t) && Pure(y) && Pure(n)
  }

  predicate Sorted(values: seq<int>) {
    forall i, j :: 0 <= i < j < |values| ==> values[i] < values[j]
  }

  predicate GoodStmt(s: Stmt, base: nat, inLoop: bool) {
    match s
    case Assign(x, e) => base <= x < LOCAL_WORDS && GoodExpr(e, base)
    case OpAssign(op, x, e) => op in {Add, Sub, Mul, Div} && base <= x < LOCAL_WORDS && GoodExpr(e, base)
    case SetField(_, e) => GoodExpr(e, base)
    case OpSetField(op, _, e) => op in {Add, Sub, Mul, Div} && GoodExpr(e, base)
    case If(chain) => GoodChain(chain, base, inLoop)
    case While(t, body) => GoodExpr(t, base) && GoodStmts(body, base, true)
    case DoWhile(body, t) => GoodExpr(t, base) && GoodStmts(body, base, true)
    case For(pre, t, update, body) =>
      GoodStmt(pre, base, inLoop) && GoodExpr(t, base) && GoodStmt(update, base, true) && GoodStmts(body, base, true)
    case Select(e, cases, other) =>
      && GoodExpr(e, base) && GoodCases(cases, base, inLoop) && (other.Some? ==> GoodStmts(other.value, base, inLoop))
      && cases.Case? && Sorted(Values(cases)) && (cases.rest.Case? ==> Pure(e))
    case Call(_, args, dest) => (forall e <- args :: GoodExpr(e, base)) && (dest.Into? ==> base <= dest.slot < LOCAL_WORDS)
    case Empty => true
    case Break => inLoop
    case Return(e) => e.Some? ==> GoodExpr(e.value, base)
  }

  predicate GoodStmts(ss: Stmts, base: nat, inLoop: bool) {
    ss.Cons? ==> GoodStmt(ss.head, base, inLoop) && GoodStmts(ss.tail, base, inLoop)
  }

  predicate GoodChain(chain: Chain, base: nat, inLoop: bool) {
    && GoodExpr(chain.test, base) && GoodStmts(chain.body, base, inLoop)
    && match chain.orElse
       case NoElse => true
       case ElseIf(next) => GoodChain(next, base, inLoop)
       case Otherwise(rest) => GoodStmts(rest, base, inLoop)
  }

  predicate GoodCases(cases: Cases, base: nat, inLoop: bool) {
    cases.Case? ==> GoodStmts(cases.body, base, inLoop) && GoodCases(cases.rest, base, inLoop)
  }

  // ----- Methods -----

  predicate LastReturns(ss: Stmts) {
    ss.Cons? && if ss.tail.Nil? then ss.head.Return? else LastReturns(ss.tail)
  }

  predicate Distinct(s: seq<int>) {
    forall i, j :: 0 <= i < j < |s| ==> s[i] != s[j]
  }

  predicate GoodRoutine(r: Routine, base: nat) {
    && GoodStmts(r.body, base, false)
    && Distinct(r.params) && SlotsFrom(r.params, base, LOCAL_WORDS)
  }

  predicate SlotsFrom(slots: seq<int>, base: int, size: int) {
    forall i :: 0 <= i < |slots| ==> base <= slots[i] < size
  }

  lemma {:induction false} Bound(vars: seq<int>, params: seq<int>, args: seq<int>, x: int)
    requires |params| == |args| && Distinct(params) && SlotsFrom(params, 0, |vars|) && 0 <= x < |vars|
    ensures forall i :: 0 <= i < |params| && params[i] == x ==> Bind(vars, params, args)[x] == args[i]
    ensures x !in params ==> Bind(vars, params, args)[x] == vars[x]
    decreases |params|
  {
    if params != [] {
      var last := |params| - 1;
      Bound(vars[params[last] := args[last]], params[..last], args[..last], x);
      if params[last] == x {
        forall i | 0 <= i < last ensures params[..last][i] != x {}
      } else {
        forall i | 0 <= i < |params| && params[i] == x ensures Bind(vars, params, args)[x] == args[i] {
          assert params[..last][i] == x;
        }
      }
    }
  }
}
