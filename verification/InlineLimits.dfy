// Where method inlining is not meaning-preserving because of function variables, and exactly when it is.

module InlineLimits {
  import opened Wrappers
  import opened Words
  import opened Bytecode
  import opened Simulation
  import opened Passes
  import opened Accessors
  import opened Inlining
  import opened InlineMethod
  import opened Programs
  import opened Pipeline

  const CALLER: MethodId := (0, 0)
  const CALLEE: MethodId := (0, 1)

  function Body(code: seq<Instr>): Method {
    Method(0, 0, "", "", false, 0, 8, code)
  }

  /** Two methods of one class. */
  function Pair(caller: seq<Instr>, callee: seq<Instr>): Program {
    map[CALLER := Body(caller), CALLEE := Body(callee)]
  }

  function CallerWith(first: Instr, last: Instr): seq<Instr> {
    [first, LOAD_INST_MEM, MTHD_CALL(CALLEE), last, RTRN]
  }

  lemma KeptInstr(p: Program, current: MethodId, offset: nat, labels: set<int>, i: Instr, rest: seq<Instr>, space: nat,
                  inlined: set<MethodId>)
    requires current in p && !i.MTHD_CALL?
    ensures InlineCalls(p, current, offset, labels, [i] + rest, space, inlined) ==
      [i] + InlineCalls(p, current, offset, labels, rest, space, inlined)
    ensures InlinedIds(p, current, labels, [i] + rest, space, inlined) == InlinedIds(p, current, labels, rest, space, inlined)
  {
    assert ([i] + rest)[1..] == rest;
  }

  lemma TakenCall(p: Program, current: MethodId, offset: nat, labels: set<int>, id: MethodId, rest: seq<Instr>, space: nat,
                  inlined: set<MethodId>)
    requires current in p && CanInlineMethod(p, current, id, space, inlined, labels)
    ensures InlineCalls(p, current, offset, labels, [MTHD_CALL(id)] + rest, space, inlined) ==
      InlinedBody(offset, p[id].code) + InlineCalls(p, current, offset, labels, rest, space + 8 + p[id].space, inlined + {id})
    ensures InlinedIds(p, current, labels, [MTHD_CALL(id)] + rest, space, inlined) ==
      [id] + InlinedIds(p, current, labels, rest, space + 8 + p[id].space, inlined + {id})
  {
    hide CanInlineMethod;
    assert ([MTHD_CALL(id)] + rest)[1..] == rest;
  }

  lemma ReturnOnly(p: Program, current: MethodId, offset: nat, labels: set<int>, space: nat, inlined: set<MethodId>)
    requires current in p
    ensures InlineCalls(p, current, offset, labels, [RTRN], space, inlined) == [RTRN]
    ensures InlinedIds(p, current, labels, [RTRN], space, inlined) == []
  {
    assert [RTRN][1..] == [] && [RTRN] + [] == [RTRN];
  }

  lemma Allowed(callee: seq<Instr>, caller: seq<Instr>, labels: set<int>)
    requires |callee| >= 2 && BodyInlinable(callee, labels, false)
    ensures CanInlineMethod(Pair(caller, callee), CALLER, CALLEE, 8, {}, labels)
  {
    assert !Contains("", ":New:") && !Contains("", ":Main:o.System.String*,");
  }

  /** What inlining makes of such a caller. */
  lemma InlinedCaller(first: Instr, last: Instr, callee: seq<Instr>, offset: nat)
    requires !first.MTHD_CALL? && !last.MTHD_CALL? && |callee| >= 2 && BodyInlinable(callee, {}, false)
    ensures InlineCalls(Pair(CallerWith(first, last), callee), CALLER, offset, {}, CallerWith(first, last), 8, {}) ==
      [first, LOAD_INST_MEM] + (InlinedBody(offset, callee) + [last, RTRN])
  {
    hide CanInlineMethod, InlinedBody, InlineCalls, BodyInlinable, CallerWith;
    var code := CallerWith(first, last);
    var p, body := Pair(code, callee), InlinedBody(offset, callee);
    Allowed(callee, code, {});
    ReturnOnly(p, CALLER, offset, {}, 24, {} + {CALLEE});
    KeptInstr(p, CALLER, offset, {}, last, [RTRN], 24, {} + {CALLEE});
    TakenCall(p, CALLER, offset, {}, CALLEE, [last] + [RTRN], 8, {});
    KeptInstr(p, CALLER, offset, {}, LOAD_INST_MEM, [MTHD_CALL(CALLEE)] + ([last] + [RTRN]), 8, {});
    KeptInstr(p, CALLER, offset, {}, first, [LOAD_INST_MEM] + ([MTHD_CALL(CALLEE)] + ([last] + [RTRN])), 8, {});
    CallerParts(first, last, body);
  }

  lemma CallerParts(first: Instr, last: Instr, body: seq<Instr>)
    ensures CallerWith(first, last) == [first] + ([LOAD_INST_MEM] + ([MTHD_CALL(CALLEE)] + ([last] + [RTRN])))
    ensures [first] + ([LOAD_INST_MEM] + (body + ([last] + [RTRN]))) == [first, LOAD_INST_MEM] + (body + [last, RTRN])
  {
  }

  lemma LastOf(i: Instr, rest: seq<Instr>)
    ensures LastLocalOffset([i] + rest) ==
      (var n := LastLocalOffset(rest); if IsVariable(i) && i.ctx == LOCL && i.slot > n then i.slot else n)
  {
    assert ([i] + rest)[1..] == rest;
  }

  lemma LastOfCaller(first: Instr, last: Instr)
    requires !first.MTHD_CALL? && IsVariable(first) == IsVariable(last)
    requires IsVariable(first) ==> first.ctx == last.ctx == LOCL && first.slot == last.slot >= 0
    ensures LastLocalOffset(CallerWith(first, last)) == if IsVariable(first) then first.slot else 0
  {
    var empty: seq<Instr> := [];
    hide LastLocalOffset;
    assert [RTRN] == [RTRN] + empty;
    LastOf(RTRN, empty);
    LastOf(last, [RTRN]);
    LastOf(MTHD_CALL(CALLEE), [last] + [RTRN]);
    LastOf(LOAD_INST_MEM, [MTHD_CALL(CALLEE)] + ([last] + [RTRN]));
    LastOf(first, [LOAD_INST_MEM] + ([MTHD_CALL(CALLEE)] + ([last] + [RTRN])));
    NoLast();
    assert CallerWith(first, last) == [first] + ([LOAD_INST_MEM] + ([MTHD_CALL(CALLEE)] + ([last] + [RTRN])));
  }

  lemma NoLast()
    ensures LastLocalOffset([]) == 0
  {
  }

  /** One machine whose runs end visibly apart refutes refinement. */
  lemma TellsApart(h: Host, p: Program, before: seq<Instr>, after: seq<Instr>, m: Machine)
    requires Sized(m) && m.cls == 0 && !RunBody(h, p, before, m, 0, 1).Timeout?
    requires Visible(RunBody(h, p, before, m, 0, 1)) != Visible(RunBody(h, p, after, m, 0, 1))
    ensures !RefinesMethod(h, p, 0, before, after, 1)
  {
  }

  // ----- Straight-line callers, before and after inlining -----

  /** The caller as it was: first, the call, last. */
  lemma CallerRuns(h: Host, first: Instr, last: Instr, front: seq<Instr>, m: Machine, fuel: nat, d: nat)
    requires !IsControl(first) && !IsControl(last) && Simple(front) && Sized(m)
    ensures var p := Pair(CallerWith(first, last), front + [RTRN]);
      var r := RunBody(h, p, CallerWith(first, last), m, fuel, d);
      var s := Step(h, first, m);
      r == if s.None? then Fault else if d == 0 then Timeout else
        var t := Straight(h, front, Enter(h, p[CALLEE], s.value.(stack := [m.inst] + s.value.stack)));
        if t.None? then Fault else
        var u := Step(h, last, Leave(s.value, t.value));
        if u.None? then Fault else Done(u.value, fuel)
  {
    var code := CallerWith(first, last);
    var p := Pair(code, front + [RTRN]);
    var a := Activation(h, p, code, d);
    assert code == [first, LOAD_INST_MEM] + ([MTHD_CALL(CALLEE)] + ([last] + [RTRN]));
    hide Step;
    RunStraight(a, [first, LOAD_INST_MEM], [MTHD_CALL(CALLEE)] + ([last] + [RTRN]), m, fuel);
    StraightTwo(h, first, LOAD_INST_MEM, m);
    var s := Step(h, first, m);
    if s.None? { return; }
    LoadsInstance(h, s.value);
    var n := s.value.(stack := [m.inst] + s.value.stack);
    var rest := [MTHD_CALL(CALLEE)] + ([last] + [RTRN]);
    CallThen(a, front, last, n, fuel);
  }

  lemma CallThen(a: Activation, front: seq<Instr>, last: Instr, n: Machine, fuel: nat)
    requires CALLEE in a.program && a.program[CALLEE] == Body(front + [RTRN]) && Simple(front) && |n.stack| > 0 && !IsControl(last)
    ensures var r := Run(a, [MTHD_CALL(CALLEE)] + ([last] + [RTRN]), n, fuel);
      r == if a.depth == 0 then Timeout else
        var t := Straight(a.host, front, Enter(a.host, a.program[CALLEE], n));
        if t.None? then Fault else
        var u := Step(a.host, last, Leave(n, t.value));
        if u.None? then Fault else Done(u.value, fuel)
  {
    var rest := [MTHD_CALL(CALLEE)] + ([last] + [RTRN]);
    assert rest[1..] == [last] + [RTRN];
    RunCall(a, rest, n, fuel);
    if a.depth == 0 { return; }
    assert Front(front + [RTRN]) == front;
    CallStraight(a.host, a.program, CALLEE, n, fuel, a.depth - 1);
    hide Step, Run, Call, Straight;
    var t := Straight(a.host, front, Enter(a.host, a.program[CALLEE], n));
    if t.Some? { Finishes(a, last, Leave(n, t.value), fuel); }
  }

  lemma LoadsInstance(h: Host, m: Machine)
    ensures Step(h, LOAD_INST_MEM, m) == Some(m.(stack := [m.inst] + m.stack))
  {
  }

  lemma Finishes(a: Activation, last: Instr, m: Machine, fuel: nat)
    requires !IsControl(last)
    ensures Run(a, [last] + [RTRN], m, fuel) ==
      (var u := Step(a.host, last, m); if u.None? then Fault else Done(u.value, fuel))
  {
    hide Step;
    RunStraight(a, [last], [RTRN], m, fuel);
    StraightOne(a.host, last, m);
    var u := Step(a.host, last, m);
    if u.Some? { assert Run(a, [RTRN], u.value, fuel) == Done(u.value, fuel); }
  }

  /** The caller with the body inlined: first, the instance kept, the body in the caller's frame, last. */
  lemma InlinedRuns(h: Host, p: Program, first: Instr, last: Instr, body: seq<Instr>, offset: nat, m: Machine, fuel: nat, d: nat)
    requires !IsControl(first) && !IsControl(last) && Simple(body) && Sized(m) && offset < LOCAL_WORDS
    ensures var code := [first, LOAD_INST_MEM] + ([STOR_INT_VAR(offset, LOCL)] + body + [last, RTRN]);
      var s := Step(h, first, m);
      RunBody(h, p, code, m, fuel, d) ==
        if s.None? then Fault else
        var t := Straight(h, body, s.value.(locals := s.value.locals[offset := m.inst]));
        if t.None? then Fault else
        var u := Step(h, last, t.value);
        if u.None? then Fault else Done(u.value, fuel)
  {
    var store := STOR_INT_VAR(offset, LOCL);
    var code := [first, LOAD_INST_MEM] + ([store] + body + [last, RTRN]);
    var a := Activation(h, p, code, d);
    assert code == [first, LOAD_INST_MEM, store] + (body + ([last] + [RTRN]));
    RunStraight(a, [first, LOAD_INST_MEM, store], body + ([last] + [RTRN]), m, fuel);
    StraightThree(h, first, LOAD_INST_MEM, store, m);
    var s := Step(h, first, m);
    if s.None? { return; }
    var n := s.value.(stack := [m.inst] + s.value.stack);
    assert ([m.inst] + s.value.stack)[1..] == s.value.stack;
    var k := s.value.(locals := s.value.locals[offset := m.inst]);
    assert Step(h, LOAD_INST_MEM, s.value) == Some(n) && Step(h, store, n) == Some(k);
    hide Step;
    RunStraight(a, body, [last] + [RTRN], k, fuel);
    var t := Straight(h, body, k);
    if t.Some? { Finishes(a, last, t.value, fuel); }
  }

  // ----- Function variables -----

  function FunctionCaller(x: nat): seq<Instr> {
    CallerWith(STOR_FUNC_VAR(x, LOCL), LOAD_FUNC_VAR(x, LOCL))
  }

  function StoringCallee(s: nat): seq<Instr> {
    [LOAD_INT_LIT(7), STOR_INT_VAR(s, LOCL)] + [RTRN]
  }

  function Inlined(caller: seq<Instr>, callee: seq<Instr>): seq<Instr> {
    InlineCalls(Pair(caller, callee), CALLER, LastLocalOffset(caller) + 2, {}, caller, 8, {})
  }

  /** The function variable does not make the caller's last local any larger. */
  lemma FunctionsNotCounted(x: nat)
    ensures LastLocalOffset(FunctionCaller(x)) == 0
  {
    LastOfCaller(STOR_FUNC_VAR(x, LOCL), LOAD_FUNC_VAR(x, LOCL));
  }

  /** The caller keeps its function variable across the call. */
  lemma FunctionKept(h: Host, x: nat, s: nat, m: Machine, fuel: nat, d: nat)
    requires x + 1 < LOCAL_WORDS && s < LOCAL_WORDS && Sized(m)
    ensures var r := RunBody(h, Pair(FunctionCaller(x), StoringCallee(s)), FunctionCaller(x), m, fuel, d);
      if |m.stack| < 2 then r == Fault else if d == 0 then r == Timeout
      else r == Done(m.(locals := m.locals[x := m.stack[0]][x + 1 := m.stack[1]]), fuel)
  {
    var first, last := STOR_FUNC_VAR(x, LOCL), LOAD_FUNC_VAR(x, LOCL);
    var front := [LOAD_INT_LIT(7), STOR_INT_VAR(s, LOCL)];
    var p := Pair(FunctionCaller(x), StoringCallee(s));
    hide RunBody, Straight, NewFrame;
    CallerRuns(h, first, last, front, m, fuel, d);
    if |m.stack| < 2 { return; }
    var k := m.(stack := m.stack[2..], locals := m.locals[x := m.stack[0]][x + 1 := m.stack[1]]);
    assert Step(h, first, m) == Some(k);
    var e := Enter(h, p[CALLEE], k.(stack := [m.inst] + k.stack));
    assert e.stack == k.stack;
    StraightTwo(h, LOAD_INT_LIT(7), STOR_INT_VAR(s, LOCL), e);
    assert ([7] + e.stack)[1..] == e.stack;
    var t := e.(locals := e.locals[s := 7]);
    assert Straight(h, front, e) == Some(t) && Leave(k, t) == k;
    assert [k.locals[x], k.locals[x + 1]] + k.stack == m.stack;
  }

  lemma FunctionInlined(x: nat, s: nat)
    ensures Inlined(FunctionCaller(x), StoringCallee(s)) ==
      [STOR_FUNC_VAR(x, LOCL), LOAD_INST_MEM] + ([STOR_INT_VAR(2, LOCL)] + [LOAD_INT_LIT(7), STOR_INT_VAR(s + 3, LOCL)]
                                                 + [LOAD_FUNC_VAR(x, LOCL), RTRN])
  {
    hide InlineCalls, LastLocalOffset, BodyInlinable, InlinedBody;
    FunctionsNotCounted(x);
    Scanned(LOAD_INT_LIT(7), STOR_INT_VAR(s, LOCL));
    StoringMoved(s);
    InlinedCaller(STOR_FUNC_VAR(x, LOCL), LOAD_FUNC_VAR(x, LOCL), StoringCallee(s), 2);
  }

  lemma StoringMoved(s: nat)
    ensures InlinedBody(2, StoringCallee(s)) == [STOR_INT_VAR(2, LOCL)] + [LOAD_INT_LIT(7), STOR_INT_VAR(s + 3, LOCL)]
  {
    assert Front(StoringCallee(s)) == [LOAD_INT_LIT(7), STOR_INT_VAR(s, LOCL)];
    assert RelocateAll(2, Front(StoringCallee(s))) == [LOAD_INT_LIT(7), STOR_INT_VAR(s + 3, LOCL)];
  }

  /** Inlined, the kept instance and the callee's slot are written in the caller's own frame. */
  lemma FunctionExposed(h: Host, p: Program, x: nat, s: nat, m: Machine, fuel: nat, d: nat)
    requires x + 1 < LOCAL_WORDS && s + 3 < LOCAL_WORDS && Sized(m)
    ensures var r := RunBody(h, p, Inlined(FunctionCaller(x), StoringCallee(s)), m, fuel, d);
      if |m.stack| < 2 then r == Fault else
      var l := m.locals[x := m.stack[0]][x + 1 := m.stack[1]][2 := m.inst][s + 3 := 7];
      r == Done(m.(stack := [l[x], l[x + 1]] + m.stack[2..], locals := l), fuel)
  {
    var first, last := STOR_FUNC_VAR(x, LOCL), LOAD_FUNC_VAR(x, LOCL);
    var body := [LOAD_INT_LIT(7), STOR_INT_VAR(s + 3, LOCL)];
    FunctionInlined(x, s);
    hide RunBody, Straight, Inlined;
    InlinedRuns(h, p, first, last, body, 2, m, fuel, d);
    if |m.stack| < 2 { return; }
    var k := m.(stack := m.stack[2..], locals := m.locals[x := m.stack[0]][x + 1 := m.stack[1]][2 := m.inst]);
    StraightTwo(h, LOAD_INT_LIT(7), STOR_INT_VAR(s + 3, LOCL), k);
    assert ([7] + k.stack)[1..] == k.stack;
  }

  lemma Scanned(i: Instr, j: Instr)
    requires !i.TRAP? && !i.OTHER? && !i.RTRN? && LabelOf(i).None? && (IsVariable(i) ==> i.ctx == LOCL)
    requires !j.TRAP? && !j.OTHER? && !j.RTRN? && LabelOf(j).None? && (IsVariable(j) ==> j.ctx == LOCL)
    ensures BodyInlinable([i, j] + [RTRN], {}, false)
  {
    var code := [i, j] + [RTRN];
    assert code[1..] == [j, RTRN] && [j, RTRN][1..] == [RTRN] && [RTRN][1..] == [];
  }

  /** A caller's function variable survives inlining exactly when neither the slot kept for the instance nor the
      callee's relocated slot is one of its two words; nothing in the compiler sees to that. */
  lemma CallerFunctionExact(h: Host, x: nat, s: nat)
    requires x + 1 < LOCAL_WORDS && s + 3 < LOCAL_WORDS
    ensures var caller, callee := FunctionCaller(x), StoringCallee(s);
      RefinesMethod(h, Pair(caller, callee), 0, caller, Inlined(caller, callee), 1) <==>
        2 !in {x, x + 1} && s + 3 !in {x, x + 1}
  {
    var caller, callee := FunctionCaller(x), StoringCallee(s);
    var p, after := Pair(caller, callee), Inlined(caller, callee);
    hide RunBody, FunctionCaller, StoringCallee, Inlined, Pair;
    if 2 !in {x, x + 1} && s + 3 !in {x, x + 1} {
      forall m: Machine, fuel: nat, d: nat, d': nat | Sized(m) && m.cls == 0
        ensures d <= d' && !RunBody(h, p, caller, m, fuel, d).Timeout? ==>
          Visible(RunBody(h, p, after, m, fuel, d')) == Visible(RunBody(h, p, caller, m, fuel, d))
        ensures d' + 1 <= d && !RunBody(h, p, after, m, fuel, d').Timeout? ==>
          Visible(RunBody(h, p, caller, m, fuel, d)) == Visible(RunBody(h, p, after, m, fuel, d'))
      {
        FunctionKept(h, x, s, m, fuel, d);
        FunctionExposed(h, p, x, s, m, fuel, d');
        if |m.stack| >= 2 { assert [m.stack[0], m.stack[1]] + m.stack[2..] == m.stack; }
      }
    } else {
      var m := Machine([5, 6], seq(LOCAL_WORDS, _ => 0), 9, 0, map[], 0);
      FunctionKept(h, x, s, m, 0, 1);
      FunctionExposed(h, p, x, s, m, 0, 1);
      var r, t := RunBody(h, p, caller, m, 0, 1), RunBody(h, p, after, m, 0, 1);
      assert t.m.stack[0] != 5 || t.m.stack[1] != 6;
      assert Visible(r) != Visible(t);
      TellsApart(h, p, caller, after, m);
    }
  }

  function FunctionCallee(x: nat): seq<Instr> {
    [LOAD_INT_LIT(6), LOAD_INT_LIT(5), STOR_FUNC_VAR(x, LOCL)] + [RTRN]
  }

  function LocalCaller(y: nat): seq<Instr> {
    CallerWith(STOR_INT_VAR(y, LOCL), LOAD_INT_VAR(y, LOCL))
  }

  lemma LocalCounted(y: nat)
    ensures LastLocalOffset(LocalCaller(y)) == y
  {
    LastOfCaller(STOR_INT_VAR(y, LOCL), LOAD_INT_VAR(y, LOCL));
  }

  lemma LocalKept(h: Host, x: nat, y: nat, m: Machine, fuel: nat, d: nat)
    requires x + 1 < LOCAL_WORDS && y < LOCAL_WORDS && Sized(m)
    ensures var r := RunBody(h, Pair(LocalCaller(y), FunctionCallee(x)), LocalCaller(y), m, fuel, d);
      if |m.stack| < 1 then r == Fault else if d == 0 then r == Timeout
      else r == Done(m.(locals := m.locals[y := m.stack[0]]), fuel)
  {
    var first, last := STOR_INT_VAR(y, LOCL), LOAD_INT_VAR(y, LOCL);
    var front := [LOAD_INT_LIT(6), LOAD_INT_LIT(5), STOR_FUNC_VAR(x, LOCL)];
    var p := Pair(LocalCaller(y), FunctionCallee(x));
    hide RunBody, Straight, NewFrame;
    CallerRuns(h, first, last, front, m, fuel, d);
    if |m.stack| < 1 { return; }
    var k := m.(stack := m.stack[1..], locals := m.locals[y := m.stack[0]]);
    assert Step(h, first, m) == Some(k);
    var e := Enter(h, p[CALLEE], k.(stack := [m.inst] + k.stack));
    assert e.stack == k.stack;
    FunctionStored(h, x, e);
    var t := e.(locals := e.locals[x := 5][x + 1 := 6]);
    assert Leave(k, t) == k;
    assert [k.locals[y]] + k.stack == m.stack;
  }

  lemma FunctionStored(h: Host, x: nat, e: Machine)
    requires x + 1 < LOCAL_WORDS && Sized(e)
    ensures Simple([LOAD_INT_LIT(6), LOAD_INT_LIT(5), STOR_FUNC_VAR(x, LOCL)])
    ensures Straight(h, [LOAD_INT_LIT(6), LOAD_INT_LIT(5), STOR_FUNC_VAR(x, LOCL)], e) ==
      Some(e.(locals := e.locals[x := 5][x + 1 := 6]))
  {
    hide Straight;
    StraightThree(h, LOAD_INT_LIT(6), LOAD_INT_LIT(5), STOR_FUNC_VAR(x, LOCL), e);
    var s := [5] + ([6] + e.stack);
    assert s[0] == 5 && s[1] == 6 && s[2..] == e.stack;
  }

  lemma LocalExposed(h: Host, p: Program, x: nat, y: nat, m: Machine, fuel: nat, d: nat)
    requires x + 1 < LOCAL_WORDS && y + 2 < LOCAL_WORDS && Sized(m)
    ensures var r := RunBody(h, p, Inlined(LocalCaller(y), FunctionCallee(x)), m, fuel, d);
      if |m.stack| < 1 then r == Fault else
      var l := m.locals[y := m.stack[0]][y + 2 := m.inst][x := 5][x + 1 := 6];
      r == Done(m.(stack := [l[y]] + m.stack[1..], locals := l), fuel)
  {
    var first, last := STOR_INT_VAR(y, LOCL), LOAD_INT_VAR(y, LOCL);
    var body := [LOAD_INT_LIT(6), LOAD_INT_LIT(5), STOR_FUNC_VAR(x, LOCL)];
    LocalInlined(x, y);
    hide RunBody, Straight, Inlined;
    InlinedRuns(h, p, first, last, body, y + 2, m, fuel, d);
    if |m.stack| < 1 { return; }
    var k := m.(stack := m.stack[1..], locals := m.locals[y := m.stack[0]][y + 2 := m.inst]);
    FunctionStored(h, x, k);
  }

  lemma LocalInlined(x: nat, y: nat)
    ensures Inlined(LocalCaller(y), FunctionCallee(x)) ==
      [STOR_INT_VAR(y, LOCL), LOAD_INST_MEM]
      + ([STOR_INT_VAR(y + 2, LOCL)] + [LOAD_INT_LIT(6), LOAD_INT_LIT(5), STOR_FUNC_VAR(x, LOCL)] + [LOAD_INT_VAR(y, LOCL), RTRN])
  {
    hide InlineCalls, LastLocalOffset, BodyInlinable, InlinedBody;
    LocalCounted(y);
    ScannedFunction(x);
    FunctionMoved(x, y + 2);
    InlinedCaller(STOR_INT_VAR(y, LOCL), LOAD_INT_VAR(y, LOCL), FunctionCallee(x), y + 2);
  }

  lemma FunctionMoved(x: nat, offset: nat)
    ensures InlinedBody(offset, FunctionCallee(x)) ==
      [STOR_INT_VAR(offset, LOCL)] + [LOAD_INT_LIT(6), LOAD_INT_LIT(5), STOR_FUNC_VAR(x, LOCL)]
  {
    var body := [LOAD_INT_LIT(6), LOAD_INT_LIT(5), STOR_FUNC_VAR(x, LOCL)];
    assert Front(FunctionCallee(x)) == body;
    assert RelocateAll(offset, body) == body;
  }

  lemma ScannedFunction(x: nat)
    ensures BodyInlinable(FunctionCallee(x), {}, false)
  {
    var code := FunctionCallee(x);
    assert code[1..] == [LOAD_INT_LIT(5), STOR_FUNC_VAR(x, LOCL), RTRN] && code[1..][1..] == [STOR_FUNC_VAR(x, LOCL), RTRN];
    assert code[1..][1..][1..] == [RTRN] && [RTRN][1..] == [];
    assert BodyInlinable(code[1..][1..], {}, false);
    assert BodyInlinable(code[1..], {}, false);
  }

  /** A callee's function variable is not relocated: a caller's local survives exactly when it is not one of the
      two words the callee stores to. */
  lemma CalleeFunctionExact(h: Host, x: nat, y: nat)
    requires x + 1 < LOCAL_WORDS && y + 2 < LOCAL_WORDS
    ensures var caller, callee := LocalCaller(y), FunctionCallee(x);
      RefinesMethod(h, Pair(caller, callee), 0, caller, Inlined(caller, callee), 1) <==> y !in {x, x + 1}
  {
    var caller, callee := LocalCaller(y), FunctionCallee(x);
    var p, after := Pair(caller, callee), Inlined(caller, callee);
    hide RunBody, LocalCaller, FunctionCallee, Inlined, Pair;
    if y !in {x, x + 1} {
      forall m: Machine, fuel: nat, d: nat, d': nat | Sized(m) && m.cls == 0
        ensures d <= d' && !RunBody(h, p, caller, m, fuel, d).Timeout? ==>
          Visible(RunBody(h, p, after, m, fuel, d')) == Visible(RunBody(h, p, caller, m, fuel, d))
        ensures d' + 1 <= d && !RunBody(h, p, after, m, fuel, d').Timeout? ==>
          Visible(RunBody(h, p, caller, m, fuel, d)) == Visible(RunBody(h, p, after, m, fuel, d'))
      {
        LocalKept(h, x, y, m, fuel, d);
        LocalExposed(h, p, x, y, m, fuel, d');
        if |m.stack| >= 1 { assert [m.stack[0]] + m.stack[1..] == m.stack; }
      }
    } else {
      var m := Machine([4], seq(LOCAL_WORDS, _ => 0), 9, 0, map[], 0);
      LocalKept(h, x, y, m, 0, 1);
      LocalExposed(h, p, x, y, m, 0, 1);
      var r, t := RunBody(h, p, caller, m, 0, 1), RunBody(h, p, after, m, 0, 1);
      assert t.m.stack[0] != 4;
      assert Visible(r) != Visible(t);
      TellsApart(h, p, caller, after, m);
    }
  }
}
