// Inlining of setters and getters: a call to one of five fixed method shapes becomes one to
// three instructions in the caller.

module Accessors {
  import opened Wrappers
  import opened Words
  import opened Bytecode
  import opened Simulation
  import opened Passes

  const PUT_CHAR := -3984

  predicate IsGetter(c: seq<Instr>) {
    |c| == 3 && c[0] == LOAD_INST_MEM && (c[1].LOAD_INT_VAR? || c[1].LOAD_FLOAT_VAR?) && c[1].ctx == INST && c[2] == RTRN
  }

  predicate IsConstant(c: seq<Instr>) {
    |c| == 2 && (c[0].LOAD_INT_LIT? || c[0].LOAD_FLOAT_LIT?) && c[1] == RTRN
  }

  predicate IsPrint(c: seq<Instr>) {
    c == [STOR_INT_VAR(0, LOCL), LOAD_INT_VAR(0, LOCL), LOAD_INT_LIT(PUT_CHAR), TRAP(2), RTRN]
  }

  predicate IsSetter(c: seq<Instr>) {
    && |c| == 5 && c[2] == LOAD_INST_MEM && c[4] == RTRN
    && ((c[0] == STOR_INT_VAR(0, LOCL) && c[1] == LOAD_INT_VAR(0, LOCL) && c[3].STOR_INT_VAR? && c[3].ctx == INST)
        || (c[0] == STOR_FLOAT_VAR(0, LOCL) && c[1] == LOAD_FLOAT_VAR(0, LOCL) && c[3].STOR_FLOAT_VAR? && c[3].ctx == INST))
  }

  /** The shape of a method, by the number the compiler gives it; -1 for none. */
  function CanInlineSetterGetter(m: Method): int {
    if m.numParams == 0 && IsGetter(m.code) then 0
    else if m.numParams == 0 && IsConstant(m.code) then 1
    else if m.numParams == 1 && IsPrint(m.code) then 2
    else if m.numParams == 1 && IsSetter(m.code) then 3
    else -1
  }

  function AccessorBody(m: Method): (body: seq<Instr>)
    requires CanInlineSetterGetter(m) >= 0
    ensures Simple(body)
  {
    match CanInlineSetterGetter(m)
    case 0 => [m.code[1]]
    case 1 => [POP_INT, m.code[0]]
    case 2 => [POP_INT, m.code[2], m.code[3]]
    case _ => [m.code[3]]
  }

  /** Virtual methods carry no code. */
  predicate WellLinked(p: Program) {
    forall id :: id in p && p[id].virtual ==> p[id].code == []
  }

  predicate Inlinable(p: Program, i: Instr) {
    i.MTHD_CALL? && i.id in p && CanInlineSetterGetter(p[i.id]) >= 0
  }

  function InlineSettersGetters(p: Program, code: seq<Instr>): seq<Instr> {
    if code == [] then []
    else (if Inlinable(p, code[0]) then AccessorBody(p[code[0].id]) else [code[0]]) + InlineSettersGetters(p, code[1..])
  }

  /** The call runs the callee's straight-line code in a frame of its own. */
  lemma CallStraight(h: Host, p: Program, id: MethodId, m: Machine, fuel: nat, depth: nat)
    requires id in p && !p[id].virtual && |m.stack| > 0
    requires var c := p[id].code; c != [] && Last(c) == RTRN && Simple(Front(c))
    ensures Call(h, p, id, m, fuel, depth) ==
      (var s := Straight(h, Front(p[id].code), Enter(h, p[id], m));
       if s.None? then Fault else Done(Leave(m, s.value), fuel))
  {
    var c := p[id].code;
    var a := Activation(h, p, c, depth);
    assert c == Front(c) + [RTRN];
    RunStraight(a, Front(c), [RTRN], Enter(h, p[id], m), fuel);
  }

  lemma StraightFour(h: Host, c: seq<Instr>, m: Machine)
    requires |c| == 4 && Simple(c)
    ensures Straight(h, c, m) ==
      (var s := Straight(h, c[..2], m); if s.None? then None else Straight(h, c[2..], s.value))
  {
    assert c == c[..2] + c[2..];
    StraightConcat(h, c[..2], c[2..], m);
  }

  /** Storing the parameter and loading it again leaves the operand stack as it was. */
  lemma ParameterKept(h: Host, c: seq<Instr>, e: Machine)
    requires |c| >= 2 && Sized(e)
    requires (c[0] == STOR_INT_VAR(0, LOCL) && c[1] == LOAD_INT_VAR(0, LOCL))
          || (c[0] == STOR_FLOAT_VAR(0, LOCL) && c[1] == LOAD_FLOAT_VAR(0, LOCL))
    ensures Simple(c[..2])
    ensures var s := Straight(h, c[..2], e);
      && (s.Some? <==> |e.stack| >= if c[0].STOR_INT_VAR? then 1 else 2)
      && (s.Some? ==> s.value == e.(locals := s.value.locals))
  {
    assert c[..2] == [c[0], c[1]];
    StraightTwo(h, c[0], c[1], e);
    var s := Step(h, c[0], e);
    if s.Some? {
      var t := Step(h, c[1], s.value).value;
      assert t.stack == e.stack;
    }
  }

  /** The two halves of a four-instruction body whose first half keeps the parameter. */
  lemma CallWithParameter(h: Host, p: Program, id: MethodId, m: Machine, fuel: nat, depth: nat) returns (e: Machine)
    requires WellLinked(p) && id in p && |m.stack| > 0 && Sized(m)
    requires IsPrint(p[id].code) || IsSetter(p[id].code)
    ensures Sized(e) && e.stack == m.stack[1..] && e.inst == m.stack[0] && e.heap == m.heap && e.ext == m.ext
    ensures var c := p[id].code;
      && !IsControl(c[2]) && !IsControl(c[3])
      && Call(h, p, id, m, fuel, depth) ==
           if |e.stack| < (if c[0].STOR_INT_VAR? then 1 else 2) then Fault
           else (var s := Step(h, c[2], e); if s.None? then Fault else
                 var t := Step(h, c[3], s.value); if t.None? then Fault else Done(Leave(m, t.value), fuel))
  {
    hide Step;
    var c := p[id].code;
    e := Enter(h, p[id], m);
    CallStraight(h, p, id, m, fuel, depth);
    assert Front(c)[..2] == c[..2] && Front(c)[2..] == [c[2], c[3]];
    StraightFour(h, Front(c), e);
    ParameterKept(h, c, e);
    var s := Straight(h, c[..2], e);
    if s.Some? {
      e := s.value;
      StraightTwo(h, c[2], c[3], e);
    }
  }

  lemma GetterActs(h: Host, p: Program, id: MethodId)
    requires WellLinked(p) && id in p && IsGetter(p[id].code)
    ensures ActsAs(h, p, id, [p[id].code[1]])
  {
    var c := p[id].code;
    forall m: Machine, fuel: nat, depth: nat | Sized(m)
      ensures Call(h, p, id, m, fuel, depth) ==
        (var s := Straight(h, [c[1]], m); if s.None? then Fault else Done(s.value, fuel))
    {
      StraightOne(h, c[1], m);
      if |m.stack| > 0 {
        assert Front(c) == [c[0], c[1]];
        CallStraight(h, p, id, m, fuel, depth);
        StraightTwo(h, c[0], c[1], Enter(h, p[id], m));
      }
    }
  }

  lemma ConstantActs(h: Host, p: Program, id: MethodId)
    requires WellLinked(p) && id in p && IsConstant(p[id].code)
    ensures ActsAs(h, p, id, [POP_INT, p[id].code[0]])
  {
    var c := p[id].code;
    forall m: Machine, fuel: nat, depth: nat | Sized(m)
      ensures Call(h, p, id, m, fuel, depth) ==
        (var s := Straight(h, [POP_INT, c[0]], m); if s.None? then Fault else Done(s.value, fuel))
    {
      StraightTwo(h, POP_INT, c[0], m);
      if |m.stack| > 0 {
        assert Front(c) == [c[0]];
        CallStraight(h, p, id, m, fuel, depth);
        StraightOne(h, c[0], Enter(h, p[id], m));
      }
    }
  }

  lemma PrintCall(h: Host, p: Program, id: MethodId, m: Machine, fuel: nat, depth: nat)
    requires WellLinked(p) && id in p && IsPrint(p[id].code) && Sized(m)
    ensures Call(h, p, id, m, fuel, depth) ==
      (var s := Straight(h, [POP_INT, p[id].code[2], p[id].code[3]], m); if s.None? then Fault else Done(s.value, fuel))
  {
    var c := p[id].code;
    StraightThree(h, POP_INT, c[2], c[3], m);
    if |m.stack| > 0 {
      hide Call, Straight, WellLinked;
      var e := CallWithParameter(h, p, id, m, fuel, depth);
    }
  }

  lemma PrintActs(h: Host, p: Program, id: MethodId)
    requires WellLinked(p) && id in p && IsPrint(p[id].code)
    ensures ActsAs(h, p, id, [POP_INT, p[id].code[2], p[id].code[3]])
  {
    hide Call, Straight, IsPrint, WellLinked;
    var c := p[id].code;
    PrintForm(c);
    forall m: Machine, fuel: nat, depth: nat | Sized(m)
      ensures Call(h, p, id, m, fuel, depth) ==
        (var s := Straight(h, [POP_INT, c[2], c[3]], m); if s.None? then Fault else Done(s.value, fuel))
    {
      PrintCall(h, p, id, m, fuel, depth);
    }
  }

  lemma PrintForm(c: seq<Instr>)
    requires IsPrint(c)
    ensures |c| > 3 && Simple([POP_INT, c[2], c[3]])
  {
  }

  lemma SetterCall(h: Host, p: Program, id: MethodId, m: Machine, fuel: nat, depth: nat)
    requires WellLinked(p) && id in p && IsSetter(p[id].code) && Sized(m)
    ensures Call(h, p, id, m, fuel, depth) ==
      (var s := Straight(h, [p[id].code[3]], m); if s.None? then Fault else Done(s.value, fuel))
  {
    var c := p[id].code;
    StraightOne(h, c[3], m);
    if |m.stack| > 0 {
      hide Call, Straight, WellLinked;
      var e := CallWithParameter(h, p, id, m, fuel, depth);
      assert [e.inst] + e.stack == m.stack;
    }
  }

  lemma SetterActs(h: Host, p: Program, id: MethodId)
    requires WellLinked(p) && id in p && IsSetter(p[id].code)
    ensures ActsAs(h, p, id, [p[id].code[3]])
  {
    hide Call, Straight, WellLinked, Step;
    var c := p[id].code;
    forall m: Machine, fuel: nat, depth: nat | Sized(m)
      ensures Call(h, p, id, m, fuel, depth) ==
        (var s := Straight(h, [c[3]], m); if s.None? then Fault else Done(s.value, fuel))
    {
      SetterCall(h, p, id, m, fuel, depth);
    }
  }

  /** Each inlined body does what pushing a frame, running the accessor and popping it does. */
  lemma AccessorActs(h: Host, p: Program, id: MethodId)
    requires WellLinked(p) && id in p && CanInlineSetterGetter(p[id]) >= 0
    ensures ActsAs(h, p, id, AccessorBody(p[id]))
  {
    match CanInlineSetterGetter(p[id])
    case 0 => GetterActs(h, p, id);
    case 1 => ConstantActs(h, p, id);
    case 2 => PrintActs(h, p, id);
    case _ => SetterActs(h, p, id);
  }

  lemma {:induction false} AccessorChunks(h: Host, p: Program, code: seq<Instr>) returns (cs: seq<Chunk>)
    requires WellLinked(p)
    ensures AllSound(h, p, cs) && forall c <- cs :: c.Keep? || c.Accessor?
    ensures Code(cs, false) == code && Code(cs, true) == InlineSettersGetters(p, code)
  {
    cs := [];
    if code == [] { return; }
    hide WellLinked, ActsAs, CanInlineSetterGetter, AccessorBody;
    var i := code[0];
    var ds := AccessorChunks(h, p, code[1..]);
    var c := Keep(i);
    if Inlinable(p, i) {
      AccessorActs(h, p, i.id);
      c := Accessor(i.id, AccessorBody(p[i.id]));
    }
    cs := [c] + ds;
    assert cs[1..] == ds;
    assert forall k :: 0 < k < |cs| ==> cs[k] == ds[k - 1];
  }

  /** Setter and getter inlining refines the code it is applied to. */
  lemma InlineSettersGettersRefines(h: Host, p: Program, code: seq<Instr>)
    requires WellLinked(p)
    ensures Refines(h, p, code, InlineSettersGetters(p, code), 1)
  {
    var cs := AccessorChunks(h, p, code);
    assert forall k :: 0 <= k < |cs| ==> cs[k] in cs;
    ChunksRefine(h, p, cs, 1);
  }
}
