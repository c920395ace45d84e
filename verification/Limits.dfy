// Where the passes are not meaning-preserving, and exactly when they are.

module Limits {
  import opened Wrappers
  import opened Words
  import opened Bytecode
  import opened Simulation
  import opened Passes
  import opened Pipeline
  import opened Quotients

  function Blank(stack: seq<int>): (m: Machine)
    ensures Sized(m) && m.stack == stack
  {
    Machine(stack, seq(LOCAL_WORDS, _ => 0), 0, 0, map[], 0)
  }

  lemma RunsOff(h: Host, p: Program, code: seq<Instr>, m: Machine)
    requires Simple(code)
    ensures RunBody(h, p, code, m, 0, 0) ==
      (var s := Straight(h, code, m); if s.None? then Fault else Fell(s.value))
  {
    assert code + [] == code;
    RunStraight(Activation(h, p, code, 0), code, [], m, 0);
  }

  /** One machine on which straight-line code differs refutes refinement. */
  lemma Differ(h: Host, p: Program, x: seq<Instr>, y: seq<Instr>, m: Machine)
    requires Simple(x) && Simple(y) && Sized(m) && Straight(h, x, m) != Straight(h, y, m)
    ensures !Refines(h, p, x, y, 0)
  {
    RunsOff(h, p, x, m);
    RunsOff(h, p, y, m);
  }

  lemma CleanedPair(l: int, cond: int)
    ensures CleanJumps([], [JMP(l, cond), LBL(l)]) == [LBL(l)]
  {
    var code, held, tail: seq<Instr> := [JMP(l, cond), LBL(l)], [JMP(l, cond)], [LBL(l)];
    assert [] + [code[0]] == held && code[1..] == tail && tail[1..] == [] && Front(held) == [];
    assert CleanJumps([], code) == CleanJumps([] + [code[0]], code[1..]);
    assert CleanJumps(held, tail) == Front(held) + [tail[0]] + CleanJumps([], tail[1..]);
  }

  /** Deleting a jump to the next label is right exactly when the jump is unconditional. */
  lemma CleanJumpExact(h: Host, p: Program, l: int, cond: int)
    ensures var code := [JMP(l, cond), LBL(l)];
      Refines(h, p, code, CleanJumps([], code), 0) <==> cond < 0
  {
    var code, tail: seq<Instr> := [JMP(l, cond), LBL(l)], [LBL(l)];
    CleanedPair(l, cond);
    if cond < 0 {
      CleanJumpsRefines(h, p, code);
    } else {
      var m := Blank([]);
      assert RunBody(h, p, code, m, 0, 0) == Fault;
      assert tail[1..] == [] && Advance(h, tail, tail, m, 0) == Goto([], m, 0);
      var a := Activation(h, p, tail, 0);
      assert Run(a, [], m, 0) == Fell(m) && Run(a, tail, m, 0) == Fell(m);
      assert RunBody(h, p, code, m, 0, 0) != RunBody(h, p, tail, m, 0, 0);
    }
  }

  lemma {:induction false} LoadsGrow(h: Host, loads: seq<Instr>, m: Machine)
    requires Sized(m) && LocalLoads(loads)
    ensures Simple(loads)
    ensures var s := Straight(h, loads, m); s.Some? && |s.value.stack| == |m.stack| + |loads|
  {
    if loads != [] {
      assert loads[0] in loads && forall i <- loads[1..] :: i in loads;
      LoadsGrow(h, loads[1..], Step(h, loads[0], m).value);
    }
  }

  lemma {:induction false} RemovedFrom(ws: seq<Instr>, rest: seq<Instr>)
    requires LocalLoads(ws) && SlotsInFrame(rest)
    ensures forall i <- RemoveUseless(ws, rest) :: i in ws || i in rest
    ensures LocalLoads(Leftover(ws, rest))
    decreases |rest|
  {
    if rest != [] {
      var i := rest[0];
      assert i in rest && forall j <- rest[1..] :: j in rest;
      if i.LOAD_INT_VAR? && i.ctx == LOCL { RemovedFrom(ws + [i], rest[1..]); }
      else if Undoes(ws, i) { RemovedFrom(Front(ws), rest[1..]); }
      else { RemovedFrom([], rest[1..]); }
    }
  }

  /** On straight-line code that some machine gets through, load/store removal is right exactly
      when no load is still held back at the end: the pass has no final flush. */
  lemma RemoveUselessExact(h: Host, p: Program, code: seq<Instr>, m: Machine)
    requires Simple(code) && SlotsInFrame(code) && Sized(m) && Straight(h, code, m).Some?
    ensures Refines(h, p, code, RemoveUseless([], code), 0) <==> Leftover([], code) == []
  {
    var kept, left := RemoveUseless([], code), Leftover([], code);
    RemoveUselessRefines(h, p, code);
    RemovedFrom([], code);
    assert left == [] ==> kept + left == kept;
    if left != [] {
      assert Simple(kept);
      LoadsGrow(h, left, m);
      StraightConcat(h, kept, left, m);
      RunsOff(h, p, code, m);
      RunsOff(h, p, kept + left, m);
      assert RunBody(h, p, kept + left, m, 0, 0) == RunBody(h, p, code, m, 0, 0);
      LoadsGrow(h, left, Straight(h, kept, m).value);
      Differ(h, p, code, kept, m);
    }
  }

  // ----- Strength reduction -----

  /** The pass turns a product with 2^k into a shift of the variable, in either operand order; that is
      right exactly when the variable is a local, since the others take their instance from the stack. */
  lemma ProductShiftExact(h: Host, p: Program, k: nat, load: Instr, literalFirst: bool)
    requires 0 < k <= 8 && load.LOAD_INT_VAR?
    ensures var lit := LOAD_INT_LIT(Pow2(k));
      var code := (if literalFirst then [lit, load] else [load, lit]) + [INT_OP(Mul)];
      && ReduceStrength([], code) == Shifted(k, load, INT_OP(Mul))
      && (Refines(h, p, code, ReduceStrength([], code), 0) <==> load.ctx == LOCL)
  {
    var lit, mul := LOAD_INT_LIT(Pow2(k)), INT_OP(Mul);
    var ops := if literalFirst then [lit, load] else [load, lit];
    var code := ops + [mul];
    ReducedProduct(k, load, literalFirst);
    var after := Shifted(k, load, mul);
    if load.ctx == LOCL {
      ProductToShift(h, k, load.slot);
      assert SameEffect(h, code, after);
      EmptyEffect(h);
      var cs := EndOfInput(h, p, code, after);
      assert code + [] == code;
      RewrittenRefines(h, p, cs, code, after);
    } else {
      InstanceTakenFromStack(h, k, load, literalFirst);
      Differ(h, p, code, after, Blank([40]));
    }
  }

  /** A machine on which the shifted product loads from instance k and shifts by its own instance. */
  lemma InstanceTakenFromStack(h: Host, k: nat, load: Instr, literalFirst: bool)
    requires 0 < k <= 8 && load.LOAD_INT_VAR? && load.ctx != LOCL
    ensures var lit, mul := LOAD_INT_LIT(Pow2(k)), INT_OP(Mul);
      var code := (if literalFirst then [lit, load] else [load, lit]) + [mul];
      Simple(code) && Straight(h, code, Blank([40])).Some? && Straight(h, Shifted(k, load, mul), Blank([40])).None?
  {
    ProductOnInstance(h, k, load, literalFirst);
    ShiftOnInstance(h, k, load);
  }

  lemma ProductOnInstance(h: Host, k: nat, load: Instr, literalFirst: bool)
    requires 0 < k <= 8 && load.LOAD_INT_VAR? && load.ctx != LOCL
    ensures var lit, mul := LOAD_INT_LIT(Pow2(k)), INT_OP(Mul);
      var code := (if literalFirst then [lit, load] else [load, lit]) + [mul];
      Simple(code) && Straight(h, code, Blank([40])).Some?
  {
    hide Straight, Pow2;
    PowersOfTwo(k);
    var lit, mul, m := LOAD_INT_LIT(Pow2(k)), INT_OP(Mul), Blank([40]);
    if literalFirst {
      assert [lit, load] + [mul] == [lit, load, mul];
      LoadsFrom(h, load, m.(stack := [Pow2(k), 40]), Pow2(k), [40]);
      assert [Pow2(k)] + [40] == [Pow2(k), 40];
      StraightThree(h, lit, load, mul, m);
    } else {
      assert [load, lit] + [mul] == [load, lit, mul];
      assert [40] + [] == [40];
      LoadsFrom(h, load, m, 40, []);
      StraightThree(h, load, lit, mul, m);
    }
  }

  lemma ShiftOnInstance(h: Host, k: nat, load: Instr)
    requires 0 < k <= 8 && load.LOAD_INT_VAR? && load.ctx != LOCL
    ensures Straight(h, Shifted(k, load, INT_OP(Mul)), Blank([40])).None?
  {
    hide Straight, Pow2;
    var m := Blank([40]);
    assert [k] + [40] == [k, 40];
    LoadsFrom(h, load, m.(stack := [k, 40]), k, [40]);
    StraightThree(h, LOAD_INT_LIT(k), load, INT_OP(Shl), m);
  }

  /** A load of an instance variable takes its instance from the stack; in a blank machine it finds 0. */
  lemma LoadsFrom(h: Host, load: Instr, m: Machine, instance: int, rest: seq<int>)
    requires load.LOAD_INT_VAR? && load.ctx != LOCL && instance != 0 && m.stack == [instance] + rest && m.heap == map[]
    ensures Step(h, load, m) == Some(m.(stack := [0] + rest))
  {
  }

  lemma ReducedProduct(k: nat, load: Instr, literalFirst: bool)
    requires 0 < k <= 8 && load.LOAD_INT_VAR?
    ensures var lit := LOAD_INT_LIT(Pow2(k));
      ReduceStrength([], (if literalFirst then [lit, load] else [load, lit]) + [INT_OP(Mul)]) == Shifted(k, load, INT_OP(Mul))
  {
    PowersOfTwo(k);
    var lit, mul := LOAD_INT_LIT(Pow2(k)), INT_OP(Mul);
    var a, b := if literalFirst then lit else load, if literalFirst then load else lit;
    var code := [a, b] + [mul];
    assert code[1..] == [b, mul] && [b, mul][1..] == [mul] && [mul][1..] == [] && [] + [a] == [a] && [a] + [b] == [a, b];
    assert ShiftFor(Pow2(k)) == k;
    assert Reduction([a, b]) == Some((k, load));
    assert ReduceStrength([a, b], [mul]) == [a, b][..0] + Shifted(k, load, mul) + [];
  }

  // ----- Store/load to copy -----

  /** A store held back behind a float store overtakes it: right exactly when the word the integer
      store takes equals the high word of the float. */
  lemma OvertakenStoreExact(h: Host, a: nat, b: nat, m: Machine)
    requires Sized(m) && a + 1 < LOCAL_WORDS && b < LOCAL_WORDS && b != a && b != a + 1 && |m.stack| >= 3
    ensures var code := [STOR_FLOAT_VAR(a, LOCL), STOR_INT_VAR(b, LOCL), LOAD_INT_VAR(b, LOCL)];
      && ReplaceStores([], code) == [COPY_INT_VAR(b, LOCL), STOR_FLOAT_VAR(a, LOCL)]
      && (Straight(h, code, m) == Straight(h, ReplaceStores([], code), m) <==> m.stack[0] == m.stack[2])
  {
    var f, s, l, c := STOR_FLOAT_VAR(a, LOCL), STOR_INT_VAR(b, LOCL), LOAD_INT_VAR(b, LOCL), COPY_INT_VAR(b, LOCL);
    Overtakes(a, b);
    var x, w := m.locals, m.stack;
    var before := x[a := w[1]][a + 1 := w[0]][b := w[2]];
    var after := x[b := w[0]][a := w[1]][a + 1 := w[0]];
    assert before[b] == w[2] && after[b] == w[0];
    assert w[2] == w[0] ==> before == after;
    StoredLast(h, a, b, m, before);
    hide Straight;
    StraightTwo(h, c, f, m);
    assert Straight(h, [c, f], m) == Some(m.(stack := w[2..], locals := after));
  }

  lemma Overtakes(a: nat, b: nat)
    ensures var code := [STOR_FLOAT_VAR(a, LOCL), STOR_INT_VAR(b, LOCL), LOAD_INT_VAR(b, LOCL)];
      ReplaceStores([], code) == [COPY_INT_VAR(b, LOCL), STOR_FLOAT_VAR(a, LOCL)]
  {
    var f, s, l, c := STOR_FLOAT_VAR(a, LOCL), STOR_INT_VAR(b, LOCL), LOAD_INT_VAR(b, LOCL), COPY_INT_VAR(b, LOCL);
    var code := [f, s, l];
    assert code[1..] == [s, l] && [s, l][1..] == [l] && [l][1..] == [] && [] + [f] == [f] && [f] + [s] == [f, s];
    assert ReplaceStores([f, s], [l]) == [c] + ReplaceStores([f], []);
  }

  lemma StoredLast(h: Host, a: nat, b: nat, m: Machine, locals: seq<int>)
    requires Sized(m) && a + 1 < LOCAL_WORDS && b < LOCAL_WORDS && |m.stack| >= 3
    requires locals == m.locals[a := m.stack[1]][a + 1 := m.stack[0]][b := m.stack[2]]
    ensures Straight(h, [STOR_FLOAT_VAR(a, LOCL), STOR_INT_VAR(b, LOCL), LOAD_INT_VAR(b, LOCL)], m) ==
      Some(m.(stack := m.stack[2..], locals := locals))
  {
    var f, s, l, w := STOR_FLOAT_VAR(a, LOCL), STOR_INT_VAR(b, LOCL), LOAD_INT_VAR(b, LOCL), m.stack;
    hide Straight;
    StraightThree(h, f, s, l, m);
    var m1 := m.(stack := w[2..], locals := m.locals[a := w[1]][a + 1 := w[0]]);
    assert Step(h, f, m) == Some(m1);
    var m2 := m1.(stack := w[2..][1..], locals := locals);
    assert Step(h, s, m1) == Some(m2);
    assert [w[2]] + w[2..][1..] == w[2..];
  }

  /** A store and a load of the same variable become a copy; that is right exactly for locals. */
  lemma CopyExact(h: Host, slot: int, ctx: MemoryContext)
    ensures var store, load := STOR_INT_VAR(slot, ctx), LOAD_INT_VAR(slot, ctx);
      SameEffect(h, [store, load], [CopyFor(store, load).value]) <==> ctx == LOCL
  {
    var store, load := STOR_INT_VAR(slot, ctx), LOAD_INT_VAR(slot, ctx);
    var copy := CopyFor(store, load).value;
    if ctx == LOCL {
      StoreThenLoad(h, store, load);
      assert [store] + [load] == [store, load];
    } else {
      var m := Blank([5, 7, 6]);
      StraightTwo(h, store, load, m);
      StraightOne(h, copy, m);
    }
  }

  // ----- Constant folding -----

  /** The literals held back behind code; None when folding faults on the way. */
  function Pending(ws: seq<Instr>, code: seq<Instr>): (r: Option<seq<Instr>>)
    requires IntLits(ws)
    ensures r.Some? ==> IntLits(r.value)
    decreases |code|
  {
    if code == [] then Some(ws)
    else if code[0].LOAD_INT_LIT? then Pending(ws + [code[0]], code[1..])
    else if code[0].INT_OP? && Folds(code[0].op) && |ws| >= 2 then
      var v := EvalInt(code[0].op, ws[|ws| - 1].value, ws[|ws| - 2].value);
      if v.None? then None else Pending(ws[..|ws| - 2] + [LOAD_INT_LIT(v.value)], code[1..])
    else Pending([], code[1..])
  }

  /** A division or remainder of the two youngest literals that has no value. */
  predicate Undefined(ws: seq<Instr>, i: Instr)
    requires IntLits(ws)
  {
    && (i == INT_OP(Div) || i == INT_OP(Mod)) && |ws| >= 2
    && var left, right := ws[|ws| - 1].value, ws[|ws| - 2].value;
       right == 0 || (left == INT_MIN && right == -1)
  }

  predicate FaultsAt(ws: seq<Instr>, rest: seq<Instr>, k: nat)
    requires IntLits(ws)
  {
    k < |rest| && Pending(ws, rest[..k]).Some? && Undefined(Pending(ws, rest[..k]).value, rest[k])
  }

  /** The compiler faults while folding exactly when it comes to a DIV or MOD of two literals whose divisor
      is 0, or is -1 under the smallest word. */
  lemma {:induction false} FoldIntsFaultsExact(ws: seq<Instr>, rest: seq<Instr>)
    requires IntLits(ws)
    ensures FoldInts(ws, rest).None? <==> exists k: nat :: FaultsAt(ws, rest, k)
    decreases |rest|
  {
    if rest == [] { return; }
    var i, n := rest[0], |ws|;
    if i.INT_OP? && Folds(i.op) && n >= 2 { UndefinedFold(ws, i); }
    hide EvalInt, Undefined;
    assert rest[..0] == [];
    if i.INT_OP? && Folds(i.op) && n >= 2 && EvalInt(i.op, ws[n - 1].value, ws[n - 2].value).None? {
      assert FaultsAt(ws, rest, 0);
      return;
    }
    var ws' := if i.LOAD_INT_LIT? then ws + [i]
      else if i.INT_OP? && Folds(i.op) && n >= 2
      then ws[..n - 2] + [LOAD_INT_LIT(EvalInt(i.op, ws[n - 1].value, ws[n - 2].value).value)] else [];
    FoldIntsFaultsExact(ws', rest[1..]);
    forall k: nat | k < |rest| - 1 ensures FaultsAt(ws, rest, k + 1) == FaultsAt(ws', rest[1..], k) {
      assert rest[..k + 1][0] == i && rest[..k + 1][1..] == rest[1..][..k];
    }
    if k: nat :| FaultsAt(ws, rest, k) {
      NotAtOnce(ws, rest, k);
      assert FaultsAt(ws', rest[1..], k - 1);
    }
    if k: nat :| FaultsAt(ws', rest[1..], k) { assert FaultsAt(ws, rest, k + 1); }
  }

  lemma UndefinedFold(ws: seq<Instr>, i: Instr)
    requires IntLits(ws) && i.INT_OP? && Folds(i.op) && |ws| >= 2
    ensures EvalInt(i.op, ws[|ws| - 1].value, ws[|ws| - 2].value).None? <==> Undefined(ws, i)
  {
    hide Bits, Wrap;
  }

  lemma NotAtOnce(ws: seq<Instr>, rest: seq<Instr>, k: nat)
    requires rest != [] && IntLits(ws) && FaultsAt(ws, rest, k)
    requires !(rest[0].INT_OP? && Folds(rest[0].op) && |ws| >= 2
               && EvalInt(rest[0].op, ws[|ws| - 1].value, ws[|ws| - 2].value).None?)
    ensures k > 0
  {
    hide Bits, Wrap;
    assert rest[..0] == [];
  }
}
