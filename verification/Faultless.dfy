// When the optimizer itself cannot fault: programs that neither divide nor take remainders.

module Faultless {
  import opened Wrappers
  import opened Words
  import opened Bytecode
  import opened Passes
  import opened Accessors
  import opened Inlining
  import opened Pipeline

  /** Anything but an integer division or remainder. */
  predicate Safe(i: Instr) {
    i.INT_OP? ==> i.op != Div && i.op != Mod
  }

  predicate AllSafe(code: seq<Instr>) {
    forall i <- code :: Safe(i)
  }

  predicate SafeProgram(p: Program) {
    forall id :: id in p ==> AllSafe(p[id].code)
  }

  lemma {:induction false} UselessSafe(ws: seq<Instr>, rest: seq<Instr>)
    requires AllSafe(ws) && AllSafe(rest)
    ensures AllSafe(RemoveUseless(ws, rest))
    decreases |rest|
  {
    if rest != [] {
      var i := rest[0];
      if i.LOAD_INT_VAR? && i.ctx == LOCL { UselessSafe(ws + [i], rest[1..]); }
      else if Undoes(ws, i) { UselessSafe(Front(ws), rest[1..]); }
      else { UselessSafe([], rest[1..]); }
    }
  }

  lemma {:induction false} AccessorsSafe(p: Program, code: seq<Instr>)
    requires SafeProgram(p) && AllSafe(code)
    ensures AllSafe(InlineSettersGetters(p, code))
  {
    if code != [] {
      AccessorsSafe(p, code[1..]);
      if Inlinable(p, code[0]) { BodySafe(p, code[0].id); }
      hide AccessorBody, Inlinable;
    }
  }

  lemma BodySafe(p: Program, id: MethodId)
    requires id in p && AllSafe(p[id].code) && CanInlineSetterGetter(p[id]) >= 0
    ensures AllSafe(AccessorBody(p[id]))
  {
  }

  /** Folding has a result, and brings no division in. */
  lemma {:induction false} IntsSafe(ws: seq<Instr>, rest: seq<Instr>)
    requires IntLits(ws) && AllSafe(rest)
    ensures FoldInts(ws, rest).Some? && AllSafe(FoldInts(ws, rest).value)
    decreases |rest|
  {
    if rest == [] { return; }
    var i, n := rest[0], |ws|;
    if i.LOAD_INT_LIT? {
      IntsSafe(ws + [i], rest[1..]);
    } else if i.INT_OP? && Folds(i.op) && n >= 2 {
      assert Safe(i);
      var v := EvalInt(i.op, ws[n - 1].value, ws[n - 2].value);
      assert v.Some?;
      IntsSafe(ws[..n - 2] + [LOAD_INT_LIT(v.value)], rest[1..]);
    } else {
      IntsSafe([], rest[1..]);
    }
  }

  lemma {:induction false} FloatsSafe(h: Host, ws: seq<Instr>, rest: seq<Instr>)
    requires FloatLits(ws) && AllSafe(rest)
    ensures AllSafe(FoldFloats(h, ws, rest))
    decreases |rest|
  {
    if rest == [] { return; }
    var i, n := rest[0], |ws|;
    if i.LOAD_FLOAT_LIT? { FloatsSafe(h, ws + [i], rest[1..]); }
    else if i.FLOAT_OP? && n >= 2 {
      FloatsSafe(h, ws[..n - 2] + [LOAD_FLOAT_LIT(h.floatOp(i.fop, ws[n - 1].double, ws[n - 2].double))], rest[1..]);
    } else { FloatsSafe(h, [], rest[1..]); }
  }

  lemma {:induction false} ProductsSafe(ws: seq<Instr>, rest: seq<Instr>)
    requires LitsAndVars(ws) && AllSafe(rest)
    ensures AllSafe(ReduceStrength(ws, rest))
    decreases |rest|
  {
    hide ShiftFor;
    if rest == [] { return; }
    var i := rest[0];
    if i.LOAD_INT_LIT? || i.LOAD_INT_VAR? {
      ProductsSafe(ws + [i], rest[1..]);
    } else {
      ProductsSafe([], rest[1..]);
      assert AllSafe(ws);
      if Reduction(ws).Some? { ShiftSafe(Reduction(ws).value.0, Reduction(ws).value.1, i); }
    }
  }

  lemma ShiftSafe(k: int, load: Instr, scale: Instr)
    requires load.LOAD_INT_VAR?
    ensures AllSafe(Shifted(k, load, scale))
  {
  }

  lemma {:induction false} StoresSafe(ws: seq<Instr>, rest: seq<Instr>)
    requires AllSafe(ws) && AllSafe(rest)
    ensures AllSafe(ReplaceStores(ws, rest))
    decreases |rest|
  {
    if rest == [] { return; }
    var i := rest[0];
    if (i.LOAD_INT_VAR? || i.LOAD_FLOAT_VAR?) && ws != [] && CopyFor(Last(ws), i).Some? { StoresSafe(Front(ws), rest[1..]); }
    else if Stores(i) && !(ws != [] && Last(ws).STOR_INT_VAR?) { StoresSafe(ws + [i], rest[1..]); }
    else { StoresSafe([], rest[1..]); }
  }

  lemma BlockSafe(h: Host, p: Program, level: int, code: seq<Instr>)
    requires SafeProgram(p) && AllSafe(code)
    ensures OptimizeBlock(h, p, level, code).Some? && AllSafe(OptimizeBlock(h, p, level, code).value)
  {
    CleanJumpsKeeps([], code);
    hide CleanJumps, RemoveUseless, InlineSettersGetters, FoldInts, FoldFloats, ReduceStrength, ReplaceStores, PrologueLength, SafeProgram;
    assert AllSafe(CleanJumps([], code));
    UselessSafe([], CleanJumps([], code));
    var clean := Cleaned(code);
    AccessorsSafe(p, clean);
    IntsSafe([], InlineSettersGetters(p, clean));
    var ints := FoldInts([], InlineSettersGetters(p, clean)).value;
    FloatsSafe(h, [], ints);
    var reduced := ReduceStrength([], FoldFloats(h, [], ints));
    ProductsSafe([], FoldFloats(h, [], ints));
    StoresSafe([], reduced[PrologueLength(reduced)..]);
  }

  lemma {:induction false} InlinedSafe(p: Program, current: MethodId, offset: nat, labels: set<int>, code: seq<Instr>, space: nat,
                                       inlined: set<MethodId>)
    requires current in p && SafeProgram(p) && AllSafe(code)
    ensures AllSafe(InlineCalls(p, current, offset, labels, code, space, inlined))
    decreases |code|
  {
    hide Contains, BodyInlinable;
    if code == [] { return; }
    if code[0].MTHD_CALL? && CanInlineMethod(p, current, code[0].id, space, inlined, labels) {
      var id := code[0].id;
      InlinedSafe(p, current, offset, labels, code[1..], space + 8 + p[id].space, inlined + {id});
      RelocatedSafe(offset, p[id].code);
    } else {
      InlinedSafe(p, current, offset, labels, code[1..], space, inlined);
    }
  }

  lemma RelocatedSafe(offset: nat, code: seq<Instr>)
    requires code != [] && AllSafe(code)
    ensures AllSafe(InlinedBody(offset, code))
  {
    var r := RelocateAll(offset, Front(code));
    forall k | 0 <= k < |r| ensures Safe(r[k]) { assert Front(code)[k] in code; }
  }

  /** Whatever passes are run over it, a program that neither divides nor takes remainders is not refused. */
  lemma {:induction false} NeverFaults(h: Host, p: Program, level: int, reserved: int, passes: seq<Pass>)
    requires SafeProgram(p) && forall pass <- passes :: pass.id in p
    ensures RunPasses(h, p, level, reserved, passes).Some?
    decreases |passes|
  {
    hide OptimizeBlock, InlineCalls, LabelsOf, LastLocalOffset, AllSafe;
    if passes == [] { return; }
    var pass := passes[0];
    assert pass in passes;
    var q := RunPass(h, p, level, reserved, pass);
    match pass {
      case Optimize(id) => BlockSafe(h, p, level, p[id].code);
      case Inline(id) =>
        var m := p[id];
        InlinedSafe(p, id, LastLocalOffset(m.code) + 2, LabelsOf(m.code) + {reserved}, m.code, m.space, {});
    }
    NeverFaults(h, q.value, level, reserved, passes[1..]);
  }
}
