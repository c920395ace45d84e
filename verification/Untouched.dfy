// Blocks in which no pass finds anything to do.

module Untouched {
  import opened Wrappers
  import opened Words
  import opened Bytecode
  import opened Simulation
  import opened Passes
  import opened Accessors
  import opened Inlining
  import opened InlineMethod
  import opened Pipeline

  /** Neither a jump to the next label, nor a load and a store, nor a store and a load. */
  predicate Unpaired(i: Instr, j: Instr) {
    && !(i.JMP? && j == LBL(i.target))
    && !(i.LOAD_INT_VAR? && j.STOR_INT_VAR?)
    && !(Stores(i) && (j.LOAD_INT_VAR? || j.LOAD_FLOAT_VAR?))
  }

  predicate Calm(p: Program, i: Instr) {
    !i.INT_OP? && !i.FLOAT_OP? && !Inlinable(p, i)
  }

  predicate Inert(p: Program, code: seq<Instr>) {
    code == [] || (Calm(p, code[0]) && (|code| > 1 ==> Unpaired(code[0], code[1])) && Inert(p, code[1..]))
  }

  lemma InertStep(p: Program, i: Instr, rest: seq<Instr>)
    requires Calm(p, i) && (rest != [] ==> Unpaired(i, rest[0])) && Inert(p, rest)
    ensures Inert(p, [i] + rest)
  {
    assert ([i] + rest)[1..] == rest;
  }

  lemma InertReturn(p: Program)
    ensures Inert(p, [RTRN])
  {
    assert [RTRN][1..] == [];
  }

  lemma InertOwnCall(p: Program, id: MethodId, rest: seq<Instr>)
    requires !Inlinable(p, MTHD_CALL(id)) && Inert(p, rest)
    ensures Inert(p, [LOAD_INST_MEM] + ([MTHD_CALL(id)] + rest))
  {
    hide Inert, Inlinable;
    assert rest != [] ==> Unpaired(MTHD_CALL(id), rest[0]);
    NoCall(p, LOAD_INST_MEM);
    InertStep(p, MTHD_CALL(id), rest);
    InertStep(p, LOAD_INST_MEM, [MTHD_CALL(id)] + rest);
  }

  lemma NoCall(p: Program, i: Instr)
    requires !i.MTHD_CALL?
    ensures !Inlinable(p, i)
  {
  }

  lemma Shift(ws: seq<Instr>, rest: seq<Instr>)
    requires rest != []
    ensures ws + rest == (ws + [rest[0]]) + rest[1..] && ws + [rest[0]] + ([] + rest[1..]) == ws + rest
  {
  }

  lemma {:induction false} JumpsStay(p: Program, ws: seq<Instr>, rest: seq<Instr>)
    requires Inert(p, rest) && (ws != [] && rest != [] ==> Unpaired(Last(ws), rest[0]))
    ensures CleanJumps(ws, rest) == ws + rest
    decreases |rest|
  {
    if rest == [] { return; }
    Shift(ws, rest);
    JumpsStay(p, if rest[0].JMP? then ws + [rest[0]] else [], rest[1..]);
  }

  lemma {:induction false} LoadsStay(p: Program, ws: seq<Instr>, rest: seq<Instr>)
    requires Inert(p, rest) && (ws != [] ==> rest != [] && Last(ws).LOAD_INT_VAR? && Unpaired(Last(ws), rest[0]))
    requires rest != [] ==> Last(rest) == RTRN
    ensures RemoveUseless(ws, rest) == ws + rest
    decreases |rest|
  {
    if rest == [] { return; }
    Shift(ws, rest);
    if |rest| > 1 { assert Last(rest[1..]) == Last(rest); }
    LoadsStay(p, if rest[0].LOAD_INT_VAR? && rest[0].ctx == LOCL then ws + [rest[0]] else [], rest[1..]);
  }

  lemma {:induction false} CallsStay(p: Program, code: seq<Instr>)
    requires Inert(p, code)
    ensures InlineSettersGetters(p, code) == code
  {
    hide Inlinable, AccessorBody;
    if code != [] {
      CallsStay(p, code[1..]);
      assert [code[0]] + code[1..] == code;
    }
  }

  lemma {:induction false} IntsStay(p: Program, ws: seq<Instr>, rest: seq<Instr>)
    requires Inert(p, rest) && IntLits(ws)
    ensures FoldInts(ws, rest) == Some(ws + rest)
    decreases |rest|
  {
    if rest == [] { assert ws + rest == ws; return; }
    Shift(ws, rest);
    IntsStay(p, if rest[0].LOAD_INT_LIT? then ws + [rest[0]] else [], rest[1..]);
  }

  lemma {:induction false} FloatsStay(h: Host, p: Program, ws: seq<Instr>, rest: seq<Instr>)
    requires Inert(p, rest) && FloatLits(ws)
    ensures FoldFloats(h, ws, rest) == ws + rest
    decreases |rest|
  {
    if rest == [] { return; }
    Shift(ws, rest);
    FloatsStay(h, p, if rest[0].LOAD_FLOAT_LIT? then ws + [rest[0]] else [], rest[1..]);
  }

  lemma {:induction false} OperandsStay(p: Program, ws: seq<Instr>, rest: seq<Instr>)
    requires Inert(p, rest) && LitsAndVars(ws)
    ensures ReduceStrength(ws, rest) == ws + rest
    decreases |rest|
  {
    if rest == [] { return; }
    Shift(ws, rest);
    OperandsStay(p, if rest[0].LOAD_INT_LIT? || rest[0].LOAD_INT_VAR? then ws + [rest[0]] else [], rest[1..]);
  }

  lemma {:induction false} StoresStay(p: Program, ws: seq<Instr>, rest: seq<Instr>)
    requires Inert(p, rest) && (ws != [] && rest != [] ==> Stores(Last(ws)) && Unpaired(Last(ws), rest[0]))
    ensures ReplaceStores(ws, rest) == ws + rest
    decreases |rest|
  {
    if rest == [] { return; }
    Shift(ws, rest);
    StoresStay(p, if Stores(rest[0]) && !(ws != [] && Last(ws).STOR_INT_VAR?) then ws + [rest[0]] else [], rest[1..]);
  }

  lemma {:induction false} InertTail(p: Program, code: seq<Instr>, n: nat)
    requires Inert(p, code) && n <= |code|
    ensures Inert(p, code[n..])
  {
    if n > 0 {
      InertTail(p, code[1..], n - 1);
      assert code[1..][n - 1..] == code[n..];
    }
  }

  /** Such a block is left as it is at every level. */
  lemma InertKept(h: Host, p: Program, level: int, code: seq<Instr>)
    requires Inert(p, code) && (code != [] ==> Last(code) == RTRN)
    ensures OptimizeBlock(h, p, level, code) == Some(code)
  {
    CleanedKept(p, code);
    FoldedKept(h, p, code);
    OperandsStay(p, [], code);
    ReplacedKept(p, code);
    hide Cleaned, Folded, ReduceStrength, ReplaceInstructions, Inert;
    assert [] + code == code;
  }

  lemma CleanedKept(p: Program, code: seq<Instr>)
    requires Inert(p, code) && (code != [] ==> Last(code) == RTRN)
    ensures Cleaned(code) == code
  {
    JumpsStay(p, [], code);
    LoadsStay(p, [], code);
    hide CleanJumps, RemoveUseless, Inert;
    assert [] + code == code;
  }

  lemma FoldedKept(h: Host, p: Program, code: seq<Instr>)
    requires Inert(p, code) && (code != [] ==> Last(code) == RTRN)
    ensures Folded(h, p, code) == Some(code)
  {
    CleanedKept(p, code);
    CallsStay(p, code);
    IntsStay(p, [], code);
    FloatsStay(h, p, [], code);
    hide Cleaned, InlineSettersGetters, FoldInts, FoldFloats, Inert;
    assert [] + code == code;
  }

  lemma ReplacedKept(p: Program, code: seq<Instr>)
    requires Inert(p, code)
    ensures ReplaceInstructions(code) == code
  {
    hide ReplaceStores, PrologueLength, Inert;
    var n := PrologueLength(code);
    InertTail(p, code, n);
    StoresStay(p, [], code[n..]);
    Rejoin(code, n);
  }

  /** No pass over a block changes one of these methods. */
  predicate StillMethod(p: Program, id: MethodId) {
    id in p && p[id].code != [] && Last(p[id].code) == RTRN && Inert(p, p[id].code)
  }

  predicate Still(p: Program, ids: seq<MethodId>) {
    forall id <- ids :: StillMethod(p, id)
  }

  lemma ThreeStill(p: Program, a: MethodId, b: MethodId, c: MethodId)
    requires StillMethod(p, a) && StillMethod(p, b) && StillMethod(p, c)
    ensures Still(p, [a, b, c])
  {
    hide StillMethod;
  }

  lemma {:induction false} StillOptimizes(h: Host, p: Program, level: int, reserved: int, ids: seq<MethodId>, rest: seq<Pass>)
    requires Still(p, ids)
    ensures RunPasses(h, p, level, reserved, OptimizeEach(ids) + rest) == RunPasses(h, p, level, reserved, rest)
  {
    if ids == [] {
      assert OptimizeEach(ids) + rest == rest;
    } else {
      var passes := OptimizeEach(ids) + rest;
      assert ids[0] in ids && forall id <- ids[1..] :: id in ids;
      assert passes[0] == Pass.Optimize(ids[0]) && passes[1..] == OptimizeEach(ids[1..]) + rest;
      InertKept(h, p, level, p[ids[0]].code);
      assert p[ids[0] := p[ids[0]].(code := p[ids[0]].code)] == p;
      hide OptimizeBlock, Inert;
      StillOptimizes(h, p, level, reserved, ids[1..], rest);
    }
  }

  /** Nothing is inlined into a method without calls. */
  lemma {:induction false} NoCalls(p: Program, current: MethodId, labels: set<int>, code: seq<Instr>, space: nat, inlined: set<MethodId>)
    requires current in p && forall i <- code :: !i.MTHD_CALL?
    ensures InlinedIds(p, current, labels, code, space, inlined) == []
  {
    if code != [] { NoCalls(p, current, labels, code[1..], space, inlined); }
  }

  lemma InlinesNothing(h: Host, p: Program, level: int, reserved: int, id: MethodId, rest: seq<Pass>)
    requires id in p && forall i <- p[id].code :: !i.MTHD_CALL?
    ensures RunPasses(h, p, level, reserved, [Pass.Inline(id)] + rest) == RunPasses(h, p, level, reserved, rest)
  {
    NoCalls(p, id, LabelsOf(p[id].code) + {reserved}, p[id].code, p[id].space, {});
    NothingInlinedInto(p, id, reserved);
    hide InlineInto;
    assert ([Pass.Inline(id)] + rest)[1..] == rest;
  }

  lemma InlinesOne(h: Host, p: Program, level: int, reserved: int, id: MethodId, rest: seq<Pass>)
    requires id in p && level > 2
    ensures RunPasses(h, p, level, reserved, [Pass.Inline(id)] + rest) ==
      RunPasses(h, p[id := InlineInto(p, id, reserved)], level, reserved, rest)
  {
    hide InlineInto;
    assert ([Pass.Inline(id)] + rest)[1..] == rest;
  }

  /** The schedule over one class of three methods. */
  lemma ThreeMethods(a: MethodId, b: MethodId, c: MethodId)
    ensures Schedule([[a, b, c]]) ==
      OptimizeEach([a, b, c]) + ([Pass.Inline(a)] + ([Pass.Inline(b)] + ([Pass.Inline(c)] + [])))
  {
    assert [[a, b, c]][1..] == [] && [a, b, c][1..] == [b, c] && [b, c][1..] == [c] && [c][1..] == [];
    assert InlineEach([c]) == [Pass.Inline(c)] + InlineEach([]);
    assert InlineEach([b, c]) == [Pass.Inline(b)] + InlineEach([c]);
    assert InlineEach([a, b, c]) == [Pass.Inline(a)] + InlineEach([b, c]);
    assert Schedule([]) == [];
    assert InlineEach([a, b, c]) + [] == InlineEach([a, b, c]);
  }
}
