// What each pass achieves: after it, nothing it is for is left to do.

module Thorough {
  import opened Wrappers
  import opened Words
  import opened Bytecode
  import opened Passes
  import opened Accessors
  import opened Pipeline

  // ----- Jumps -----

  /** Instruction k is a jump and the next instruction is its label. */
  predicate ToNext(code: seq<Instr>, k: nat)
    requires k < |code|
  {
    code[k].JMP? && k + 1 < |code| && code[k + 1] == LBL(code[k].target)
  }

  /** The instructions of code that are no such jump, in order. */
  function WithoutJumps(code: seq<Instr>): seq<Instr> {
    if code == [] then [] else (if ToNext(code, 0) then [] else [code[0]]) + WithoutJumps(code[1..])
  }

  predicate Jumps(ws: seq<Instr>) {
    forall i <- ws :: i.JMP?
  }

  lemma {:induction false} JumpsStay(ws: seq<Instr>, rest: seq<Instr>)
    requires Jumps(ws) && (rest == [] || !rest[0].LBL?)
    ensures WithoutJumps(ws + rest) == ws + WithoutJumps(rest)
  {
    if ws == [] {
      assert ws + rest == rest;
    } else {
      assert (ws + rest)[1..] == ws[1..] + rest && (ws + rest)[0] == ws[0];
      JumpsStay(ws[1..], rest);
      assert !ToNext(ws + rest, 0) by { if |ws| > 1 { assert (ws + rest)[1] == ws[1]; } }
    }
  }

  lemma LabelNext(jump: Instr, place: Instr, rest: seq<Instr>)
    requires jump.JMP? && place.LBL?
    ensures WithoutJumps([jump] + ([place] + rest)) ==
      (if jump.target == place.mark then [] else [jump]) + ([place] + WithoutJumps(rest))
  {
    var tail := [place] + rest;
    var all := [jump] + tail;
    assert all[0] == jump && all[1] == place && all[1..] == tail && tail[0] == place && tail[1..] == rest;
    assert ToNext(all, 0) <==> jump.target == place.mark;
    assert !ToNext(tail, 0);
  }

  lemma JumpsToLabel(ws: seq<Instr>, place: Instr, rest: seq<Instr>)
    requires Jumps(ws) && place.LBL?
    ensures WithoutJumps(ws + ([place] + rest)) ==
      (if ws != [] && Last(ws).target == place.mark then Front(ws) else ws) + ([place] + WithoutJumps(rest))
  {
    if ws == [] {
      OtherKept(place, rest);
      assert ws + ([place] + rest) == [place] + rest;
    } else {
      hide WithoutJumps, ToNext;
      var front, last, tail := Front(ws), Last(ws), [place] + rest;
      Split(ws, tail);
      LabelNext(last, place, rest);
      JumpsStay(front, [last] + tail);
      Split(ws, [place] + WithoutJumps(rest));
    }
  }

  lemma Split(ws: seq<Instr>, tail: seq<Instr>)
    requires Jumps(ws) && ws != []
    ensures ws + tail == Front(ws) + ([Last(ws)] + tail) && Jumps(Front(ws)) && Last(ws).JMP? && [] + tail == tail
  {
    assert Last(ws) in ws && forall i <- Front(ws) :: i in ws;
  }

  lemma OtherKept(i: Instr, rest: seq<Instr>)
    ensures !i.JMP? ==> WithoutJumps([i] + rest) == [i] + WithoutJumps(rest)
    ensures WithoutJumps([]) == []
  {
    assert ([i] + rest)[1..] == rest;
  }

  lemma FlushDrops(ws: seq<Instr>, i: Instr, after: seq<Instr>)
    requires Jumps(ws) && !i.JMP? && CleanJumps([], after) == WithoutJumps(after)
    ensures CleanJumps(ws, [i] + after) == WithoutJumps(ws + ([i] + after))
  {
    var rest := [i] + after;
    assert rest[0] == i && rest[1..] == after;
    var kept := if i.LBL? && ws != [] && Last(ws).target == i.mark then Front(ws) else ws;
    assert i.LBL? && ws != [] ==> Last(ws) in ws;
    assert CleanJumps(ws, rest) == kept + [i] + CleanJumps([], after);
    OtherKept(i, after);
    hide WithoutJumps, CleanJumps;
    assert kept + [i] + WithoutJumps(after) == kept + ([i] + WithoutJumps(after));
    if i.LBL? { JumpsToLabel(ws, i, after); } else { JumpsStay(ws, rest); }
  }

  lemma {:induction false} CleaningDrops(ws: seq<Instr>, rest: seq<Instr>)
    requires Jumps(ws)
    ensures CleanJumps(ws, rest) == WithoutJumps(ws + rest)
    decreases |rest|
  {
    hide WithoutJumps;
    if rest == [] {
      JumpsStay(ws, rest);
      OtherKept(RTRN, []);
    } else {
      var i, after := rest[0], rest[1..];
      assert rest == [i] + after;
      if i.JMP? {
        assert ws + rest == (ws + [i]) + after;
        CleaningDrops(ws + [i], after);
      } else {
        assert [] + after == after;
        CleaningDrops([], after);
        FlushDrops(ws, i, after);
      }
    }
  }

  /** Jump cleaning takes out exactly the jumps that stand directly before their own label. */
  lemma JumpsCleaned(code: seq<Instr>)
    ensures CleanJumps([], code) == WithoutJumps(code)
  {
    assert [] + code == code;
    CleaningDrops([], code);
  }

  // ----- Neighbours -----

  /** bad holds of no two neighbours. */
  predicate NoPair(bad: (Instr, Instr) -> bool, code: seq<Instr>) {
    forall k :: 0 <= k < |code| - 1 ==> !bad(code[k], code[k + 1])
  }

  /** bad holds of no three neighbours. */
  predicate NoTriple(bad: (Instr, Instr, Instr) -> bool, code: seq<Instr>) {
    forall k :: 0 <= k < |code| - 2 ==> !bad(code[k], code[k + 1], code[k + 2])
  }

  lemma PairsJoin(bad: (Instr, Instr) -> bool, x: seq<Instr>, y: seq<Instr>)
    requires NoPair(bad, x) && NoPair(bad, y) && (x != [] && y != [] ==> !bad(Last(x), y[0]))
    ensures NoPair(bad, x + y)
  {
    var z := x + y;
    forall k | 0 <= k < |z| - 1 ensures !bad(z[k], z[k + 1]) {
      if k < |x| - 1 { assert z[k] == x[k] && z[k + 1] == x[k + 1]; }
      else if k >= |x| { assert z[k] == y[k - |x|] && z[k + 1] == y[k - |x| + 1]; }
    }
  }

  /** No bad triple starts with the last instruction of x or the one in front of it. */
  lemma TriplesJoin(bad: (Instr, Instr, Instr) -> bool, x: seq<Instr>, y: seq<Instr>)
    requires NoTriple(bad, x) && NoTriple(bad, y)
    requires x != [] ==> forall i, j :: !bad(i, Last(x), j) && !bad(Last(x), i, j)
    ensures NoTriple(bad, x + y)
  {
    var z := x + y;
    forall k | 0 <= k < |z| - 2 ensures !bad(z[k], z[k + 1], z[k + 2]) {
      if k < |x| - 2 { assert z[k] == x[k] && z[k + 1] == x[k + 1] && z[k + 2] == x[k + 2]; }
      else if k >= |x| { assert z[k] == y[k - |x|] && z[k + 1] == y[k - |x| + 1] && z[k + 2] == y[k - |x| + 2]; }
      else if k == |x| - 1 { assert z[k] == Last(x); }
      else { assert z[k + 1] == Last(x); }
    }
  }

  /** A local loaded and stored right back. */
  predicate Useless(i: Instr, j: Instr) {
    i.LOAD_INT_VAR? && i.ctx == LOCL && j == STOR_INT_VAR(i.slot, LOCL)
  }

  predicate LocalLoad(i: Instr) {
    i.LOAD_INT_VAR? && i.ctx == LOCL
  }

  /** No local is stored back behind its own load. */
  lemma {:induction false} UselessRemoved(ws: seq<Instr>, rest: seq<Instr>)
    requires forall i <- ws :: LocalLoad(i)
    ensures NoPair(Useless, RemoveUseless(ws, rest))
    decreases |rest|
  {
    if rest != [] {
      var i := rest[0];
      if LocalLoad(i) { UselessRemoved(ws + [i], rest[1..]); }
      else if Undoes(ws, i) { UselessRemoved(Front(ws), rest[1..]); }
      else {
        UselessRemoved([], rest[1..]);
        var x := ws + [i];
        forall k | 0 <= k < |x| - 1 ensures !Useless(x[k], x[k + 1]) {
          if k + 1 < |ws| { assert x[k + 1] == ws[k + 1] && ws[k + 1] in ws; }
        }
        PairsJoin(Useless, x, RemoveUseless([], rest[1..]));
      }
    }
  }

  // ----- Constants -----

  predicate FoldableInts(i: Instr, j: Instr, o: Instr) {
    i.LOAD_INT_LIT? && j.LOAD_INT_LIT? && o.INT_OP? && Folds(o.op)
  }

  predicate FoldableFloats(i: Instr, j: Instr, o: Instr) {
    i.LOAD_FLOAT_LIT? && j.LOAD_FLOAT_LIT? && o.FLOAT_OP?
  }

  /** No operation is left over two integer literals. */
  lemma {:induction false} IntsFolded(ws: seq<Instr>, rest: seq<Instr>)
    requires IntLits(ws) && FoldInts(ws, rest).Some?
    ensures NoTriple(FoldableInts, FoldInts(ws, rest).value)
    decreases |rest|
  {
    if rest == [] {
      assert forall k :: 0 <= k < |ws| ==> ws[k] in ws;
    } else {
      var i, n := rest[0], |ws|;
      if i.LOAD_INT_LIT? {
        IntsFolded(ws + [i], rest[1..]);
      } else if i.INT_OP? && Folds(i.op) && n >= 2 {
        IntsFolded(ws[..n - 2] + [LOAD_INT_LIT(EvalInt(i.op, ws[n - 1].value, ws[n - 2].value).value)], rest[1..]);
      } else {
        IntsFolded([], rest[1..]);
        var x := ws + [i];
        forall k | 0 <= k < |x| - 2 ensures !FoldableInts(x[k], x[k + 1], x[k + 2]) {
          if k + 2 < n { assert x[k + 2] == ws[k + 2] && ws[k + 2] in ws; }
        }
        TriplesJoin(FoldableInts, x, FoldInts([], rest[1..]).value);
      }
    }
  }

  /** No operation is left over two float literals. */
  lemma {:induction false} FloatsFolded(h: Host, ws: seq<Instr>, rest: seq<Instr>)
    requires FloatLits(ws)
    ensures NoTriple(FoldableFloats, FoldFloats(h, ws, rest))
    decreases |rest|
  {
    if rest == [] {
      assert forall k :: 0 <= k < |ws| ==> ws[k] in ws;
    } else {
      var i, n := rest[0], |ws|;
      if i.LOAD_FLOAT_LIT? {
        FloatsFolded(h, ws + [i], rest[1..]);
      } else if i.FLOAT_OP? && n >= 2 {
        FloatsFolded(h, ws[..n - 2] + [LOAD_FLOAT_LIT(h.floatOp(i.fop, ws[n - 1].double, ws[n - 2].double))], rest[1..]);
      } else {
        FloatsFolded(h, [], rest[1..]);
        var x := ws + [i];
        forall k | 0 <= k < |x| - 2 ensures !FoldableFloats(x[k], x[k + 1], x[k + 2]) {
          if k + 2 < n { assert x[k + 2] == ws[k + 2] && ws[k + 2] in ws; }
        }
        TriplesJoin(FoldableFloats, x, FoldFloats(h, [], rest[1..]));
      }
    }
  }

  // ----- Products and quotients -----

  /** 2, 4, 8, ..., 256. */
  predicate SmallPower(v: int) {
    exists k: nat :: k <= 8 && k > 0 && v == Pow2(k)
  }

  /** A variable multiplied with or divided by such a literal, or the other way round. */
  predicate Reducible(i: Instr, j: Instr, o: Instr) {
    && (o == INT_OP(Mul) || o == INT_OP(Div))
    && ((i.LOAD_INT_VAR? && j.LOAD_INT_LIT? && SmallPower(j.value)) || (i.LOAD_INT_LIT? && SmallPower(i.value) && j.LOAD_INT_VAR?))
  }

  lemma ShiftForExact(v: int)
    ensures ShiftFor(v) > 0 <==> SmallPower(v)
  {
    if SmallPower(v) {
      var k: nat :| k <= 8 && k > 0 && v == Pow2(k);
      assert Pow2(1) == 2 && Pow2(2) == 4 && Pow2(3) == 8 && Pow2(4) == 16;
      assert Pow2(5) == 32 && Pow2(6) == 64 && Pow2(7) == 128 && Pow2(8) == 256;
    }
  }

  /** No product or quotient is left that a shift could replace. */
  lemma {:induction false} ProductsReduced(ws: seq<Instr>, rest: seq<Instr>)
    requires LitsAndVars(ws)
    ensures NoTriple(Reducible, ReduceStrength(ws, rest))
    decreases |rest|
  {
    hide ShiftFor, SmallPower, Pow2;
    if rest == [] {
      assert forall k :: 0 <= k < |ws| ==> ws[k] in ws;
    } else {
      var i, n := rest[0], |ws|;
      if i.LOAD_INT_LIT? || i.LOAD_INT_VAR? {
        ProductsReduced(ws + [i], rest[1..]);
      } else {
        ProductsReduced([], rest[1..]);
        var x := if Scales(i) && Reduction(ws).Some?
                 then ws[..n - 2] + Shifted(Reduction(ws).value.0, Reduction(ws).value.1, i) else ws + [i];
        FlushedReduced(ws, i, x);
        TriplesJoin(Reducible, x, ReduceStrength([], rest[1..]));
      }
    }
  }

  lemma FlushedReduced(ws: seq<Instr>, i: Instr, x: seq<Instr>)
    requires LitsAndVars(ws) && !i.LOAD_INT_LIT? && !i.LOAD_INT_VAR?
    requires x == if Scales(i) && Reduction(ws).Some?
                  then ws[..|ws| - 2] + Shifted(Reduction(ws).value.0, Reduction(ws).value.1, i) else ws + [i]
    ensures NoTriple(Reducible, x) && x != [] && !Last(x).LOAD_INT_LIT? && !Last(x).LOAD_INT_VAR?
  {
    hide ShiftFor, SmallPower, Pow2;
    var n := |ws|;
    assert forall k :: 0 <= k < n ==> ws[k] in ws;
    if n >= 2 {
      if ws[n - 1].LOAD_INT_LIT? { ShiftForExact(ws[n - 1].value); }
      if ws[n - 2].LOAD_INT_LIT? { ShiftForExact(ws[n - 2].value); }
    }
    forall k | 0 <= k < |x| - 2 ensures !Reducible(x[k], x[k + 1], x[k + 2]) {
      if k + 2 < |x| - 1 { assert x[k + 2].LOAD_INT_LIT? || x[k + 2].LOAD_INT_VAR?; }
    }
  }

  // ----- Stores and accessors -----

  /** A store met by its own load becomes a copy, whatever follows. */
  lemma StoreCopied(slot: int, ctx: MemoryContext, rest: seq<Instr>)
    ensures ReplaceStores([], [STOR_INT_VAR(slot, ctx), LOAD_INT_VAR(slot, ctx)] + rest) == [COPY_INT_VAR(slot, ctx)] + ReplaceStores([], rest)
    ensures ReplaceStores([], [STOR_FLOAT_VAR(slot, ctx), LOAD_FLOAT_VAR(slot, ctx)] + rest) ==
      [COPY_FLOAT_VAR(slot, ctx)] + ReplaceStores([], rest)
  {
    StoredThenLoaded(STOR_INT_VAR(slot, ctx), LOAD_INT_VAR(slot, ctx), rest);
    StoredThenLoaded(STOR_FLOAT_VAR(slot, ctx), LOAD_FLOAT_VAR(slot, ctx), rest);
  }

  lemma StoredThenLoaded(store: Instr, load: Instr, rest: seq<Instr>)
    requires CopyFor(store, load).Some?
    ensures ReplaceStores([], [store, load] + rest) == [CopyFor(store, load).value] + ReplaceStores([], rest)
  {
    var code := [store, load] + rest;
    assert code[0] == store && code[1..] == [load] + rest && ([load] + rest)[1..] == rest && [] + [store] == [store];
    assert ReplaceStores([store], [load] + rest) == [CopyFor(store, load).value] + ReplaceStores(Front([store]), rest);
    assert Front([store]) == [];
  }

  /** No call of an accessor is left. */
  lemma {:induction false} AccessorsInlined(p: Program, code: seq<Instr>)
    ensures forall i <- InlineSettersGetters(p, code) :: !Inlinable(p, i)
  {
    if code != [] { AccessorsInlined(p, code[1..]); }
  }

  /** The five shapes of an accessor and what comes in place of a call. */
  lemma AccessorShapes(m: Method)
    ensures m.numParams == 0 ==>
      && (forall x :: m.code == [LOAD_INST_MEM, LOAD_INT_VAR(x, INST), RTRN] ==> Accessed(m, [LOAD_INT_VAR(x, INST)]))
      && (forall x :: m.code == [LOAD_INST_MEM, LOAD_FLOAT_VAR(x, INST), RTRN] ==> Accessed(m, [LOAD_FLOAT_VAR(x, INST)]))
      && (forall v :: m.code == [LOAD_INT_LIT(v), RTRN] ==> Accessed(m, [POP_INT, LOAD_INT_LIT(v)]))
      && forall d :: m.code == [LOAD_FLOAT_LIT(d), RTRN] ==> Accessed(m, [POP_INT, LOAD_FLOAT_LIT(d)])
    ensures m.numParams == 1 ==>
      && (m.code == [STOR_INT_VAR(0, LOCL), LOAD_INT_VAR(0, LOCL), LOAD_INT_LIT(PUT_CHAR), TRAP(2), RTRN] ==>
            Accessed(m, [POP_INT, LOAD_INT_LIT(PUT_CHAR), TRAP(2)]))
      && (forall x :: m.code == [STOR_INT_VAR(0, LOCL), LOAD_INT_VAR(0, LOCL), LOAD_INST_MEM, STOR_INT_VAR(x, INST), RTRN] ==>
            Accessed(m, [STOR_INT_VAR(x, INST)]))
      && forall x :: m.code == [STOR_FLOAT_VAR(0, LOCL), LOAD_FLOAT_VAR(0, LOCL), LOAD_INST_MEM, STOR_FLOAT_VAR(x, INST), RTRN] ==>
           Accessed(m, [STOR_FLOAT_VAR(x, INST)])
  {
  }

  predicate Accessed(m: Method, body: seq<Instr>) {
    CanInlineSetterGetter(m) >= 0 && AccessorBody(m) == body
  }

  // ----- Whole blocks -----

  /** What is left of a block: at level 0 no useless pair, at level 1 no float operation over literals, at level 2 no product or
      quotient a shift could replace. */
  lemma BlockThorough(h: Host, p: Program, level: int, code: seq<Instr>)
    requires OptimizeBlock(h, p, level, code).Some?
    ensures level <= 0 ==> NoPair(Useless, OptimizeBlock(h, p, level, code).value)
    ensures level == 1 ==> NoTriple(FoldableFloats, OptimizeBlock(h, p, level, code).value)
    ensures level == 2 ==> NoTriple(Reducible, OptimizeBlock(h, p, level, code).value)
  {
    hide NoPair, NoTriple;
    UselessRemoved([], CleanJumps([], code));
    if level >= 1 {
      var ints := FoldInts([], InlineSettersGetters(p, Cleaned(code)));
      if ints.Some? { FloatsFolded(h, [], ints.value); }
      if level >= 2 { ProductsReduced([], Folded(h, p, code).value); }
    }
  }

  /** No pass changes the block. */
  predicate Settled(h: Host, p: Program, code: seq<Instr>) {
    && CleanJumps([], code) == code && RemoveUseless([], code) == code && InlineSettersGetters(p, code) == code
    && FoldInts([], code) == Some(code) && FoldFloats(h, [], code) == code && ReduceStrength([], code) == code
    && ReplaceInstructions(code) == code
  }

  /** Each pass is run, from its level on: a block that one pass alone would change comes out as that pass leaves it. */
  lemma EachPassRuns(h: Host, p: Program, level: int, code: seq<Instr>)
    ensures Settled(h, p, CleanJumps([], code)) ==> OptimizeBlock(h, p, level, code) == Some(CleanJumps([], code))
    ensures CleanJumps([], code) == code && Settled(h, p, RemoveUseless([], code)) ==>
      OptimizeBlock(h, p, level, code) == Some(RemoveUseless([], code))
    ensures Cleaned(code) == code ==> (level <= 0 ==> OptimizeBlock(h, p, level, code) == Some(code))
    ensures Cleaned(code) == code && Settled(h, p, InlineSettersGetters(p, code)) && level >= 1 ==>
      OptimizeBlock(h, p, level, code) == Some(InlineSettersGetters(p, code))
    ensures Cleaned(code) == InlineSettersGetters(p, code) == code && level >= 1 ==>
      var ints := FoldInts([], code);
      if ints.None? then OptimizeBlock(h, p, level, code) == None
      else Settled(h, p, ints.value) ==> OptimizeBlock(h, p, level, code) == ints
    ensures Cleaned(code) == InlineSettersGetters(p, code) == code && FoldInts([], code) == Some(code) && level >= 1 ==>
      (Settled(h, p, FoldFloats(h, [], code)) ==> OptimizeBlock(h, p, level, code) == Some(FoldFloats(h, [], code)))
    ensures Folded(h, p, code) == Some(code) && level >= 2 && Settled(h, p, ReduceStrength([], code)) ==>
      OptimizeBlock(h, p, level, code) == Some(ReduceStrength([], code))
    ensures Folded(h, p, code) == Some(code) && ReduceStrength([], code) == code && level >= 3 ==>
      OptimizeBlock(h, p, level, code) == Some(ReplaceInstructions(code))
  {
    hide CleanJumps, RemoveUseless, InlineSettersGetters, FoldInts, FoldFloats, ReduceStrength, ReplaceInstructions;
  }
}
