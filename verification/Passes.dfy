// What each optimization pass returns, and why its output refines its input. A pass walks the
// instructions with a working stack ws of held-back instructions, oldest first (the deque's
// back); Last(ws) is the deque's front.

module Passes {
  import opened Wrappers
  import opened Words
  import opened Bytecode
  import opened Simulation

  function Last<T>(s: seq<T>): T
    requires s != []
  {
    s[|s| - 1]
  }

  function Front<T>(s: seq<T>): seq<T>
    requires s != []
  {
    s[..|s| - 1]
  }

  lemma MoveOver<T>(ws: seq<T>, rest: seq<T>)
    requires rest != []
    ensures ws + [rest[0]] + rest[1..] == ws + rest
    ensures (ws + rest)[|ws| + 1..] == rest[1..] == [] + rest[1..]
  {
  }

  lemma SplitLast<T>(ws: seq<T>, rest: seq<T>)
    requires ws != [] && rest != []
    ensures ws + rest == Front(ws) + [Last(ws), rest[0]] + rest[1..]
    ensures (ws + rest)[|ws| - 1] == Last(ws) && (ws + rest)[|ws|] == rest[0]
  {
  }

  lemma StraightOne(h: Host, i: Instr, m: Machine)
    requires !IsControl(i)
    ensures Simple([i]) && Straight(h, [i], m) == Step(h, i, m)
  {
    var s := Step(h, i, m);
    if s.Some? { assert Straight(h, [i][1..], s.value) == s; }
  }

  lemma StraightTwo(h: Host, i: Instr, j: Instr, m: Machine)
    requires !IsControl(i) && !IsControl(j)
    ensures Simple([i, j])
    ensures Straight(h, [i, j], m) == (var s := Step(h, i, m); if s.None? then None else Step(h, j, s.value))
  {
    var s := Step(h, i, m);
    assert [i, j][1..] == [j];
    if s.Some? { StraightOne(h, j, s.value); }
  }

  lemma StraightThree(h: Host, i: Instr, j: Instr, k: Instr, m: Machine)
    requires !IsControl(i) && !IsControl(j) && !IsControl(k)
    ensures Simple([i, j, k])
    ensures Straight(h, [i, j, k], m) ==
      (var s := Step(h, i, m); if s.None? then None else
       var t := Step(h, j, s.value); if t.None? then None else Step(h, k, t.value))
  {
    var s := Step(h, i, m);
    assert [i, j, k][1..] == [j, k];
    if s.Some? { StraightTwo(h, j, k, s.value); }
  }

  lemma SameEffectAppend(h: Host, x: seq<Instr>, y: seq<Instr>, z: seq<Instr>)
    requires SameEffect(h, x, y) && Simple(z)
    ensures SameEffect(h, x + z, y + z)
  {
    SameEffectConcat(h, x, y, z, z);
  }

  /** Holding back x as w + tail, then i: if tail and i together act as tail', hold back w + tail'. */
  lemma HoldBack(h: Host, x: seq<Instr>, w: seq<Instr>, tail: seq<Instr>, i: Instr, tail': seq<Instr>)
    requires SameEffect(h, x, w + tail) && !IsControl(i) && SameEffect(h, tail + [i], tail')
    ensures SameEffect(h, x + [i], w + tail')
  {
    assert Simple(w) by { assert forall j <- w :: j in w + tail; }
    SameEffectAppend(h, x, w + tail, [i]);
    assert w + tail + [i] == w + (tail + [i]);
    SameEffectConcat(h, w, w, tail + [i], tail');
    forall m: Machine | Sized(m) ensures Straight(h, x + [i], m) == Straight(h, w + tail', m) {
      assert Straight(h, w + tail + [i], m) == Straight(h, w + tail', m);
    }
  }

  /** A pass that only rewrites straight-line code refines its input. */
  ghost predicate RewrittenTo(h: Host, p: Program, cs: seq<Chunk>, before: seq<Instr>, after: seq<Instr>) {
    && AllSound(h, p, cs) && (forall c <- cs :: c.Keep? || c.Rewrite?)
    && Code(cs, false) == before && Code(cs, true) == after
  }

  lemma RewrittenRefines(h: Host, p: Program, cs: seq<Chunk>, before: seq<Instr>, after: seq<Instr>)
    requires RewrittenTo(h, p, cs, before, after)
    ensures Refines(h, p, before, after, 0)
  {
    ChunksRefine(h, p, cs, 0);
  }

  /** End of the input: what is held back is all that is left. */
  lemma EndOfInput(h: Host, p: Program, x: seq<Instr>, ws: seq<Instr>) returns (cs: seq<Chunk>)
    requires SameEffect(h, x, ws)
    ensures RewrittenTo(h, p, cs, x + [], ws)
  {
    cs := [Rewrite(x, ws)];
    assert cs[1..] == [] && x + [] == x;
  }

  lemma EmptyEffect(h: Host)
    ensures SameEffect(h, [], [])
  {
  }

  lemma Unchanged(h: Host, x: seq<Instr>)
    requires Simple(x)
    ensures SameEffect(h, x, x)
  {
  }

  lemma PrependRewrite(h: Host, p: Program, x: seq<Instr>, y: seq<Instr>, ds: seq<Chunk>, before: seq<Instr>,
                       after: seq<Instr>) returns (cs: seq<Chunk>)
    requires SameEffect(h, x, y) && RewrittenTo(h, p, ds, before, after)
    ensures RewrittenTo(h, p, cs, x + before, y + after)
  {
    cs := [Rewrite(x, y)] + ds;
    assert cs[1..] == ds;
    assert forall k :: 0 < k < |cs| ==> cs[k] == ds[k - 1];
  }

  /** A flush: what was held back, the instruction that forced it out, the rest of the input. */
  lemma Flush(h: Host, p: Program, x: seq<Instr>, ws: seq<Instr>, rest: seq<Instr>, ds: seq<Chunk>, after: seq<Instr>)
    returns (cs: seq<Chunk>)
    requires rest != [] && SameEffect(h, x, ws) && RewrittenTo(h, p, ds, [] + rest[1..], after)
    ensures RewrittenTo(h, p, cs, x + rest, ws + [rest[0]] + after)
  {
    var i := rest[0];
    var es := [Keep(i)] + ds;
    assert es[1..] == ds;
    assert forall k :: 0 < k < |es| ==> es[k] == ds[k - 1];
    assert [i] + ([] + rest[1..]) == rest;
    assert RewrittenTo(h, p, es, rest, [i] + after);
    cs := PrependRewrite(h, p, x, ws, es, rest, [i] + after);
    assert ws + ([i] + after) == ws + [i] + after;
  }

  // ----- Jump cleaning -----

  function CleanJumps(ws: seq<Instr>, rest: seq<Instr>): seq<Instr>
    decreases |rest|
  {
    if rest == [] then ws
    else if rest[0].JMP? then CleanJumps(ws + [rest[0]], rest[1..])
    else if rest[0].LBL? && ws != [] && Last(ws).JMP? && Last(ws).target == rest[0].mark
    then Front(ws) + [rest[0]] + CleanJumps([], rest[1..])
    else ws + [rest[0]] + CleanJumps([], rest[1..])
  }

  /** No conditional jump stands directly before its own label. */
  predicate NoBranchToNext(code: seq<Instr>) {
    forall k :: 0 <= k < |code| - 1 && code[k].JMP? && code[k + 1] == LBL(code[k].target) ==> code[k].cond < 0
  }

  function KeepAll(code: seq<Instr>): seq<Chunk> {
    seq(|code|, k requires 0 <= k < |code| => Keep(code[k]))
  }

  lemma {:induction false} KeepAllCode(code: seq<Instr>, after: bool)
    ensures Code(KeepAll(code), after) == code
  {
    if code != [] {
      assert KeepAll(code)[0] == Keep(code[0]) && KeepAll(code)[1..] == KeepAll(code[1..]);
      KeepAllCode(code[1..], after);
    }
  }

  /** Held-back instructions flushed unchanged, one more chunk, and the chunks of the rest. */
  lemma Assemble(h: Host, p: Program, head: seq<Instr>, mid: Chunk, ds: seq<Chunk>) returns (cs: seq<Chunk>)
    requires Sound(h, p, mid) && AllSound(h, p, ds)
    ensures AllSound(h, p, cs)
    ensures forall c <- cs :: c.Keep? || c == mid || c in ds
    ensures forall after: bool :: Code(cs, after) == head + Side(mid, after) + Code(ds, after)
  {
    cs := KeepAll(head) + ([mid] + ds);
    assert forall k :: |head| < k < |cs| ==> cs[k] == ds[k - |head| - 1];
    assert cs[|head|] == mid;
    forall after: bool ensures Code(cs, after) == head + Side(mid, after) + Code(ds, after) {
      CodeConcat(KeepAll(head), [mid] + ds, after);
      assert ([mid] + ds)[1..] == ds;
      KeepAllCode(head, after);
    }
  }

  lemma NoBranchToNextTail(code: seq<Instr>, k: nat)
    requires NoBranchToNext(code) && k <= |code|
    ensures NoBranchToNext(code[k..])
  {
    forall j | 0 <= j < |code[k..]| - 1 && code[k..][j].JMP? && code[k..][j + 1] == LBL(code[k..][j].target)
      ensures code[k..][j].cond < 0
    {
      assert code[k + j] == code[k..][j] && code[k + j + 1] == code[k..][j + 1];
    }
  }

  lemma {:induction false} CleanJumpsChunks(h: Host, p: Program, ws: seq<Instr>, rest: seq<Instr>) returns (cs: seq<Chunk>)
    requires NoBranchToNext(ws + rest)
    ensures AllSound(h, p, cs) && forall c <- cs :: c.Keep? || c.Drop?
    ensures Code(cs, false) == ws + rest && Code(cs, true) == CleanJumps(ws, rest)
    decreases |rest|
  {
    if rest == [] {
      cs := KeepAll(ws);
      KeepAllCode(ws, false);
      KeepAllCode(ws, true);
      return;
    }
    var i := rest[0];
    MoveOver(ws, rest);
    if i.JMP? {
      cs := CleanJumpsChunks(h, p, ws + [i], rest[1..]);
      return;
    }
    NoBranchToNextTail(ws + rest, |ws| + 1);
    var ds := CleanJumpsChunks(h, p, [], rest[1..]);
    if i.LBL? && ws != [] && Last(ws).JMP? && Last(ws).target == i.mark {
      SplitLast(ws, rest);
      cs := Assemble(h, p, Front(ws), Drop(i.mark, Last(ws).cond), ds);
    } else {
      cs := Assemble(h, p, ws, Keep(i), ds);
    }
  }

  lemma {:induction false} PlacedAt(cs: seq<Chunk>, k: nat, l: int) returns (at: nat)
    requires k < |cs| && Places(cs[k], l)
    ensures at < |Code(cs, false)| && Code(cs, false)[at] == LBL(l)
  {
    if k == 0 {
      at := |Side(cs[0], false)| - 1;
    } else {
      at := PlacedAt(cs[1..], k - 1, l);
      at := at + |Side(cs[0], false)|;
    }
  }

  lemma {:induction false} PlacedTwice(cs: seq<Chunk>, i: nat, j: nat, l: int) returns (a: nat, b: nat)
    requires i < j < |cs| && Places(cs[i], l) && Places(cs[j], l)
    ensures a < b < |Code(cs, false)| && Code(cs, false)[a] == LBL(l) == Code(cs, false)[b]
  {
    var n := |Side(cs[0], false)|;
    if i == 0 {
      a := n - 1;
      b := PlacedAt(cs[1..], j - 1, l);
      b := b + n;
    } else {
      a, b := PlacedTwice(cs[1..], i - 1, j - 1, l);
      a, b := a + n, b + n;
    }
  }

  /** Labels placed once are placed by one chunk. */
  lemma UniqueDrops(cs: seq<Chunk>)
    requires UniqueLabels(Code(cs, false))
    ensures DropsUnique(cs)
  {
    forall i, j | 0 <= i < |cs| && 0 <= j < |cs| && i != j && cs[i].Drop? ensures !Places(cs[j], cs[i].l) {
      if Places(cs[j], cs[i].l) {
        var a, b := PlacedTwice(cs, if i < j then i else j, if i < j then j else i, cs[i].l);
        assert false;
      }
    }
  }

  /** Jump cleaning is exact on uniquely labelled code without a branch to its own label. */
  lemma CleanJumpsRefines(h: Host, p: Program, code: seq<Instr>)
    requires UniqueLabels(code) && NoBranchToNext(code)
    ensures Refines(h, p, code, CleanJumps([], code), 0)
  {
    assert [] + code == code;
    var cs := CleanJumpsChunks(h, p, [], code);
    UniqueDrops(cs);
    ChunksRefine(h, p, cs, 0);
  }

  // ----- Load/store removal -----

  function RemoveUseless(ws: seq<Instr>, rest: seq<Instr>): seq<Instr>
    decreases |rest|
  {
    if rest == [] then []
    else if rest[0].LOAD_INT_VAR? && rest[0].ctx == LOCL then RemoveUseless(ws + [rest[0]], rest[1..])
    else if Undoes(ws, rest[0]) then RemoveUseless(Front(ws), rest[1..])
    else ws + [rest[0]] + RemoveUseless([], rest[1..])
  }

  /** i stores a local right back where the last held-back load took it from. */
  predicate Undoes(ws: seq<Instr>, i: Instr) {
    i.STOR_INT_VAR? && i.ctx == LOCL && ws != [] && Last(ws).LOAD_INT_VAR? && i.slot == Last(ws).slot
  }

  /** What is still held back when the input ends; the pass forgets to emit it. */
  function Leftover(ws: seq<Instr>, rest: seq<Instr>): seq<Instr>
    decreases |rest|
  {
    if rest == [] then ws
    else if rest[0].LOAD_INT_VAR? && rest[0].ctx == LOCL then Leftover(ws + [rest[0]], rest[1..])
    else if Undoes(ws, rest[0]) then Leftover(Front(ws), rest[1..])
    else Leftover([], rest[1..])
  }

  /** The pass with the missing flush put back. */
  function RemoveUselessFlushed(ws: seq<Instr>, rest: seq<Instr>): seq<Instr>
    decreases |rest|
  {
    if rest == [] then ws
    else if rest[0].LOAD_INT_VAR? && rest[0].ctx == LOCL then RemoveUselessFlushed(ws + [rest[0]], rest[1..])
    else if Undoes(ws, rest[0]) then RemoveUselessFlushed(Front(ws), rest[1..])
    else ws + [rest[0]] + RemoveUselessFlushed([], rest[1..])
  }

  lemma {:induction false} MissingFlush(ws: seq<Instr>, rest: seq<Instr>)
    ensures RemoveUselessFlushed(ws, rest) == RemoveUseless(ws, rest) + Leftover(ws, rest)
    decreases |rest|
  {
    if rest != [] {
      var i := rest[0];
      if i.LOAD_INT_VAR? && i.ctx == LOCL { MissingFlush(ws + [i], rest[1..]); }
      else if Undoes(ws, i) { MissingFlush(Front(ws), rest[1..]); }
      else { MissingFlush([], rest[1..]); }
    }
  }

  predicate SlotsInFrame(code: seq<Instr>) {
    forall i <- code :: (i.LOAD_INT_VAR? || i.STOR_INT_VAR? || i.COPY_INT_VAR?) && i.ctx == LOCL ==>
      0 <= i.slot < LOCAL_WORDS
  }

  predicate LocalLoads(ws: seq<Instr>) {
    forall i <- ws :: i.LOAD_INT_VAR? && i.ctx == LOCL && 0 <= i.slot < LOCAL_WORDS
  }

  lemma LoadThenStore(h: Host, slot: int)
    requires 0 <= slot < LOCAL_WORDS
    ensures SameEffect(h, [LOAD_INT_VAR(slot, LOCL)] + [STOR_INT_VAR(slot, LOCL)], [])
  {
    var l, s := LOAD_INT_VAR(slot, LOCL), STOR_INT_VAR(slot, LOCL);
    assert [l] + [s] == [l, s];
    forall m: Machine | Sized(m) ensures Straight(h, [l, s], m) == Straight(h, [], m) {
      StraightTwo(h, l, s, m);
      assert m.locals[slot := m.locals[slot]] == m.locals;
    }
  }

  lemma HeldLoadThenStore(h: Host, x: seq<Instr>, ws: seq<Instr>, store: Instr)
    requires SameEffect(h, x, ws) && LocalLoads(ws) && Undoes(ws, store)
    ensures SameEffect(h, x + [store], Front(ws)) && LocalLoads(Front(ws))
  {
    assert Last(ws) in ws && forall i <- Front(ws) :: i in ws;
    LoadThenStore(h, store.slot);
    assert ws == Front(ws) + [Last(ws)] && Front(ws) + [] == Front(ws);
    HoldBack(h, x, Front(ws), [Last(ws)], store, []);
  }

  lemma {:induction false} RemoveUselessChunks(h: Host, p: Program, x: seq<Instr>, ws: seq<Instr>, rest: seq<Instr>)
    returns (cs: seq<Chunk>)
    requires SameEffect(h, x, ws) && LocalLoads(ws) && SlotsInFrame(rest)
    ensures RewrittenTo(h, p, cs, x + rest, RemoveUselessFlushed(ws, rest))
    decreases |rest|
  {
    EmptyEffect(h);
    hide SameEffect, RewrittenTo;
    if rest == [] {
      cs := EndOfInput(h, p, x, ws);
      return;
    }
    var i := rest[0];
    assert i in rest && forall j <- rest[1..] :: j in rest;
    MoveOver(x, rest);
    if i.LOAD_INT_VAR? && i.ctx == LOCL {
      SameEffectAppend(h, x, ws, [i]);
      cs := RemoveUselessChunks(h, p, x + [i], ws + [i], rest[1..]);
    } else if Undoes(ws, i) {
      HeldLoadThenStore(h, x, ws, i);
      cs := RemoveUselessChunks(h, p, x + [i], Front(ws), rest[1..]);
    } else {
      var ds := RemoveUselessChunks(h, p, [], [], rest[1..]);
      cs := Flush(h, p, x, ws, rest, ds, RemoveUselessFlushed([], rest[1..]));
    }
  }

  // ----- Integer constant folding -----

  function Then(head: seq<Instr>, tail: Option<seq<Instr>>): Option<seq<Instr>> {
    if tail.None? then None else Some(head + tail.value)
  }

  lemma ThenTwice(x: seq<Instr>, y: seq<Instr>, tail: Option<seq<Instr>>)
    ensures Then([], tail) == tail
    ensures Then(x, Then(y, tail)) == Then(x + y, tail)
  {
    if tail.Some? {
      assert [] + tail.value == tail.value && x + (y + tail.value) == x + y + tail.value;
    }
  }

  predicate Folds(op: IntOp) {
    op in {Add, Sub, Mul, Div, Mod, BitAnd, BitOr, BitXor}
  }

  predicate IntLits(ws: seq<Instr>) {
    forall i <- ws :: i.LOAD_INT_LIT?
  }

  /** None: the compiler itself faults on a folded division. */
  function FoldInts(ws: seq<Instr>, rest: seq<Instr>): Option<seq<Instr>>
    requires IntLits(ws)
    decreases |rest|
  {
    if rest == [] then Some(ws)
    else if rest[0].LOAD_INT_LIT? then FoldInts(ws + [rest[0]], rest[1..])
    else if rest[0].INT_OP? && Folds(rest[0].op) && |ws| >= 2 then
      var v := EvalInt(rest[0].op, ws[|ws| - 1].value, ws[|ws| - 2].value);
      if v.None? then None else FoldInts(ws[..|ws| - 2] + [LOAD_INT_LIT(v.value)], rest[1..])
    else Then(ws + [rest[0]], FoldInts([], rest[1..]))
  }

  lemma FoldedInts(h: Host, right: int, left: int, op: IntOp)
    requires EvalInt(op, left, right).Some?
    ensures SameEffect(h, [LOAD_INT_LIT(right), LOAD_INT_LIT(left)] + [INT_OP(op)],
                          [LOAD_INT_LIT(EvalInt(op, left, right).value)])
  {
    hide EvalInt, Step, Straight;
    var r, l, o, v := LOAD_INT_LIT(right), LOAD_INT_LIT(left), INT_OP(op), LOAD_INT_LIT(EvalInt(op, left, right).value);
    assert [r, l] + [o] == [r, l, o];
    forall m: Machine | Sized(m) ensures Straight(h, [r, l, o], m) == Straight(h, [v], m) { FoldedAt(h, right, left, op, m); }
  }

  lemma FoldedAt(h: Host, right: int, left: int, op: IntOp, m: Machine)
    requires EvalInt(op, left, right).Some?
    ensures Straight(h, [LOAD_INT_LIT(right), LOAD_INT_LIT(left), INT_OP(op)], m) ==
      Straight(h, [LOAD_INT_LIT(EvalInt(op, left, right).value)], m)
  {
    hide EvalInt, Straight;
    StraightThree(h, LOAD_INT_LIT(right), LOAD_INT_LIT(left), INT_OP(op), m);
    StraightOne(h, LOAD_INT_LIT(EvalInt(op, left, right).value), m);
    assert ([left] + ([right] + m.stack))[2..] == m.stack;
  }

  lemma {:induction false} FoldIntsChunks(h: Host, p: Program, x: seq<Instr>, ws: seq<Instr>, rest: seq<Instr>)
    returns (cs: seq<Chunk>)
    requires SameEffect(h, x, ws) && IntLits(ws) && FoldInts(ws, rest).Some?
    ensures RewrittenTo(h, p, cs, x + rest, FoldInts(ws, rest).value)
    decreases |rest|
  {
    EmptyEffect(h);
    hide SameEffect, RewrittenTo, EvalInt;
    if rest == [] {
      cs := EndOfInput(h, p, x, ws);
      return;
    }
    var i, n := rest[0], |ws|;
    MoveOver(x, rest);
    if i.LOAD_INT_LIT? {
      SameEffectAppend(h, x, ws, [i]);
      cs := FoldIntsChunks(h, p, x + [i], ws + [i], rest[1..]);
    } else if i.INT_OP? && Folds(i.op) && n >= 2 {
      var left, right := ws[n - 1].value, ws[n - 2].value;
      assert ws == ws[..n - 2] + [LOAD_INT_LIT(right), LOAD_INT_LIT(left)];
      FoldedInts(h, right, left, i.op);
      var v := LOAD_INT_LIT(EvalInt(i.op, left, right).value);
      HoldBack(h, x, ws[..n - 2], [LOAD_INT_LIT(right), LOAD_INT_LIT(left)], i, [v]);
      cs := FoldIntsChunks(h, p, x + [i], ws[..n - 2] + [v], rest[1..]);
    } else {
      var ds := FoldIntsChunks(h, p, [], [], rest[1..]);
      cs := Flush(h, p, x, ws, rest, ds, FoldInts([], rest[1..]).value);
    }
  }

  // ----- Float constant folding -----

  predicate FloatLits(ws: seq<Instr>) {
    forall i <- ws :: i.LOAD_FLOAT_LIT?
  }

  /** The compiler folds with the host's own double arithmetic. */
  function FoldFloats(h: Host, ws: seq<Instr>, rest: seq<Instr>): seq<Instr>
    requires FloatLits(ws)
    decreases |rest|
  {
    if rest == [] then ws
    else if rest[0].LOAD_FLOAT_LIT? then FoldFloats(h, ws + [rest[0]], rest[1..])
    else if rest[0].FLOAT_OP? && |ws| >= 2 then
      var v := h.floatOp(rest[0].fop, ws[|ws| - 1].double, ws[|ws| - 2].double);
      FoldFloats(h, ws[..|ws| - 2] + [LOAD_FLOAT_LIT(v)], rest[1..])
    else ws + [rest[0]] + FoldFloats(h, [], rest[1..])
  }

  lemma FoldedFloats(h: Host, right: Double, left: Double, op: FloatOp)
    ensures SameEffect(h, [LOAD_FLOAT_LIT(right), LOAD_FLOAT_LIT(left)] + [FLOAT_OP(op)],
                          [LOAD_FLOAT_LIT(h.floatOp(op, left, right))])
  {
    var r, l, o, v := LOAD_FLOAT_LIT(right), LOAD_FLOAT_LIT(left), FLOAT_OP(op), LOAD_FLOAT_LIT(h.floatOp(op, left, right));
    assert [r, l] + [o] == [r, l, o];
    forall m: Machine | Sized(m) ensures Straight(h, [r, l, o], m) == Straight(h, [v], m) {
      StraightThree(h, r, l, o, m);
      StraightOne(h, v, m);
      var s := [left.1, left.0] + ([right.1, right.0] + m.stack);
      assert s[4..] == m.stack && s[0] == left.1 && s[1] == left.0 && s[2] == right.1 && s[3] == right.0;
    }
  }

  lemma {:induction false} FoldFloatsChunks(h: Host, p: Program, x: seq<Instr>, ws: seq<Instr>, rest: seq<Instr>)
    returns (cs: seq<Chunk>)
    requires SameEffect(h, x, ws) && FloatLits(ws)
    ensures RewrittenTo(h, p, cs, x + rest, FoldFloats(h, ws, rest))
    decreases |rest|
  {
    EmptyEffect(h);
    hide SameEffect, RewrittenTo;
    if rest == [] {
      cs := EndOfInput(h, p, x, ws);
      return;
    }
    var i, n := rest[0], |ws|;
    MoveOver(x, rest);
    if i.LOAD_FLOAT_LIT? {
      SameEffectAppend(h, x, ws, [i]);
      cs := FoldFloatsChunks(h, p, x + [i], ws + [i], rest[1..]);
    } else if i.FLOAT_OP? && n >= 2 {
      var left, right := ws[n - 1].double, ws[n - 2].double;
      assert ws == ws[..n - 2] + [LOAD_FLOAT_LIT(right), LOAD_FLOAT_LIT(left)];
      FoldedFloats(h, right, left, i.fop);
      var v := LOAD_FLOAT_LIT(h.floatOp(i.fop, left, right));
      HoldBack(h, x, ws[..n - 2], [LOAD_FLOAT_LIT(right), LOAD_FLOAT_LIT(left)], i, [v]);
      cs := FoldFloatsChunks(h, p, x + [i], ws[..n - 2] + [v], rest[1..]);
    } else {
      var ds := FoldFloatsChunks(h, p, [], [], rest[1..]);
      cs := Flush(h, p, x, ws, rest, ds, FoldFloats(h, [], rest[1..]));
    }
  }

  // ----- Strength reduction -----

  /** The shift that replaces a literal; 0 means none does. */
  function ShiftFor(literal: int): (k: nat)
    ensures k <= 8
    ensures k > 0 ==> literal == Pow2(k)
  {
    assert Pow2(0) == 1 && Pow2(1) == 2 && Pow2(2) == 4 && Pow2(3) == 8 && Pow2(4) == 16;
    assert Pow2(5) == 32 && Pow2(6) == 64 && Pow2(7) == 128 && Pow2(8) == 256;
    if literal == 2 then 1 else if literal == 4 then 2 else if literal == 8 then 3 else if literal == 16 then 4
    else if literal == 32 then 5 else if literal == 64 then 6 else if literal == 128 then 7
    else if literal == 256 then 8 else 0
  }

  predicate LitsAndVars(ws: seq<Instr>) {
    forall i <- ws :: i.LOAD_INT_LIT? || i.LOAD_INT_VAR?
  }

  predicate Scales(i: Instr) {
    i == INT_OP(Mul) || i == INT_OP(Div)
  }

  /** The shift and the variable when the two youngest held-back operands are a literal that
      reduces and a variable, in either order. */
  function Reduction(ws: seq<Instr>): (r: Option<(nat, Instr)>)
    requires LitsAndVars(ws)
    ensures r.Some? ==> |ws| >= 2 && r.value.1.LOAD_INT_VAR? && 0 < r.value.0 <= 8
  {
    if |ws| < 2 then None else
    var top, next := ws[|ws| - 1], ws[|ws| - 2];
    if top.LOAD_INT_LIT? && next.LOAD_INT_VAR? && ShiftFor(top.value) > 0 then Some((ShiftFor(top.value), next))
    else if top.LOAD_INT_VAR? && next.LOAD_INT_LIT? && ShiftFor(next.value) > 0 then Some((ShiftFor(next.value), top))
    else None
  }

  function Shifted(k: int, load: Instr, scale: Instr): seq<Instr> {
    [LOAD_INT_LIT(k), load, INT_OP(if scale == INT_OP(Mul) then Shl else Shr)]
  }

  function ReduceStrength(ws: seq<Instr>, rest: seq<Instr>): seq<Instr>
    requires LitsAndVars(ws)
    decreases |rest|
  {
    if rest == [] then ws
    else if rest[0].LOAD_INT_LIT? || rest[0].LOAD_INT_VAR? then ReduceStrength(ws + [rest[0]], rest[1..])
    else if Scales(rest[0]) && Reduction(ws).Some? then
      var (k, load) := Reduction(ws).value;
      ws[..|ws| - 2] + Shifted(k, load, rest[0]) + ReduceStrength([], rest[1..])
    else ws + [rest[0]] + ReduceStrength([], rest[1..])
  }

  /** A left shift by k is the 32-bit product with 2^k, on either side. */
  lemma ShiftIsProduct(k: nat, v: int)
    requires 0 < k <= 8
    ensures EvalInt(Shl, v, k) == EvalInt(Mul, v, Pow2(k)) == EvalInt(Mul, Pow2(k), v)
    ensures EvalInt(Shl, v, k).Some?
  {
    assert v * Pow2(k) == Pow2(k) * v;
  }

  lemma ThreeOperands(h: Host, i: Instr, j: Instr, op: IntOp, m: Machine, a: int, b: int)
    requires !IsControl(i) && !IsControl(j)
    requires Step(h, i, m) == Some(m.(stack := [a] + m.stack))
    requires Step(h, j, m.(stack := [a] + m.stack)) == Some(m.(stack := [b] + ([a] + m.stack)))
    ensures Simple([i, j, INT_OP(op)])
    ensures Straight(h, [i, j, INT_OP(op)], m) ==
      (var v := EvalInt(op, b, a); if v.None? then None else Some(m.(stack := [v.value] + m.stack)))
  {
    hide Step, EvalInt, Straight;
    StraightThree(h, i, j, INT_OP(op), m);
    Operates(h, op, m, a, b);
  }

  lemma Operates(h: Host, op: IntOp, m: Machine, a: int, b: int)
    ensures Step(h, INT_OP(op), m.(stack := [b] + ([a] + m.stack))) ==
      (var v := EvalInt(op, b, a); if v.None? then None else Some(m.(stack := [v.value] + m.stack)))
  {
    hide EvalInt;
    assert ([b] + ([a] + m.stack))[2..] == m.stack;
  }

  lemma ProductToShift(h: Host, k: nat, slot: int)
    requires 0 < k <= 8
    ensures var lit, load := LOAD_INT_LIT(Pow2(k)), LOAD_INT_VAR(slot, LOCL);
      && SameEffect(h, [lit, load] + [INT_OP(Mul)], Shifted(k, load, INT_OP(Mul)))
      && SameEffect(h, [load, lit] + [INT_OP(Mul)], Shifted(k, load, INT_OP(Mul)))
  {
    hide EvalInt;
    var lit, load, mul := LOAD_INT_LIT(Pow2(k)), LOAD_INT_VAR(slot, LOCL), INT_OP(Mul);
    assert [lit, load] + [mul] == [lit, load, mul] && [load, lit] + [mul] == [load, lit, mul];
    forall m: Machine | Sized(m)
      ensures Straight(h, [lit, load, mul], m) == Straight(h, Shifted(k, load, mul), m)
      ensures Straight(h, [load, lit, mul], m) == Straight(h, Shifted(k, load, mul), m)
    {
      if InFrame(m, slot, 1) {
        var v := m.locals[slot];
        ShiftIsProduct(k, v);
        ThreeOperands(h, lit, load, Mul, m, Pow2(k), v);
        ThreeOperands(h, load, lit, Mul, m, v, Pow2(k));
        ThreeOperands(h, LOAD_INT_LIT(k), load, Shl, m, k, v);
      } else {
        StraightThree(h, lit, load, mul, m);
        StraightThree(h, load, lit, mul, m);
        StraightThree(h, LOAD_INT_LIT(k), load, INT_OP(Shl), m);
      }
    }
  }

  // ----- Store/load to copy -----

  predicate Stores(i: Instr) {
    i.STOR_INT_VAR? || i.STOR_FLOAT_VAR?
  }

  function PrologueLength(code: seq<Instr>): (n: nat)
    ensures n <= |code|
    ensures forall k :: 0 <= k < n ==> Stores(code[k])
  {
    if code == [] || !Stores(code[0]) then 0 else 1 + PrologueLength(code[1..])
  }

  function CopyFor(store: Instr, load: Instr): Option<Instr> {
    if store.STOR_INT_VAR? && load == LOAD_INT_VAR(store.slot, store.ctx) then Some(COPY_INT_VAR(store.slot, store.ctx))
    else if store.STOR_FLOAT_VAR? && load == LOAD_FLOAT_VAR(store.slot, store.ctx)
    then Some(COPY_FLOAT_VAR(store.slot, store.ctx))
    else None
  }

  /** A copy is emitted at once, ahead of any store still held back. */
  function ReplaceStores(ws: seq<Instr>, rest: seq<Instr>): seq<Instr>
    decreases |rest|
  {
    if rest == [] then ws
    else if rest[0].LOAD_INT_VAR? || rest[0].LOAD_FLOAT_VAR? then
      if ws != [] && CopyFor(Last(ws), rest[0]).Some?
      then [CopyFor(Last(ws), rest[0]).value] + ReplaceStores(Front(ws), rest[1..])
      else ws + [rest[0]] + ReplaceStores([], rest[1..])
    else if Stores(rest[0]) && !(ws != [] && Last(ws).STOR_INT_VAR?) then ReplaceStores(ws + [rest[0]], rest[1..])
    else ws + [rest[0]] + ReplaceStores([], rest[1..])
  }

  function ReplaceInstructions(code: seq<Instr>): seq<Instr> {
    var n := PrologueLength(code);
    code[..n] + ReplaceStores([], code[n..])
  }

  /** Stores that meet their own load are to locals, and no store follows a float store. */
  predicate CopiesCleanly(code: seq<Instr>) {
    forall k :: 0 <= k < |code| - 1 ==>
      && (CopyFor(code[k], code[k + 1]).Some? ==> code[k].ctx == LOCL)
      && (code[k].STOR_FLOAT_VAR? ==> !Stores(code[k + 1]))
  }

  lemma StoreThenLoad(h: Host, store: Instr, load: Instr)
    requires CopyFor(store, load).Some? && store.ctx == LOCL
    ensures SameEffect(h, [store] + [load], [CopyFor(store, load).value])
  {
    var copy := CopyFor(store, load).value;
    assert [store] + [load] == [store, load];
    forall m: Machine | Sized(m) ensures Straight(h, [store, load], m) == Straight(h, [copy], m) {
      StraightTwo(h, store, load, m);
      StraightOne(h, copy, m);
      var s := m.stack;
      if |s| >= 1 { assert [s[0]] + s[1..] == s; }
      if |s| >= 2 { assert [s[0], s[1]] + s[2..] == s; }
    }
  }

  lemma HeldStoreThenLoad(h: Host, x: seq<Instr>, ws: seq<Instr>, load: Instr)
    requires SameEffect(h, x, ws) && |ws| == 1 && CopyFor(Last(ws), load).Some? && Last(ws).ctx == LOCL
    ensures SameEffect(h, x + [load], [CopyFor(Last(ws), load).value]) && Front(ws) == []
  {
    var copy := CopyFor(Last(ws), load).value;
    StoreThenLoad(h, Last(ws), load);
    assert [] + ws == ws == [Last(ws)] && [] + [copy] == [copy];
    HoldBack(h, x, [], ws, load, [copy]);
  }

  lemma {:induction false} ReplaceStoresChunks(h: Host, p: Program, x: seq<Instr>, ws: seq<Instr>, rest: seq<Instr>)
    returns (cs: seq<Chunk>)
    requires SameEffect(h, x, ws) && |ws| <= 1 && (forall i <- ws :: Stores(i)) && CopiesCleanly(ws + rest)
    ensures RewrittenTo(h, p, cs, x + rest, ReplaceStores(ws, rest))
    decreases |rest|
  {
    EmptyEffect(h);
    hide SameEffect, RewrittenTo;
    if rest == [] {
      cs := EndOfInput(h, p, x, ws);
      return;
    }
    var i := rest[0];
    MoveOver(x, rest);
    MoveOver(ws, rest);
    CopiesCleanlyTail(ws + rest, |ws| + 1);
    Meets(ws, rest);
    hide CopiesCleanly, CopyFor, Stores;
    if ws != [] && CopyFor(Last(ws), i).Some? {
      var copy := CopyFor(Last(ws), i).value;
      HeldStoreThenLoad(h, x, ws, i);
      var ds := ReplaceStoresChunks(h, p, [], [], rest[1..]);
      cs := PrependRewrite(h, p, x + [i], [copy], ds, [] + rest[1..], ReplaceStores([], rest[1..]));
    } else if Stores(i) && !(ws != [] && Last(ws).STOR_INT_VAR?) {
      assert ws == [] && ws + [i] == [i];
      SameEffectAppend(h, x, ws, [i]);
      cs := ReplaceStoresChunks(h, p, x + [i], ws + [i], rest[1..]);
    } else {
      var ds := ReplaceStoresChunks(h, p, [], [], rest[1..]);
      cs := Flush(h, p, x, ws, rest, ds, ReplaceStores([], rest[1..]));
    }
  }

  /** The youngest held-back store and the next instruction are neighbours. */
  lemma Meets(ws: seq<Instr>, rest: seq<Instr>)
    requires rest != [] && CopiesCleanly(ws + rest) && forall i <- ws :: Stores(i)
    ensures ws != [] && CopyFor(Last(ws), rest[0]).Some? ==> Last(ws).ctx == LOCL
    ensures ws != [] && Stores(rest[0]) ==> Last(ws).STOR_INT_VAR?
    ensures ws != [] && CopyFor(Last(ws), rest[0]).Some? ==> rest[0].LOAD_INT_VAR? || rest[0].LOAD_FLOAT_VAR?
    ensures Stores(rest[0]) ==> !IsControl(rest[0]) && !rest[0].LOAD_INT_VAR? && !rest[0].LOAD_FLOAT_VAR?
    ensures ws != [] && rest[1..] == (ws + rest)[|ws| + 1..] ==> ws + [rest[0]] + rest[1..] == ws + rest
  {
    if ws != [] {
      assert Last(ws) in ws;
      assert (ws + rest)[|ws| - 1] == Last(ws) && (ws + rest)[|ws| - 1 + 1] == rest[0];
    }
  }

  lemma CopiesCleanlyTail(code: seq<Instr>, k: nat)
    requires CopiesCleanly(code) && k <= |code|
    ensures CopiesCleanly(code[k..])
  {
    forall j | 0 <= j < |code[k..]| - 1
      ensures CopyFor(code[k..][j], code[k..][j + 1]).Some? ==> code[k..][j].ctx == LOCL
      ensures code[k..][j].STOR_FLOAT_VAR? ==> !Stores(code[k..][j + 1])
    {
      assert code[k..][j] == code[k + j] && code[k..][j + 1] == code[k + j + 1];
    }
  }
}
