// What the passes over a block leave alone: its labels, where it jumps and whom it calls, its final
// return, and that locals are written before they are read.

module Shape {
  import opened Wrappers
  import opened Words
  import opened Bytecode
  import opened Simulation
  import opened Passes
  import opened Accessors
  import opened Inlining
  import opened Pipeline

  /** The labels a block places, in order. */
  function MarksOf(code: seq<Instr>): seq<int> {
    if code == [] then [] else (if code[0].LBL? then [code[0].mark] else []) + MarksOf(code[1..])
  }

  /** The local slots an instruction names. */
  function Named(i: Instr): set<int> {
    if (IsVariable(i) || IsFunctionVariable(i)) && i.ctx == LOCL then SlotsOf(i) else {}
  }

  function Locals(code: seq<Instr>): set<int> {
    if code == [] then {} else Named(code[0]) + Locals(code[1..])
  }

  ghost predicate Keeps(x: seq<Instr>, y: seq<Instr>) {
    && MarksOf(y) == MarksOf(x)
    && Locals(y) <= Locals(x)
    && (forall i <- y :: i.JMP? || i.MTHD_CALL? || IsFunctionVariable(i) ==> i in x)
    && (x == [] ==> y == [])
    && (x != [] && Last(x) == RTRN ==> y != [] && Last(y) == RTRN)
    && Flows(x, y)
  }

  ghost predicate Flows(x: seq<Instr>, y: seq<Instr>) {
    forall at: map<int, set<int>>, known: Written {:trigger WrittenFirst(x, at, known)} {:trigger WrittenFirst(y, at, known)} ::
      WrittenFirst(x, at, known) ==> WrittenFirst(y, at, known)
  }

  lemma KeepsTransitive(x: seq<Instr>, y: seq<Instr>, z: seq<Instr>)
    requires Keeps(x, y) && Keeps(y, z)
    ensures Keeps(x, z)
  {
    forall at: map<int, set<int>>, known: Written | WrittenFirst(x, at, known) ensures WrittenFirst(z, at, known) {
      assert WrittenFirst(y, at, known);
    }
  }

  lemma KeepsItself(x: seq<Instr>)
    ensures Keeps(x, x)
  {
  }

  lemma WrittenStep(i: Instr, rest: seq<Instr>, at: map<int, set<int>>, known: Written)
    ensures WrittenFirst([i] + rest, at, known) <==>
            Allowed(i, at, known) && WrittenFirst(rest, at, WrittenBehind(i, at, known))
  {
    assert ([i] + rest)[1..] == rest;
  }

  lemma MarksStep(i: Instr, rest: seq<Instr>)
    ensures MarksOf([i] + rest) == (if i.LBL? then [i.mark] else []) + MarksOf(rest)
    ensures Locals([i] + rest) == Named(i) + Locals(rest)
  {
    assert ([i] + rest)[1..] == rest;
  }

  lemma BehindInstr(i: Instr, x: seq<Instr>, y: seq<Instr>)
    requires Keeps(x, y)
    ensures Keeps([i] + x, [i] + y)
  {
    MarksStep(i, x);
    MarksStep(i, y);
    forall at: map<int, set<int>>, known: Written | WrittenFirst([i] + x, at, known) ensures WrittenFirst([i] + y, at, known) {
      WrittenStep(i, x, at, known);
      WrittenStep(i, y, at, known);
    }
    if x != [] { assert Last([i] + x) == Last(x); }
    if y != [] { assert Last([i] + y) == Last(y); }
  }

  lemma {:induction false} BehindCode(w: seq<Instr>, x: seq<Instr>, y: seq<Instr>)
    requires Keeps(x, y)
    ensures Keeps(w + x, w + y)
  {
    hide Keeps;
    if w == [] {
      assert w + x == x && w + y == y;
    } else {
      BehindCode(w[1..], x, y);
      BehindInstr(w[0], w[1..] + x, w[1..] + y);
      assert [w[0]] + (w[1..] + x) == w + x && [w[0]] + (w[1..] + y) == w + y;
    }
  }

  /** A flushed instruction: what is held back goes first, the rest follows. */
  lemma FlushKeeps(ws: seq<Instr>, rest: seq<Instr>, after: seq<Instr>)
    requires rest != [] && Keeps([] + rest[1..], after)
    ensures Keeps(ws + rest, ws + [rest[0]] + after)
  {
    hide Keeps;
    BehindCode(ws + [rest[0]], [] + rest[1..], after);
    assert ws + [rest[0]] + ([] + rest[1..]) == ws + rest;
  }

  // ----- Straight-line code -----

  predicate AllowedAll(code: seq<Instr>, known: set<int>) {
    code == [] || (Reads(code[0]) <= known && AllowedAll(code[1..], known + Writes(code[0])))
  }

  function WrittenBy(code: seq<Instr>): set<int> {
    if code == [] then {} else Writes(code[0]) + WrittenBy(code[1..])
  }

  lemma {:induction false} StraightFlow(x: seq<Instr>, rest: seq<Instr>, at: map<int, set<int>>, known: Written)
    requires Simple(x)
    ensures WrittenFirst(x + rest, at, known) <==>
            (known.Some? ==> AllowedAll(x, known.value)) &&
            WrittenFirst(rest, at, if known.None? then None else Some(known.value + WrittenBy(x)))
    ensures MarksOf(x + rest) == MarksOf(rest) && Locals(x + rest) == Locals(x) + Locals(rest)
  {
    if x == [] {
      assert x + rest == rest;
      if known.Some? { assert known.value + {} == known.value; }
    } else {
      var i := x[0];
      assert i in x && x + rest == [i] + (x[1..] + rest);
      WrittenStep(i, x[1..] + rest, at, known);
      MarksStep(i, x[1..] + rest);
      MarksStep(i, x[1..]);
      assert [i] + x[1..] == x;
      StraightFlow(x[1..], rest, at, WrittenBehind(i, at, known));
      if known.Some? { assert known.value + Writes(i) + WrittenBy(x[1..]) == known.value + WrittenBy(x); }
    }
  }

  /** y names and needs no local that x did not, and writes the same ones. */
  ghost predicate SameLocals(x: seq<Instr>, y: seq<Instr>) {
    && Simple(x) && Simple(y) && x != [] && Locals(y) <= Locals(x) && (forall i <- y :: !IsFunctionVariable(i))
    && forall known: set<int> {:trigger AllowedAll(y, known)} :: AllowedAll(x, known) ==>
         AllowedAll(y, known) && known + WrittenBy(y) == known + WrittenBy(x)
  }

  lemma LocalKeeps(x: seq<Instr>, y: seq<Instr>, rest: seq<Instr>)
    requires SameLocals(x, y)
    ensures Keeps(x + rest, y + rest)
  {
    forall at: map<int, set<int>>, known: Written | WrittenFirst(x + rest, at, known) ensures WrittenFirst(y + rest, at, known) {
      StraightFlow(x, rest, at, known);
      StraightFlow(y, rest, at, known);
      if known.Some? {
        assert AllowedAll(y, known.value) && known.value + WrittenBy(y) == known.value + WrittenBy(x);
      }
    }
    StraightFlow(x, rest, map[], None);
    StraightFlow(y, rest, map[], None);
    assert forall i <- y :: !IsControl(i);
    if rest == [] { assert x + rest == x && Last(x) in x; }
    else { assert Last(x + rest) == Last(rest) && Last(y + rest) == Last(rest); }
  }

  /** Rewriting the tail of what is held back together with the next instruction. */
  lemma HeldKeeps(w: seq<Instr>, tail: seq<Instr>, i: Instr, tail': seq<Instr>, rest: seq<Instr>, after: seq<Instr>)
    requires SameLocals(tail + [i], tail') && Keeps(w + tail' + rest, after)
    ensures Keeps(w + tail + ([i] + rest), after)
  {
    hide SameLocals, Keeps;
    LocalKeeps(tail + [i], tail', rest);
    BehindCode(w, tail + [i] + rest, tail' + rest);
    assert w + (tail + [i] + rest) == w + tail + ([i] + rest) && w + (tail' + rest) == w + tail' + rest;
    KeepsTransitive(w + tail + ([i] + rest), w + tail' + rest, after);
  }

  lemma HeldTwo(ws: seq<Instr>, rest: seq<Instr>, y: seq<Instr>, after: seq<Instr>)
    requires |ws| >= 2 && rest != [] && SameLocals([ws[|ws| - 2], ws[|ws| - 1]] + [rest[0]], y)
    requires Keeps(ws[..|ws| - 2] + y + rest[1..], after)
    ensures Keeps(ws + rest, after)
  {
    hide *;
    var w, tail := ws[..|ws| - 2], [ws[|ws| - 2], ws[|ws| - 1]];
    HeldKeeps(w, tail, rest[0], y, rest[1..], after);
    assert w + tail == ws && [rest[0]] + rest[1..] == rest;
  }

  // ----- The passes -----

  lemma JumpAway(i: Instr, rest: seq<Instr>)
    requires i.JMP?
    ensures Keeps([i] + ([LBL(i.target)] + rest), [LBL(i.target)] + rest)
  {
    var placed := [LBL(i.target)] + rest;
    MarksStep(i, placed);
    forall at: map<int, set<int>>, known: Written | WrittenFirst([i] + placed, at, known) ensures WrittenFirst(placed, at, known) {
      WrittenStep(i, placed, at, known);
      WrittenStep(LBL(i.target), rest, at, known);
      WrittenStep(LBL(i.target), rest, at, WrittenBehind(i, at, known));
    }
    assert Last([i] + placed) == Last(placed);
  }

  lemma {:induction false} CleanJumpsKeep(ws: seq<Instr>, rest: seq<Instr>)
    ensures Keeps(ws + rest, CleanJumps(ws, rest))
    decreases |rest|
  {
    hide Keeps;
    if rest == [] {
      assert ws + rest == ws;
      KeepsItself(ws);
      return;
    }
    var i := rest[0];
    MoveOver(ws, rest);
    if i.JMP? {
      CleanJumpsKeep(ws + [i], rest[1..]);
      return;
    }
    CleanJumpsKeep([], rest[1..]);
    var after := CleanJumps([], rest[1..]);
    FlushKeeps(ws, rest, after);
    if i.LBL? && ws != [] && Last(ws).JMP? && Last(ws).target == i.mark {
      var jump := Last(ws);
      JumpAway(jump, after);
      BehindCode(Front(ws), [jump] + ([i] + after), [i] + after);
      assert Front(ws) + ([jump] + ([i] + after)) == ws + [i] + after && Front(ws) + ([i] + after) == Front(ws) + [i] + after;
      KeepsTransitive(ws + rest, ws + [i] + after, Front(ws) + [i] + after);
    }
  }

  lemma UndoneKeeps(ws: seq<Instr>, rest: seq<Instr>, after: seq<Instr>)
    requires rest != [] && Undoes(ws, rest[0]) && Last(ws).ctx == LOCL && Keeps(Front(ws) + rest[1..], after)
    ensures Keeps(ws + rest, after)
  {
    var front, load, store, tail := Front(ws), Last(ws), rest[0], rest[1..];
    LoadStoreLocals(load, store);
    assert front + [load] == ws && [store] + tail == rest && front + [] + tail == front + tail;
    hide *;
    HeldKeeps(front, [load], store, [], tail, after);
  }

  lemma {:induction false} RemoveUselessKeeps(ws: seq<Instr>, rest: seq<Instr>)
    requires forall i <- ws :: i.LOAD_INT_VAR? && i.ctx == LOCL
    ensures Keeps(ws + rest, RemoveUselessFlushed(ws, rest))
    decreases |rest|
  {
    hide Keeps;
    if rest == [] {
      assert ws + rest == ws;
      KeepsItself(ws);
      return;
    }
    var i := rest[0];
    MoveOver(ws, rest);
    if i.LOAD_INT_VAR? && i.ctx == LOCL {
      RemoveUselessKeeps(ws + [i], rest[1..]);
    } else if Undoes(ws, i) {
      RemoveUselessKeeps(Front(ws), rest[1..]);
      UndoneKeeps(ws, rest, RemoveUselessFlushed(Front(ws), rest[1..]));
    } else {
      RemoveUselessKeeps([], rest[1..]);
      FlushKeeps(ws, rest, RemoveUselessFlushed([], rest[1..]));
    }
  }

  lemma LoadStoreLocals(load: Instr, store: Instr)
    requires load.LOAD_INT_VAR? && store.STOR_INT_VAR? && store.ctx == LOCL && load.slot == store.slot && load.ctx == LOCL
    ensures SameLocals([load] + [store], [])
  {
    assert [load] + [store] == [load, store] && [load, store][1..] == [store] && [store][1..] == [];
  }

  lemma {:induction false} InlineSettersGettersKeeps(p: Program, code: seq<Instr>)
    ensures Keeps(code, InlineSettersGetters(p, code))
  {
    hide Keeps;
    if code == [] { KeepsItself(code); return; }
    var i, after := code[0], InlineSettersGetters(p, code[1..]);
    InlineSettersGettersKeeps(p, code[1..]);
    BehindInstr(i, code[1..], after);
    assert [i] + code[1..] == code;
    if Inlinable(p, i) {
      AccessorKeeps(p[i.id], i, after);
      KeepsTransitive(code, [i] + after, AccessorBody(p[i.id]) + after);
    }
  }

  lemma AccessorKeeps(m: Method, i: Instr, rest: seq<Instr>)
    requires CanInlineSetterGetter(m) >= 0 && i.MTHD_CALL?
    ensures Keeps([i] + rest, AccessorBody(m) + rest)
  {
    hide CanInlineSetterGetter;
    var body := AccessorBody(m);
    AccessorLocals(m);
    hide AccessorBody;
    forall at: map<int, set<int>>, known: Written | WrittenFirst([i] + rest, at, known) ensures WrittenFirst(body + rest, at, known) {
      WrittenStep(i, rest, at, known);
      StraightFlow(body, rest, at, known);
      if known.Some? { assert known.value + {} == known.value; }
    }
    MarksStep(i, rest);
    StraightFlow(body, rest, map[], None);
    assert forall j <- body :: !IsControl(j) && !IsFunctionVariable(j);
    if rest != [] { assert Last([i] + rest) == Last(rest) && Last(body + rest) == Last(rest); }
  }

  /** An inlined accessor touches no local. */
  lemma AccessorLocals(m: Method)
    requires CanInlineSetterGetter(m) >= 0
    ensures WrittenBy(AccessorBody(m)) == {} && Locals(AccessorBody(m)) == {}
    ensures forall i <- AccessorBody(m) :: !IsFunctionVariable(i)
    ensures forall known: set<int> :: AllowedAll(AccessorBody(m), known)
  {
    var body := AccessorBody(m);
    assert forall i <- body :: Named(i) == {} && !IsFunctionVariable(i);
    forall known: set<int> ensures AllowedAll(body, known) { Untouching(body, known); }
    Untouching(body, {});
  }

  lemma WithinNamed(i: Instr)
    ensures Reads(i) <= Named(i) && Writes(i) <= Named(i)
  {
  }

  lemma {:induction false} Untouching(code: seq<Instr>, known: set<int>)
    requires forall i <- code :: Named(i) == {}
    ensures AllowedAll(code, known) && WrittenBy(code) == {} && Locals(code) == {}
  {
    if code != [] {
      assert code[0] in code;
      WithinNamed(code[0]);
      Untouching(code[1..], known + Writes(code[0]));
    }
  }

  lemma NoLocals(x: seq<Instr>, y: seq<Instr>)
    requires Simple(x) && Simple(y) && x != []
    requires forall i <- x + y :: Named(i) == {} && !IsFunctionVariable(i)
    ensures SameLocals(x, y)
  {
    assert forall i <- x :: i in x + y;
    assert forall i <- y :: i in x + y;
    forall known: set<int> ensures AllowedAll(y, known) && known + WrittenBy(y) == known + WrittenBy(x) {
      Untouching(x, known);
      Untouching(y, known);
    }
    Untouching(x, {});
    Untouching(y, {});
  }

  lemma {:induction false} FoldIntsKeeps(ws: seq<Instr>, rest: seq<Instr>)
    requires IntLits(ws) && FoldInts(ws, rest).Some?
    ensures Keeps(ws + rest, FoldInts(ws, rest).value)
    decreases |rest|
  {
    hide Keeps, SameLocals, EvalInt;
    if rest == [] {
      assert ws + rest == ws;
      KeepsItself(ws);
      return;
    }
    var i, n := rest[0], |ws|;
    MoveOver(ws, rest);
    if i.LOAD_INT_LIT? {
      FoldIntsKeeps(ws + [i], rest[1..]);
    } else if i.INT_OP? && Folds(i.op) && n >= 2 {
      var w, tail := ws[..n - 2], [ws[n - 2], ws[n - 1]];
      var v := LOAD_INT_LIT(EvalInt(i.op, ws[n - 1].value, ws[n - 2].value).value);
      FoldIntsKeeps(w + [v], rest[1..]);
      NoLocals(tail + [i], [v]);
      HeldTwo(ws, rest, [v], FoldInts(w + [v], rest[1..]).value);
    } else {
      FoldIntsKeeps([], rest[1..]);
      FlushKeeps(ws, rest, FoldInts([], rest[1..]).value);
    }
  }

  lemma {:induction false} FoldFloatsKeeps(h: Host, ws: seq<Instr>, rest: seq<Instr>)
    requires FloatLits(ws)
    ensures Keeps(ws + rest, FoldFloats(h, ws, rest))
    decreases |rest|
  {
    hide Keeps, SameLocals;
    if rest == [] {
      assert ws + rest == ws;
      KeepsItself(ws);
      return;
    }
    var i, n := rest[0], |ws|;
    MoveOver(ws, rest);
    if i.LOAD_FLOAT_LIT? {
      FoldFloatsKeeps(h, ws + [i], rest[1..]);
    } else if i.FLOAT_OP? && n >= 2 {
      var w, tail := ws[..n - 2], [ws[n - 2], ws[n - 1]];
      var v := LOAD_FLOAT_LIT(h.floatOp(i.fop, ws[n - 1].double, ws[n - 2].double));
      FoldFloatsKeeps(h, w + [v], rest[1..]);
      NoLocals(tail + [i], [v]);
      HeldTwo(ws, rest, [v], FoldFloats(h, w + [v], rest[1..]));
    } else {
      FoldFloatsKeeps(h, [], rest[1..]);
      FlushKeeps(ws, rest, FoldFloats(h, [], rest[1..]));
    }
  }

  lemma ShiftedLocals(a: Instr, b: Instr, k: nat, load: Instr, scale: Instr)
    requires Scales(scale) && load.LOAD_INT_VAR?
    requires (a.LOAD_INT_LIT? && b == load) || (a == load && b.LOAD_INT_LIT?)
    ensures SameLocals([a, b] + [scale], Shifted(k, load, scale))
  {
    var x, y := [a, b] + [scale], Shifted(k, load, scale);
    assert x[0] == a && x[1] == b && x[2] == scale && y[1] == load;
    SameLoad(x, y, load);
  }

  lemma SameLoad(x: seq<Instr>, y: seq<Instr>, load: Instr)
    requires load.LOAD_INT_VAR? && Simple(x) && Simple(y) && load in x && load in y
    requires forall i <- x :: i == load || Named(i) == {}
    requires forall i <- y :: i == load || (Named(i) == {} && !IsFunctionVariable(i))
    ensures SameLocals(x, y)
  {
    forall known: set<int> | AllowedAll(x, known) ensures AllowedAll(y, known) && known + WrittenBy(y) == known + WrittenBy(x) {
      LoadsOnly(x, load, known);
      LoadsOnly(y, load, known);
    }
    LoadsOnly(x, load, {});
    LoadsOnly(y, load, {});
  }

  lemma {:induction false} LoadsOnly(x: seq<Instr>, load: Instr, known: set<int>)
    requires load.LOAD_INT_VAR? && forall i <- x :: i == load || Named(i) == {}
    ensures WrittenBy(x) == {} && Locals(x) == (if load in x then Named(load) else {})
    ensures AllowedAll(x, known) <==> (load in x ==> Reads(load) <= known)
  {
    if x != [] {
      assert x[0] in x;
      WithinNamed(x[0]);
      assert known + Writes(x[0]) == known;
      LoadsOnly(x[1..], load, known);
    }
  }

  lemma {:induction false} ReduceStrengthKeeps(ws: seq<Instr>, rest: seq<Instr>)
    requires LitsAndVars(ws)
    ensures Keeps(ws + rest, ReduceStrength(ws, rest))
    decreases |rest|
  {
    hide Keeps, SameLocals;
    if rest == [] {
      assert ws + rest == ws;
      KeepsItself(ws);
      return;
    }
    var i, n := rest[0], |ws|;
    MoveOver(ws, rest);
    if i.LOAD_INT_LIT? || i.LOAD_INT_VAR? {
      ReduceStrengthKeeps(ws + [i], rest[1..]);
    } else if Scales(i) && Reduction(ws).Some? {
      var (k, load) := Reduction(ws).value;
      var w, after := ws[..n - 2], ReduceStrength([], rest[1..]);
      ReduceStrengthKeeps([], rest[1..]);
      ShiftedLocals(ws[n - 2], ws[n - 1], k, load, i);
      BehindCode(w + Shifted(k, load, i), [] + rest[1..], after);
      assert w + Shifted(k, load, i) + ([] + rest[1..]) == w + Shifted(k, load, i) + rest[1..];
      HeldTwo(ws, rest, Shifted(k, load, i), w + Shifted(k, load, i) + after);
    } else {
      ReduceStrengthKeeps([], rest[1..]);
      FlushKeeps(ws, rest, ReduceStrength([], rest[1..]));
    }
  }

  lemma OneLocal(i: Instr)
    ensures WrittenBy([i]) == Writes(i) && Locals([i]) == Named(i) && forall known: set<int> :: AllowedAll([i], known) <==> Reads(i) <= known
  {
    assert [i][1..] == [];
  }

  lemma CopyLocals(store: Instr, load: Instr)
    requires CopyFor(store, load).Some?
    ensures SameLocals([store] + [load], [CopyFor(store, load).value])
  {
    var copy := CopyFor(store, load).value;
    assert [store] + [load] == [store, load] && [store, load][1..] == [load];
    assert Writes(copy) == Writes(store) && Reads(copy) == {} == Writes(load);
    OneLocal(copy);
    OneLocal(load);
    assert WrittenBy([store, load]) == Writes(store) && Locals([store, load]) == Named(store) + Named(load);
  }

  lemma CopiedKeeps(ws: seq<Instr>, rest: seq<Instr>, after: seq<Instr>)
    requires |ws| == 1 && rest != [] && CopyFor(Last(ws), rest[0]).Some? && Keeps([] + rest[1..], after)
    ensures Front(ws) == [] && Keeps(ws + rest, [CopyFor(Last(ws), rest[0]).value] + after)
  {
    var store, load, tail, copy := ws[0], rest[0], rest[1..], CopyFor(ws[0], rest[0]).value;
    CopyLocals(store, load);
    assert ws == [store] && rest == [load] + tail;
    CopiedHeld(store, load, copy, tail, after);
  }

  lemma CopiedHeld(store: Instr, load: Instr, copy: Instr, rest: seq<Instr>, after: seq<Instr>)
    requires SameLocals([store] + [load], [copy]) && Keeps([] + rest, after)
    ensures Keeps([store] + ([load] + rest), [copy] + after)
  {
    hide *;
    assert [] + rest == rest && [] + [store] == [store] && [] + [copy] + rest == [copy] + rest;
    BehindInstr(copy, rest, after);
    HeldKeeps([], [store], load, [copy], rest, [copy] + after);
  }

  lemma {:induction false} ReplaceStoresKeeps(ws: seq<Instr>, rest: seq<Instr>)
    requires |ws| <= 1 && (forall i <- ws :: Stores(i)) && CopiesCleanly(ws + rest)
    ensures Keeps(ws + rest, ReplaceStores(ws, rest))
    decreases |rest|
  {
    hide Keeps, SameLocals;
    if rest == [] {
      assert ws + rest == ws;
      KeepsItself(ws);
      return;
    }
    var i := rest[0];
    MoveOver(ws, rest);
    CopiesCleanlyTail(ws + rest, |ws| + 1);
    Meets(ws, rest);
    hide CopiesCleanly, CopyFor, Stores;
    if ws != [] && CopyFor(Last(ws), i).Some? {
      ReplaceStoresKeeps([], rest[1..]);
      CopiedKeeps(ws, rest, ReplaceStores([], rest[1..]));
    } else if Stores(i) && !(ws != [] && Last(ws).STOR_INT_VAR?) {
      assert ws == [] && ws + [i] == [i];
      ReplaceStoresKeeps(ws + [i], rest[1..]);
    } else {
      ReplaceStoresKeeps([], rest[1..]);
      FlushKeeps(ws, rest, ReplaceStores([], rest[1..]));
    }
  }

  // ----- All of them -----

  lemma CleanedKeeps(code: seq<Instr>)
    requires EndsFlushed(code)
    ensures Keeps(code, Cleaned(code))
  {
    hide Keeps;
    var jumps := CleanJumps([], code);
    assert [] + code == code && [] + jumps == jumps;
    CleanJumpsKeep([], code);
    RemoveUselessKeeps([], jumps);
    MissingFlush([], jumps);
    CleanJumpsKeeps([], code);
    if code != [] { EndFlushes([], jumps); }
    assert RemoveUseless([], jumps) + [] == Cleaned(code);
    KeepsTransitive(code, jumps, Cleaned(code));
  }

  lemma FoldedKeeps(h: Host, p: Program, code: seq<Instr>)
    requires EndsFlushed(code) && Folded(h, p, code).Some?
    ensures Keeps(code, Folded(h, p, code).value)
  {
    hide Keeps, EndsFlushed;
    var clean := Cleaned(code);
    var accessors := InlineSettersGetters(p, clean);
    var ints := FoldInts([], accessors).value;
    CleanedKeeps(code);
    InlineSettersGettersKeeps(p, clean);
    assert [] + accessors == accessors && [] + ints == ints;
    FoldIntsKeeps([], accessors);
    FoldFloatsKeeps(h, [], ints);
    KeepsTransitive(code, clean, accessors);
    KeepsTransitive(code, accessors, ints);
    KeepsTransitive(code, ints, Folded(h, p, code).value);
  }

  lemma SplitKeeps(code: seq<Instr>, n: nat, after: seq<Instr>)
    requires n <= |code| && Keeps(code[n..], after)
    ensures Keeps(code, code[..n] + after)
  {
    hide *;
    BehindCode(code[..n], code[n..], after);
    assert code[..n] + code[n..] == code;
  }

  lemma ReplacedKeeps(code: seq<Instr>)
    requires CopiesCleanly(code[PrologueLength(code)..])
    ensures Keeps(code, ReplaceInstructions(code))
  {
    var n := PrologueLength(code);
    hide Keeps, ReplaceStores, PrologueLength, CopiesCleanly;
    var tail := code[n..];
    assert [] + tail == tail;
    ReplaceStoresKeeps([], tail);
    SplitKeeps(code, n, ReplaceStores([], tail));
  }

  /** Optimizing a block keeps its labels, jumps, calls and return, and writes every local before it is read. */
  lemma OptimizeBlockKeeps(h: Host, p: Program, level: int, code: seq<Instr>)
    requires BlockReady(h, p, level, code) && OptimizeBlock(h, p, level, code).Some?
    ensures Keeps(code, OptimizeBlock(h, p, level, code).value)
  {
    if level <= 0 { CleanedKeeps(code); return; }
    FoldedKeeps(h, p, code);
    if level == 1 { return; }
    var folded := Folded(h, p, code).value;
    var reduced := ReduceStrength([], folded);
    assert [] + folded == folded;
    hide Keeps, Folded;
    ReduceStrengthKeeps([], folded);
    KeepsTransitive(code, folded, reduced);
    if level > 2 {
      ReplacedKeeps(reduced);
      KeepsTransitive(code, reduced, ReplaceInstructions(reduced));
    }
  }
}
