// Strength reduction where it is not always right: what it makes of divisions, on which machines the
// shift is the quotient, and that a run which meets only such machines is not changed.

module Quotients {
  import opened Wrappers
  import opened Words
  import opened Bytecode
  import opened Simulation
  import opened Passes

  // ----- Division and shift of words -----

  predicate IsWord(v: int) {
    INT_MIN <= v <= -INT_MIN - 1
  }

  lemma PowersOfTwo(k: nat)
    requires 0 < k <= 8
    ensures Pow2(k) == [2, 4, 8, 16, 32, 64, 128, 256][k - 1]
    ensures Pow2(k) == 2 * Pow2(k - 1)
  {
    assert Pow2(0) == 1 && Pow2(1) == 2 && Pow2(2) == 4 && Pow2(3) == 8 && Pow2(4) == 16;
    assert Pow2(5) == 32 && Pow2(6) == 64 && Pow2(7) == 128 && Pow2(8) == 256;
  }

  lemma TimesAtLeast(a: int, b: int, c: int)
    requires a >= b && c >= 0
    ensures a * c >= b * c
  {
  }

  lemma QuotientUnique(a: int, n: int, q: int)
    requires n > 0 && q * n <= a < q * n + n
    ensures a / n == q
  {
    var q', r' := a / n, a % n;
    assert a == q' * n + r' && 0 <= r' < n;
    if q > q' { TimesAtLeast(q, q' + 1, n); }
    if q < q' { TimesAtLeast(q', q + 1, n); }
  }

  /** The quotient of n by u, as far as the comparisons below need it. */
  lemma QuotientOf(n: int, u: int)
    requires n >= 0 && u > 0
    ensures 0 <= n / u <= n
    ensures n / u == 0 <==> n < u
    ensures n / u == 1 <==> u <= n < 2 * u
  {
    var q, r := n / u, n % u;
    assert n == q * u + r && 0 <= r < u;
    if q < 0 { TimesAtLeast(-1, q, u); }
    if q >= 1 { TimesAtLeast(q, 1, u); }
    if q >= 2 { TimesAtLeast(q, 2, u); }
    if q > n { TimesAtLeast(u, 1, q); }
  }

  /** Rounding down and truncating agree exactly on these dividends. */
  lemma FloorAndTrunc(v: int, n: int)
    requires n > 0
    ensures v < 0 ==> v / n == -(-v / n) - (if v % n == 0 then 0 else 1)
    ensures v / n == TruncDiv(v, n) <==> v >= 0 || v % n == 0
  {
    if v < 0 {
      var q, r := v / n, v % n;
      assert v == q * n + r && 0 <= r < n;
      var p := if r == 0 then -q else -q - 1;
      assert p * n <= -v < p * n + n by {
        if r != 0 { assert p * n == -q * n - n; }
      }
      QuotientUnique(-v, n, p);
    }
  }

  /** x / 2^k becomes a right shift; that is the truncated quotient exactly when x is not
      negative or 2^k divides it. */
  lemma QuotientShiftExact(k: nat, v: int)
    requires 0 < k <= 8 && IsWord(v)
    ensures EvalInt(Div, v, Pow2(k)) == EvalInt(Shr, v, k) <==> v >= 0 || v % Pow2(k) == 0
  {
    PowersOfTwo(k);
    FloorAndTrunc(v, Pow2(k));
    QuotientOf(if v >= 0 then v else -v, Pow2(k));
    hide Pow2, TruncDiv;
  }

  /** 2^k / x becomes the same right shift of x; that is the quotient for one positive divisor and
      a band of negative ones only. */
  lemma LiteralQuotientShiftExact(k: nat, v: int)
    requires 0 < k <= 8 && IsWord(v)
    ensures EvalInt(Div, Pow2(k), v) == EvalInt(Shr, v, k) <==>
      v == Pow2(k) || (-Pow2(k) <= v && 2 * v < -Pow2(k))
  {
    PowersOfTwo(k);
    var n, u := Pow2(k), if v >= 0 then v else -v;
    QuotientOf(u, n);
    FloorAndTrunc(v, n);
    if v == 0 { return; }
    QuotientOf(n, u);
    if v < 0 { NegativeDivisor(n, u); }
    hide Pow2, Bits;
    assert TruncDiv(n, v) == if v > 0 then n / u else -(n / u);
    hide TruncDiv;
  }

  lemma NegativeDivisor(n: int, u: int)
    requires n > 0 && u > 0
    ensures -(n / u) == -u / n <==> u <= n < 2 * u
  {
    QuotientOf(n, u);
    QuotientOf(u, n);
    FloorAndTrunc(-u, n);
    if u <= n { QuotientUnique(-u, n, -1); }
  }

  // ----- One division -----

  function Operands(k: nat, load: Instr, literalFirst: bool): seq<Instr> {
    var lit := LOAD_INT_LIT(Pow2(k));
    if literalFirst then [lit, load] else [load, lit]
  }

  lemma Operated(a: Instr, b: Instr, op: Instr)
    ensures [a, b] + [op] == [a, b, op] && [a, b, op][1..] == [b, op] && [b, op][1..] == [op] && [op][1..] == []
    ensures [] + [a] == [a] && [a] + [b] == [a, b]
  {
  }

  /** The pass turns a division into a right shift of the variable, whichever operand is the literal. */
  lemma ReducedQuotient(k: nat, load: Instr, literalFirst: bool)
    requires 0 < k <= 8 && load.LOAD_INT_VAR?
    ensures ReduceStrength([], Operands(k, load, literalFirst) + [INT_OP(Div)]) == Shifted(k, load, INT_OP(Div))
  {
    PowersOfTwo(k);
    var ops, div := Operands(k, load, literalFirst), INT_OP(Div);
    var a, b := ops[0], ops[1];
    Operated(a, b, div);
    assert ShiftFor(Pow2(k)) == k;
    assert Reduction([a, b]) == Some((k, load));
    assert ReduceStrength([a, b], [div]) == [a, b][..0] + Shifted(k, load, div) + [];
  }

  lemma LoadsLocal(h: Host, slot: int, m: Machine)
    requires InFrame(m, slot, 1)
    ensures Step(h, LOAD_INT_VAR(slot, LOCL), m) == Some(m.(stack := [m.locals[slot]] + m.stack))
  {
  }

  /** Variable over literal: the block with the shift runs as the block with the division exactly when the
      dividend is not negative or a multiple of the literal. */
  lemma QuotientExact(h: Host, k: nat, slot: int, m: Machine)
    requires 0 < k <= 8 && InFrame(m, slot, 1) && IsWord(m.locals[slot])
    ensures var load, v := LOAD_INT_VAR(slot, LOCL), m.locals[slot];
      var code := Operands(k, load, true) + [INT_OP(Div)];
      && Simple(code) && Simple(ReduceStrength([], code))
      && (Straight(h, ReduceStrength([], code), m) == Straight(h, code, m) <==> v >= 0 || v % Pow2(k) == 0)
  {
    var load, lit, v := LOAD_INT_VAR(slot, LOCL), LOAD_INT_LIT(Pow2(k)), m.locals[slot];
    ReducedQuotient(k, load, true);
    QuotientShiftExact(k, v);
    LoadsLocal(h, slot, m.(stack := [Pow2(k)] + m.stack));
    LoadsLocal(h, slot, m.(stack := [k] + m.stack));
    hide EvalInt, ReduceStrength;
    Operated(lit, load, INT_OP(Div));
    ThreeOperands(h, lit, load, Div, m, Pow2(k), v);
    ThreeOperands(h, LOAD_INT_LIT(k), load, Shr, m, k, v);
    SameTop(m, EvalInt(Div, v, Pow2(k)), EvalInt(Shr, v, k));
  }

  /** Literal over variable: exactly for the literal itself and a band of negative divisors. */
  lemma LiteralQuotientExact(h: Host, k: nat, slot: int, m: Machine)
    requires 0 < k <= 8 && InFrame(m, slot, 1) && IsWord(m.locals[slot])
    ensures var load, v := LOAD_INT_VAR(slot, LOCL), m.locals[slot];
      var code := Operands(k, load, false) + [INT_OP(Div)];
      && Simple(code) && Simple(ReduceStrength([], code))
      && (Straight(h, ReduceStrength([], code), m) == Straight(h, code, m) <==>
            v == Pow2(k) || (-Pow2(k) <= v && 2 * v < -Pow2(k)))
  {
    var load, lit, v := LOAD_INT_VAR(slot, LOCL), LOAD_INT_LIT(Pow2(k)), m.locals[slot];
    ReducedQuotient(k, load, false);
    LiteralQuotientShiftExact(k, v);
    LoadsLocal(h, slot, m);
    LoadsLocal(h, slot, m.(stack := [k] + m.stack));
    hide EvalInt, ReduceStrength;
    Operated(load, lit, INT_OP(Div));
    ThreeOperands(h, load, lit, Div, m, v, Pow2(k));
    ThreeOperands(h, LOAD_INT_LIT(k), load, Shr, m, k, v);
    SameTop(m, EvalInt(Div, Pow2(k), v), EvalInt(Shr, v, k));
  }

  lemma SameTop(m: Machine, v: Option<int>, w: Option<int>)
    ensures ((if v.None? then None else Some(m.(stack := [v.value] + m.stack))) ==
             (if w.None? then None else Some(m.(stack := [w.value] + m.stack)))) <==> v == w
  {
    if v.Some? && w.Some? {
      assert ([v.value] + m.stack)[0] == v.value && ([w.value] + m.stack)[0] == w.value;
    }
  }

  // ----- Runs that meet divisions -----

  /** The next three instructions are a product or quotient that the pass rewrites. */
  predicate ScalesNext(rest: seq<Instr>) {
    && |rest| >= 3 && Scales(rest[2]) && LitsAndVars(rest[..2]) && Reduction(rest[..2]).Some?
  }

  function Scaled(rest: seq<Instr>): seq<Instr>
    requires ScalesNext(rest)
  {
    var r := Reduction(rest[..2]).value;
    Shifted(r.0, r.1, rest[2])
  }

  /** The rewritten three instructions do to this machine what the original ones do. */
  ghost predicate ScaledWell(h: Host, rest: seq<Instr>, m: Machine) {
    ScalesNext(rest) ==>
      && Simple(rest[..3]) && Simple(Scaled(rest)) && Straight(h, rest[..3], m) == Straight(h, Scaled(rest), m)
  }

  /** Wherever the run comes to a product or quotient that the pass rewrites, the rewriting is right there. */
  ghost predicate MeetsGood(a: Activation, rest: seq<Instr>, m: Machine, fuel: nat)
    decreases fuel, |rest|
  {
    rest != [] ==>
      && ScaledWell(a.host, rest, m)
      && if rest[0].MTHD_CALL? then
           a.depth > 0 ==>
             var r := Call(a.host, a.program, rest[0].id, m, fuel, a.depth - 1);
             r.Done? && r.fuel <= fuel ==> MeetsGood(a, rest[1..], r.m, r.fuel)
         else
           var move := Advance(a.host, a.code, rest, m, fuel);
           move.Goto? ==> MeetsGood(a, move.rest, move.m, move.fuel)
  }

  lemma {:induction false} GoodAfter(a: Activation, x: seq<Instr>, rest: seq<Instr>, m: Machine, fuel: nat)
    requires Simple(x) && MeetsGood(a, x + rest, m, fuel) && Straight(a.host, x, m).Some?
    ensures MeetsGood(a, rest, Straight(a.host, x, m).value, fuel)
  {
    if x == [] {
      assert x + rest == rest;
    } else {
      assert (x + rest)[0] == x[0] && (x + rest)[1..] == x[1..] + rest && x[0] in x;
      AdvanceSimple(a.host, a.code, x + rest, m, fuel);
      hide Advance, ScaledWell;
      GoodAfter(a, x[1..], rest, Step(a.host, x[0], m).value, fuel);
    }
  }

  lemma AdvanceSimple(h: Host, code: seq<Instr>, rest: seq<Instr>, m: Machine, fuel: nat)
    requires rest != [] && !IsControl(rest[0])
    ensures Advance(h, code, rest, m, fuel) ==
      (var s := Step(h, rest[0], m); if s.None? then Halt(Fault) else Goto(rest[1..], s.value, fuel))
  {
  }

  /** The pass as chunks: everything is copied but the products and quotients it rewrites. */
  ghost predicate ScalingChunk(c: Chunk) {
    c.Keep? || (c.Risky? && |c.x| == 3 && ScalesNext(c.x) && c.y == Scaled(c.x))
  }

  lemma {:induction false} ScalingChunks(h: Host, p: Program, ws: seq<Instr>, rest: seq<Instr>) returns (cs: seq<Chunk>)
    requires LitsAndVars(ws)
    ensures AllSound(h, p, cs) && forall c <- cs :: ScalingChunk(c)
    ensures Code(cs, false) == ws + rest && Code(cs, true) == ReduceStrength(ws, rest)
    decreases |rest|
  {
    if rest == [] {
      cs := KeepAll(ws);
      KeepAllCode(ws, false);
      KeepAllCode(ws, true);
      assert ws + rest == ws;
      return;
    }
    var i, n := rest[0], |ws|;
    MoveOver(ws, rest);
    if i.LOAD_INT_LIT? || i.LOAD_INT_VAR? {
      cs := ScalingChunks(h, p, ws + [i], rest[1..]);
      return;
    }
    var ds := ScalingChunks(h, p, [], rest[1..]);
    if Scales(i) && Reduction(ws).Some? {
      var mid := RiskyChunk(h, p, ws, i);
      RiskyParts(ws, rest);
      hide ScalingChunk, Sound, Shifted, Reduction, LitsAndVars;
      cs := Assemble(h, p, ws[..n - 2], mid, ds);
    } else {
      hide Reduction, LitsAndVars, SameEffect, Call, Straight;
      cs := Assemble(h, p, ws, Keep(i), ds);
    }
  }

  lemma RiskyParts(ws: seq<Instr>, rest: seq<Instr>)
    requires |ws| >= 2 && rest != []
    ensures ws + rest == ws[..|ws| - 2] + (ws[|ws| - 2..] + [rest[0]]) + ([] + rest[1..])
  {
  }

  lemma RiskyChunk(h: Host, p: Program, ws: seq<Instr>, i: Instr) returns (c: Chunk)
    requires LitsAndVars(ws) && Reduction(ws).Some? && Scales(i)
    ensures Sound(h, p, c) && ScalingChunk(c)
    ensures Side(c, false) == ws[|ws| - 2..] + [i]
    ensures Side(c, true) == Shifted(Reduction(ws).value.0, Reduction(ws).value.1, i)
  {
    ScaledTop(ws, i);
    c := Risky(ws[|ws| - 2..] + [i], Shifted(Reduction(ws).value.0, Reduction(ws).value.1, i));
  }

  lemma ScaledTop(ws: seq<Instr>, i: Instr)
    requires LitsAndVars(ws) && Reduction(ws).Some? && Scales(i)
    ensures var x := ws[|ws| - 2..] + [i];
      && |x| == 3 && ScalesNext(x) && Simple(x)
      && Scaled(x) == Shifted(Reduction(ws).value.0, Reduction(ws).value.1, i) && Simple(Scaled(x))
  {
    var x := ws[|ws| - 2..] + [i];
    assert x[..2] == ws[|ws| - 2..] && x[2] == i;
    assert x[0] in ws && x[1] in ws;
    assert x[..2] == [ws[|ws| - 2], ws[|ws| - 1]];
    assert Reduction(x[..2]) == Reduction(ws);
  }

  /** Activations of a block and of the reduced block, made of the chunks cs. */
  ghost predicate ScaledSides(a: Activation, b: Activation, cs: seq<Chunk>) {
    && AllSound(a.host, a.program, cs) && (forall c <- cs :: ScalingChunk(c))
    && a.code == Code(cs, false) && b == a.(code := Code(cs, true))
  }

  /** Both runs go on at chunk to with the same machine, or both have ended alike. */
  ghost predicate BothOnward(a: Activation, b: Activation, cs: seq<Chunk>, pos: nat, m: Machine, fuel: nat, next: Option<Hop>)
    requires pos <= |cs|
  {
    var r, s := Run(a, Code(cs[pos..], false), m, fuel), Run(b, Code(cs[pos..], true), m, fuel);
    if next.None? || next.value.Stop? then r == s
    else
      var To(k, m', f) := next.value;
      && k <= |cs| && (f < fuel || (f == fuel && pos < k))
      && r == Run(a, Code(cs[k..], false), m', f) && s == Run(b, Code(cs[k..], true), m', f)
      && MeetsGood(a, Code(cs[k..], false), m', f)
  }

  lemma ScaledChunk(a: Activation, b: Activation, cs: seq<Chunk>, pos: nat, m: Machine, fuel: nat) returns (next: Option<Hop>)
    requires ScaledSides(a, b, cs) && pos < |cs| && cs[pos].Risky? && MeetsGood(a, Code(cs[pos..], false), m, fuel)
    ensures BothOnward(a, b, cs, pos, m, fuel, next)
  {
    var c := cs[pos];
    assert c in cs && ScalingChunk(c) && Sound(a.host, a.program, c);
    CodeAt(cs, pos, false);
    CodeAt(cs, pos, true);
    var x, rest, rest' := c.x, Code(cs[pos + 1..], false), Code(cs[pos + 1..], true);
    assert (x + rest)[..3] == x && (x + rest)[..2] == x[..2] && (x + rest)[2] == x[2];
    assert ScaledWell(a.host, x + rest, m);
    hide ScaledSides, Code;
    RunStraight(a, x, rest, m, fuel);
    RunStraight(b, c.y, rest', m, fuel);
    var s := Straight(a.host, x, m);
    if s.None? { return None; }
    GoodAfter(a, x, rest, m, fuel);
    return Some(To(pos + 1, s.value, fuel));
  }

  lemma ScaledCall(a: Activation, b: Activation, cs: seq<Chunk>, pos: nat, m: Machine, fuel: nat) returns (next: Option<Hop>)
    requires ScaledSides(a, b, cs) && pos < |cs| && cs[pos].Keep? && cs[pos].i.MTHD_CALL?
    requires MeetsGood(a, Code(cs[pos..], false), m, fuel)
    ensures BothOnward(a, b, cs, pos, m, fuel, next)
  {
    hide Code, Run, Call, Callee, ScaledWell, AllSound;
    CodeAt(cs, pos, false);
    CodeAt(cs, pos, true);
    var rest, rest' := Code(cs[pos..], false), Code(cs[pos..], true);
    assert rest[1..] == Code(cs[pos + 1..], false) && rest'[1..] == Code(cs[pos + 1..], true);
    RunCall(a, rest, m, fuel);
    RunCall(b, rest', m, fuel);
    if a.depth == 0 { return None; }
    var r := Call(a.host, a.program, cs[pos].i.id, m, fuel, a.depth - 1);
    return if r.Done? then Some(To(pos + 1, r.m, r.fuel)) else None;
  }

  lemma ScaledMove(a: Activation, b: Activation, cs: seq<Chunk>, pos: nat, m: Machine, fuel: nat) returns (next: Option<Hop>)
    requires ScaledSides(a, b, cs) && pos < |cs| && cs[pos].Keep? && !cs[pos].i.MTHD_CALL?
    requires MeetsGood(a, Code(cs[pos..], false), m, fuel)
    ensures BothOnward(a, b, cs, pos, m, fuel, next)
  {
    forall l ensures Clear(cs, l) {}
    MoveOnSide(a.host, a.program, cs, false, pos, m, fuel);
    MoveOnSide(a.host, a.program, cs, true, pos, m, fuel);
    hide Code, Advance, ChunkMove, ScaledWell, AllSound;
    next := Some(ChunkMove(a.host, cs, pos, m, fuel));
  }

  /** A run that meets only good products and quotients is the run of the reduced block. */
  lemma {:induction false} ScalingSimulates(a: Activation, b: Activation, cs: seq<Chunk>, pos: nat, m: Machine, fuel: nat)
    requires ScaledSides(a, b, cs) && pos <= |cs| && MeetsGood(a, Code(cs[pos..], false), m, fuel)
    ensures Run(b, Code(cs[pos..], true), m, fuel) == Run(a, Code(cs[pos..], false), m, fuel)
    decreases fuel, |cs| - pos
  {
    if pos == |cs| { return; }
    assert cs[pos] in cs && (ScaledSides(a, b, cs) ==> ScalingChunk(cs[pos]));
    hide Run, Code, MeetsGood, ScaledSides;
    var next;
    if cs[pos].Risky? { next := ScaledChunk(a, b, cs, pos, m, fuel); }
    else if cs[pos].i.MTHD_CALL? { next := ScaledCall(a, b, cs, pos, m, fuel); }
    else { next := ScaledMove(a, b, cs, pos, m, fuel); }
    if next.Some? && next.value.To? { ScalingSimulates(a, b, cs, next.value.pos, next.value.m, next.value.fuel); }
  }

  /** Strength reduction of any block at all: a run whose every reduced product and quotient is one the
      shift computes is not changed, calls, jumps and faults included. */
  lemma ReducedRuns(h: Host, p: Program, code: seq<Instr>, m: Machine, fuel: nat, d: nat)
    requires MeetsGood(Activation(h, p, code, d), code, m, fuel)
    ensures RunBody(h, p, ReduceStrength([], code), m, fuel, d) == RunBody(h, p, code, m, fuel, d)
  {
    var cs := ScalingChunks(h, p, [], code);
    assert [] + code == code && cs[0..] == cs;
    ScalingSimulates(Activation(h, p, code, d), Activation(h, p, ReduceStrength([], code), d), cs, 0, m, fuel);
  }

  // ----- When the rewriting is right -----

  /** The operand of the next rewritten product or quotient is one the shift computes. */
  predicate GoodOperand(rest: seq<Instr>, v: int)
    requires ScalesNext(rest)
  {
    var n := Pow2(Reduction(rest[..2]).value.0);
    if rest[2] == INT_OP(Mul) then true
    else if rest[0].LOAD_INT_LIT? then v >= 0 || v % n == 0
    else v == n || (-n <= v && 2 * v < -n)
  }

  /** For locals: the rewriting is right on a machine exactly when the variable holds a good operand. */
  lemma ScaledWellExact(h: Host, rest: seq<Instr>, m: Machine)
    requires ScalesNext(rest) && Sized(m)
    requires var load := Reduction(rest[..2]).value.1; load.ctx == LOCL && InFrame(m, load.slot, 1) && IsWord(m.locals[load.slot])
    ensures ScaledWell(h, rest, m) <==> GoodOperand(rest, m.locals[Reduction(rest[..2]).value.1.slot])
  {
    var (k, load) := Reduction(rest[..2]).value;
    var x, y, op := rest[0], rest[1], rest[2];
    ReducedOperands(rest);
    assert rest[..3] == [x, y] + [op] == [x, y, op];
    if op == INT_OP(Mul) {
      ProductToShift(h, k, load.slot);
    } else if x.LOAD_INT_LIT? {
      ReducedQuotient(k, load, true);
      QuotientExact(h, k, load.slot, m);
    } else {
      ReducedQuotient(k, load, false);
      LiteralQuotientExact(h, k, load.slot, m);
    }
  }

  lemma ReducedOperands(rest: seq<Instr>)
    requires ScalesNext(rest)
    ensures var r := Reduction(rest[..2]).value;
      && rest[..2] == [rest[0], rest[1]] && (rest[2] == INT_OP(Mul) || rest[2] == INT_OP(Div))
      && [rest[0], rest[1]] == Operands(r.0, r.1, rest[0].LOAD_INT_LIT?)
      && Scaled(rest) == Shifted(r.0, r.1, rest[2])
  {
  }

  /** Every run of the block meets good products and quotients only. */
  ghost predicate ReducesSafely(h: Host, p: Program, code: seq<Instr>) {
    forall m: Machine, fuel: nat, d: nat {:trigger RunBody(h, p, code, m, fuel, d)} :: Sized(m) ==>
      MeetsGood(Activation(h, p, code, d), code, m, fuel)
  }

  lemma ReducedRefines(h: Host, p: Program, code: seq<Instr>)
    requires ReducesSafely(h, p, code)
    ensures Refines(h, p, code, ReduceStrength([], code), 0)
  {
    var after := ReduceStrength([], code);
    forall m: Machine, fuel: nat, d: nat, d': nat | Sized(m)
      ensures d <= d' && !RunBody(h, p, code, m, fuel, d).Timeout? ==>
        RunBody(h, p, after, m, fuel, d') == RunBody(h, p, code, m, fuel, d)
      ensures d' <= d && !RunBody(h, p, after, m, fuel, d').Timeout? ==>
        RunBody(h, p, code, m, fuel, d) == RunBody(h, p, after, m, fuel, d')
    {
      assert MeetsGood(Activation(h, p, code, d'), code, m, fuel) by { var _ := RunBody(h, p, code, m, fuel, d'); }
      ReducedRuns(h, p, code, m, fuel, d');
      if d <= d' { DepthMonotone(Activation(h, p, code, d), d', code, m, fuel); }
      else { DepthMonotone(Activation(h, p, code, d'), d, code, m, fuel); }
    }
  }

  /** Only products of locals are rewritten. */
  predicate ProductsOnly(code: seq<Instr>) {
    forall k :: 0 <= k <= |code| && ScalesNext(code[k..]) ==>
      code[k + 2] == INT_OP(Mul) && Reduction(code[k..][..2]).value.1.ctx == LOCL
  }

  predicate Ends(rest: seq<Instr>, code: seq<Instr>) {
    |rest| <= |code| && code[|code| - |rest|..] == rest
  }

  lemma {:induction false} LandsOnEnd(code: seq<Instr>, l: int)
    ensures AfterLabel(code, l).Some? ==> Ends(AfterLabel(code, l).value, code)
  {
    if code != [] && code[0] != LBL(l) {
      LandsOnEnd(code[1..], l);
      if AfterLabel(code, l).Some? {
        var r := AfterLabel(code, l).value;
        assert code[1..][|code| - 1 - |r|..] == code[|code| - |r|..];
      }
    } else if code != [] {
      assert code[|code| - |code[1..]|..] == code[1..];
    }
  }

  lemma AdvanceEnds(h: Host, code: seq<Instr>, rest: seq<Instr>, m: Machine, fuel: nat)
    requires rest != [] && Ends(rest, code) && !rest[0].MTHD_CALL?
    ensures var move := Advance(h, code, rest, m, fuel); move.Goto? ==> Ends(move.rest, code)
  {
    hide Step;
    EndsNext(rest, code);
    if rest[0].JMP? { LandsOnEnd(code, rest[0].target); }
    hide AfterLabel, Ends;
  }

  lemma EndsNext(rest: seq<Instr>, code: seq<Instr>)
    requires rest != [] && Ends(rest, code)
    ensures Ends(rest[1..], code)
  {
    assert code[|code| - |rest| + 1..] == rest[1..];
  }

  /** Products of locals are always good. */
  lemma ProductScaledWell(h: Host, code: seq<Instr>, rest: seq<Instr>, m: Machine)
    requires ProductsOnly(code) && Ends(rest, code) && Sized(m)
    ensures ScaledWell(h, rest, m)
  {
    if ScalesNext(rest) {
      var k := |code| - |rest|;
      assert code[k..] == rest && code[k + 2] == rest[2];
      var r := Reduction(rest[..2]).value;
      ReducedOperands(rest);
      ProductToShift(h, r.0, r.1.slot);
      assert rest[..3] == [rest[0], rest[1]] + [rest[2]];
    }
  }

  lemma {:induction false} ProductsMeetGood(a: Activation, rest: seq<Instr>, m: Machine, fuel: nat)
    requires ProductsOnly(a.code) && Ends(rest, a.code) && Sized(m)
    ensures MeetsGood(a, rest, m, fuel)
    decreases fuel, |rest|
  {
    if rest == [] { return; }
    ProductScaledWell(a.host, a.code, rest, m);
    EndsNext(rest, a.code);
    hide ProductsOnly, ScaledWell, Ends;
    if rest[0].MTHD_CALL? {
      RunCall(a, rest, m, fuel);
      hide Call;
      if a.depth > 0 {
        var r := Call(a.host, a.program, rest[0].id, m, fuel, a.depth - 1);
        if r.Done? { ProductsMeetGood(a, rest[1..], r.m, r.fuel); }
      }
    } else {
      AdvanceEnds(a.host, a.code, rest, m, fuel);
      hide Advance;
      var move := Advance(a.host, a.code, rest, m, fuel);
      if move.Goto? { ProductsMeetGood(a, move.rest, move.m, move.fuel); }
    }
  }

  lemma ProductsReduceSafely(h: Host, p: Program, code: seq<Instr>)
    requires ProductsOnly(code)
    ensures ReducesSafely(h, p, code)
  {
    forall m: Machine, fuel: nat, d: nat | Sized(m) ensures MeetsGood(Activation(h, p, code, d), code, m, fuel) {
      assert code[0..] == code;
      ProductsMeetGood(Activation(h, p, code, d), code, m, fuel);
    }
  }
}
