// When do two pieces of code run alike? A pass is described by the chunks it leaves alone and
// the chunks it rewrites; one simulation theorem then covers every pass.

module Simulation {
  import opened Wrappers
  import opened Words
  import opened Bytecode

  predicate Simple(code: seq<Instr>) {
    forall i <- code :: !IsControl(i)
  }

  /** Runs instructions that are not control flow. */
  function Straight(h: Host, code: seq<Instr>, m: Machine): (r: Option<Machine>)
    requires Simple(code)
    ensures r.Some? ==> |r.value.locals| == |m.locals| && r.value.inst == m.inst && r.value.cls == m.cls
  {
    if code == [] then Some(m) else
    var s := Step(h, code[0], m);
    if s.None? then None else Straight(h, code[1..], s.value)
  }

  lemma {:induction false} StraightConcat(h: Host, x: seq<Instr>, y: seq<Instr>, m: Machine)
    requires Simple(x) && Simple(y)
    ensures Simple(x + y)
    ensures Straight(h, x + y, m) ==
      (var s := Straight(h, x, m); if s.None? then None else Straight(h, y, s.value))
  {
    if x == [] {
      assert x + y == y;
    } else {
      assert (x + y)[0] == x[0] && (x + y)[1..] == x[1..] + y;
      var s := Step(h, x[0], m);
      if s.Some? { StraightConcat(h, x[1..], y, s.value); }
      else { StraightConcat(h, x[1..], y, m); }
    }
  }

  /** Straight-line code at the head of an activation either faults or hands over to what follows. */
  lemma {:induction false} RunStraight(a: Activation, x: seq<Instr>, rest: seq<Instr>, m: Machine, fuel: nat)
    requires Simple(x)
    ensures Run(a, x + rest, m, fuel) ==
      (var s := Straight(a.host, x, m); if s.None? then Fault else Run(a, rest, s.value, fuel))
  {
    if x == [] {
      assert x + rest == rest;
    } else {
      assert (x + rest)[0] == x[0] && (x + rest)[1..] == x[1..] + rest;
      var s := Step(a.host, x[0], m);
      if s.Some? { RunStraight(a, x[1..], rest, s.value, fuel); }
    }
  }

  /** Allowing deeper nesting never changes the outcome of a run that finished. */
  lemma {:induction false} DepthMonotone(a: Activation, depth: nat, rest: seq<Instr>, m: Machine, fuel: nat)
    requires a.depth <= depth
    ensures var r := Run(a, rest, m, fuel); !r.Timeout? ==> Run(a.(depth := depth), rest, m, fuel) == r
    decreases a.depth, fuel, |rest|
  {
    if rest == [] || Run(a, rest, m, fuel).Timeout? { return; }
    if rest[0].MTHD_CALL? {
      if |m.stack| == 0 { return; }
      var target := Callee(a.host, a.program, rest[0].id, m);
      if target.None? { return; }
      var callee := a.program[target.value];
      var c := Activation(a.host, a.program, callee.code, a.depth - 1);
      var m1 := Enter(a.host, callee, m);
      DepthMonotone(c, depth - 1, callee.code, m1, fuel);
      var r := Run(c, callee.code, m1, fuel);
      if r.Done? { DepthMonotone(a, depth, rest[1..], Leave(m, r.m), r.fuel); }
    } else {
      var move := Advance(a.host, a.code, rest, m, fuel);
      if move.Goto? { DepthMonotone(a, depth, move.rest, move.m, move.fuel); }
    }
  }

  datatype Chunk =
    | Keep(i: Instr)                        // copied
    | Rewrite(x: seq<Instr>, y: seq<Instr>) // straight-line x replaced by straight-line y
    | Risky(x: seq<Instr>, y: seq<Instr>)   // the same, though y is like x on some machines only
    | Drop(l: int, cond: int)               // JMP l; LBL l replaced by LBL l
    | Accessor(id: MethodId, body: seq<Instr>) // a call replaced by straight-line code
    | Inline(id: MethodId, body: seq<Instr>)   // a call replaced by a whole method body

  /** The two codes a chunk stands for: before the pass, and after it. */
  function Side(c: Chunk, after: bool): seq<Instr> {
    match c
    case Keep(i) => [i]
    case Rewrite(x, y) => if after then y else x
    case Risky(x, y) => if after then y else x
    case Drop(l, cond) => if after then [LBL(l)] else [JMP(l, cond), LBL(l)]
    case Accessor(id, body) => if after then body else [MTHD_CALL(id)]
    case Inline(id, body) => if after then body else [MTHD_CALL(id)]
  }

  function Code(cs: seq<Chunk>, after: bool): seq<Instr> {
    if cs == [] then [] else Side(cs[0], after) + Code(cs[1..], after)
  }

  lemma CodeConcat(cs: seq<Chunk>, ds: seq<Chunk>, after: bool)
    ensures Code(cs + ds, after) == Code(cs, after) + Code(ds, after)
  {
    if cs == [] {
      assert cs + ds == ds;
    } else {
      assert (cs + ds)[0] == cs[0] && (cs + ds)[1..] == cs[1..] + ds;
      CodeConcat(cs[1..], ds, after);
    }
  }

  predicate Sized(m: Machine) {
    |m.locals| == LOCAL_WORDS
  }

  /** x and y are straight-line code with the same effect on every machine. */
  ghost predicate SameEffect(h: Host, x: seq<Instr>, y: seq<Instr>) {
    && Simple(x) && Simple(y)
    && forall m: Machine {:trigger Straight(h, x, m)} {:trigger Straight(h, y, m)} ::
         Sized(m) ==> Straight(h, x, m) == Straight(h, y, m)
  }

  lemma SameEffectConcat(h: Host, x: seq<Instr>, y: seq<Instr>, x': seq<Instr>, y': seq<Instr>)
    requires SameEffect(h, x, y) && SameEffect(h, x', y')
    ensures SameEffect(h, x + x', y + y')
  {
    assert Simple(x + x') && Simple(y + y');
    forall m: Machine | Sized(m) ensures Straight(h, x + x', m) == Straight(h, y + y', m) {
      StraightConcat(h, x, x', m);
      StraightConcat(h, y, y', m);
      var s := Straight(h, x, m);
      assert s == Straight(h, y, m);
      if s.Some? { assert Straight(h, x', s.value) == Straight(h, y', s.value); }
    }
  }

  /** What the call instruction does, for a bound on the frames below the callee. */
  function Call(h: Host, p: Program, id: MethodId, m: Machine, fuel: nat, depth: nat): Outcome {
    if |m.stack| == 0 then Fault else
    var target := Callee(h, p, id, m);
    if target.None? then Fault else
    var callee := p[target.value];
    var r := Run(Activation(h, p, callee.code, depth), callee.code, Enter(h, callee, m), fuel);
    if r.Done? then Done(Leave(m, r.m), r.fuel) else if r.Fell? then Fault else r
  }

  predicate CallResolves(h: Host, p: Program, id: MethodId, m: Machine) {
    |m.stack| > 0 && Callee(h, p, id, m).Some?
  }

  lemma RunCall(a: Activation, rest: seq<Instr>, m: Machine, fuel: nat)
    requires rest != [] && rest[0].MTHD_CALL?
    ensures Run(a, rest, m, fuel) ==
      if a.depth == 0 then (if CallResolves(a.host, a.program, rest[0].id, m) then Timeout else Fault)
      else (var r := Call(a.host, a.program, rest[0].id, m, fuel, a.depth - 1);
            if r.Done? then Run(a, rest[1..], r.m, r.fuel) else r)
    ensures var r := Call(a.host, a.program, rest[0].id, m, fuel, if a.depth == 0 then 0 else a.depth - 1);
      && !r.Fell? && (r.Done? ==> r.fuel <= fuel && |r.m.locals| == |m.locals| && r.m.cls == m.cls)
  {
  }

  /** Calling id does what the straight-line body does in the caller's own frame. */
  ghost predicate ActsAs(h: Host, p: Program, id: MethodId, body: seq<Instr>) {
    && Simple(body)
    && forall m: Machine, fuel: nat, depth: nat {:trigger Call(h, p, id, m, fuel, depth)} :: Sized(m) ==>
         Call(h, p, id, m, fuel, depth) ==
           (var s := Straight(h, body, m); if s.None? then Fault else Done(s.value, fuel))
  }

  ghost predicate Sound(h: Host, p: Program, c: Chunk) {
    match c
    case Keep(_) => true
    case Rewrite(x, y) => SameEffect(h, x, y)
    case Risky(x, y) => Simple(x) && Simple(y)
    case Drop(_, cond) => cond < 0
    case Accessor(id, body) => ActsAs(h, p, id, body)
    case Inline(_, _) => true
  }

  ghost predicate AllSound(h: Host, p: Program, cs: seq<Chunk>) {
    forall k :: 0 <= k < |cs| ==> Sound(h, p, cs[k])
  }

  predicate Places(c: Chunk, l: int) {
    c == Keep(LBL(l)) || (c.Drop? && c.l == l)
  }

  predicate UniqueLabels(code: seq<Instr>) {
    forall i, j :: 0 <= i < j < |code| && code[i].LBL? && code[j].LBL? ==> code[i].mark != code[j].mark
  }

  /** Label l belongs to no inlined body. */
  predicate Clear(cs: seq<Chunk>, l: int) {
    forall c <- cs :: c.Inline? ==> LBL(l) !in c.body
  }

  /** No label dropped by a chunk is placed by another one. */
  predicate DropsUnique(cs: seq<Chunk>) {
    forall i, j :: 0 <= i < |cs| && 0 <= j < |cs| && i != j && cs[i].Drop? ==> !Places(cs[j], cs[i].l)
  }

  function Find(cs: seq<Chunk>, l: int): (k: nat)
    ensures k <= |cs|
    ensures k < |cs| ==> Places(cs[k], l)
    ensures forall j :: 0 <= j < k ==> !Places(cs[j], l)
  {
    if cs == [] then 0 else if Places(cs[0], l) then 0 else 1 + Find(cs[1..], l)
  }

  lemma {:induction false} SkipSimple(x: seq<Instr>, rest: seq<Instr>, l: int)
    requires forall i <- x :: i != LBL(l)
    ensures AfterLabel(x + rest, l) == AfterLabel(rest, l)
  {
    if x == [] {
      assert x + rest == rest;
    } else {
      assert (x + rest)[0] == x[0] && (x + rest)[1..] == x[1..] + rest;
      assert x[0] in x && forall i <- x[1..] :: i in x;
      SkipSimple(x[1..], rest, l);
    }
  }

  lemma LandsHere(c: Chunk, l: int, rest: seq<Instr>, after: bool)
    requires Places(c, l)
    ensures AfterLabel(Side(c, after) + rest, l) == Some(rest)
  {
    assert ([LBL(l)] + rest)[1..] == rest;
    if c.Drop? && !after {
      assert Side(c, after) + rest == [JMP(l, c.cond)] + ([LBL(l)] + rest);
      SkipSimple([JMP(l, c.cond)], [LBL(l)] + rest, l);
    }
  }

  lemma SkipsChunk(h: Host, p: Program, c: Chunk, l: int, rest: seq<Instr>, after: bool)
    requires Sound(h, p, c) && !Places(c, l) && (c.Inline? ==> LBL(l) !in c.body)
    ensures AfterLabel(Side(c, after) + rest, l) == AfterLabel(rest, l)
  {
    hide Call, Straight;
    SkipSimple(Side(c, after), rest, l);
  }

  /** A jump lands on the same chunk before and after the pass: both restart at a label. */
  lemma {:induction false} Landing(h: Host, p: Program, cs: seq<Chunk>, l: int, after: bool)
    requires AllSound(h, p, cs) && Clear(cs, l)
    ensures AfterLabel(Code(cs, after), l) ==
      (var k := Find(cs, l); if k < |cs| then Some(Code(cs[k + 1..], after)) else None)
  {
    hide AfterLabel, Sound, Places, Side;
    if cs == [] { Nowhere(l); return; }
    var c, rest := cs[0], Code(cs[1..], after);
    assert c in cs && forall d <- cs[1..] :: d in cs;
    if Places(c, l) {
      LandsHere(c, l, rest, after);
    } else {
      SkipsChunk(h, p, c, l, rest, after);
      Landing(h, p, cs[1..], l, after);
      var k := Find(cs[1..], l);
      if k < |cs| - 1 { assert cs[1..][k + 1..] == cs[k + 2..]; }
    }
  }

  lemma Nowhere(l: int)
    ensures AfterLabel([], l) == None
  {
  }

  lemma {:induction false} CodeLength(cs: seq<Chunk>, i: nat, j: nat, after: bool)
    requires i <= j <= |cs|
    ensures |Code(cs[j..], after)| <= |Code(cs[i..], after)|
    ensures i < j && (cs[i].Keep? || cs[i].Drop?) ==> |Code(cs[j..], after)| < |Code(cs[i..], after)|
    decreases j - i
  {
    if i < j {
      assert cs[i..][1..] == cs[i + 1..];
      CodeLength(cs, i + 1, j, after);
    }
  }

  /** Whether a jump from chunk i to chunk k goes backward does not depend on the side. */
  lemma JumpDirection(cs: seq<Chunk>, i: nat, k: nat, after: bool)
    requires i < |cs| && k < |cs| && cs[i].Keep? && (cs[k].Keep? || cs[k].Drop?)
    ensures |Code(cs[k + 1..], after)| < |Code(cs[i..], after)| <==> i <= k
  {
    if i <= k { CodeLength(cs, i, k + 1, after); }
    else { CodeLength(cs, k + 1, i, after); }
  }

  lemma CodeAt(cs: seq<Chunk>, pos: nat, after: bool)
    requires pos < |cs|
    ensures Code(cs[pos..], after) == Side(cs[pos], after) + Code(cs[pos + 1..], after)
  {
    assert cs[pos..][0] == cs[pos] && cs[pos..][1..] == cs[pos + 1..];
  }

  /** A jump to the label right behind it is a forward jump that changes nothing. */
  lemma DroppedJump(a: Activation, cs: seq<Chunk>, after: bool, pos: nat, m: Machine, fuel: nat)
    requires AllSound(a.host, a.program, cs) && DropsUnique(cs) && NoInline(cs)
    requires pos < |cs| && cs[pos].Drop? && a.code == Code(cs, after)
    ensures Run(a, Code(cs[pos..], after), m, fuel) == Run(a, Code(cs[pos + 1..], after), m, fuel)
  {
    var l := cs[pos].l;
    CodeAt(cs, pos, after);
    var rest, next := Code(cs[pos..], after), Code(cs[pos + 1..], after);
    if after {
      assert rest[0] == LBL(l) && rest[1..] == next;
    } else {
      Landing(a.host, a.program, cs, l, after);
      assert Places(cs[pos], l) && Find(cs, l) == pos;
      assert Sound(a.host, a.program, cs[pos]) && rest[0] == JMP(l, cs[pos].cond);
      assert Advance(a.host, a.code, rest, m, fuel) == Goto(next, m, fuel);
    }
  }

  datatype Hop = Stop(outcome: Outcome) | To(pos: nat, m: Machine, fuel: nat)

  /** What a kept instruction other than a call does, told by chunks and so without a side. */
  function ChunkMove(h: Host, cs: seq<Chunk>, pos: nat, m: Machine, fuel: nat): (hop: Hop)
    requires pos < |cs| && cs[pos].Keep? && !cs[pos].i.MTHD_CALL?
    ensures hop.To? ==> pos < |cs| && hop.pos <= |cs| && |hop.m.locals| == |m.locals|
    ensures hop.To? ==> hop.fuel < fuel || (hop.fuel == fuel && pos < hop.pos)
  {
    var i := cs[pos].i;
    if i.LBL? then To(pos + 1, m, fuel)
    else if i.RTRN? then Stop(Done(m, fuel))
    else if i.JMP? then
      if i.cond < 0 then ChunkJump(cs, i.target, pos, m, fuel)
      else if |m.stack| == 0 then Stop(Fault)
      else
        var m1 := m.(stack := m.stack[1..]);
        if m.stack[0] == i.cond then ChunkJump(cs, i.target, pos, m1, fuel) else To(pos + 1, m1, fuel)
    else
      var s := Step(h, i, m);
      if s.None? then Stop(Fault) else To(pos + 1, s.value, fuel)
  }

  function ChunkJump(cs: seq<Chunk>, l: int, pos: nat, m: Machine, fuel: nat): (hop: Hop)
    ensures hop.To? ==> hop.pos <= |cs| && hop.m == m && (hop.fuel < fuel || (hop.fuel == fuel && pos < hop.pos))
  {
    var k := Find(cs, l);
    if k == |cs| then Stop(Fault)
    else if pos <= k then To(k + 1, m, fuel)
    else if fuel == 0 then Stop(Timeout)
    else To(k + 1, m, fuel - 1)
  }

  function OnSide(hop: Hop, cs: seq<Chunk>, after: bool): Move
    requires hop.To? ==> hop.pos <= |cs|
  {
    match hop
    case Stop(o) => Halt(o)
    case To(k, m, fuel) => Goto(Code(cs[k..], after), m, fuel)
  }

  lemma JumpOnSide(h: Host, p: Program, cs: seq<Chunk>, after: bool, pos: nat, l: int, m: Machine, fuel: nat)
    requires AllSound(h, p, cs) && Clear(cs, l) && pos < |cs| && cs[pos].Keep? && cs[pos].i.JMP?
    ensures Jump(Code(cs, after), l, Code(cs[pos..], after), m, fuel) ==
      OnSide(ChunkJump(cs, l, pos, m, fuel), cs, after)
  {
    Landing(h, p, cs, l, after);
    var k := Find(cs, l);
    if k < |cs| { JumpDirection(cs, pos, k, after); }
  }

  lemma MoveOnSide(h: Host, p: Program, cs: seq<Chunk>, after: bool, pos: nat, m: Machine, fuel: nat)
    requires AllSound(h, p, cs) && pos < |cs| && cs[pos].Keep? && !cs[pos].i.MTHD_CALL?
    requires cs[pos].i.JMP? ==> Clear(cs, cs[pos].i.target)
    ensures Code(cs[pos..], after) != [] && Code(cs[pos..], after)[0] == cs[pos].i
    ensures Advance(h, Code(cs, after), Code(cs[pos..], after), m, fuel) ==
      OnSide(ChunkMove(h, cs, pos, m, fuel), cs, after)
  {
    hide Step;
    CodeAt(cs, pos, after);
    var i := cs[pos].i;
    assert Code(cs[pos..], after)[1..] == Code(cs[pos + 1..], after);
    if i.JMP? {
      JumpOnSide(h, p, cs, after, pos, i.target, m, fuel);
      if |m.stack| > 0 { JumpOnSide(h, p, cs, after, pos, i.target, m.(stack := m.stack[1..]), fuel); }
    }
  }

  /** Runs of the two sides, from the same chunk: whatever outcome the from side reaches, the
      other side reaches too, with the same fuel left. Inlined accessors save one call. */
  lemma {:induction false} Simulates(a: Activation, b: Activation, cs: seq<Chunk>, from: bool, pos: nat, m: Machine,
                                     fuel: nat)
    requires Sides(a, b, cs, from) && pos <= |cs| && Sized(m)
    ensures var r := Run(a, Code(cs[pos..], from), m, fuel);
      !r.Timeout? ==> Run(b, Code(cs[pos..], !from), m, fuel) == r
    decreases fuel, |cs| - pos, 1
  {
    hide Step, Advance, ChunkMove, Find, Places;
    if pos == |cs| { return; }
    var c := cs[pos];
    assert Sound(a.host, a.program, c) && c in cs && (c.Keep? && c.i.JMP? ==> Clear(cs, c.i.target));
    hide AllSound, Clear;
    match c
    case Rewrite(x, y) =>
      CodeAt(cs, pos, from);
      CodeAt(cs, pos, !from);
      RunStraight(a, Side(c, from), Code(cs[pos + 1..], from), m, fuel);
      RunStraight(b, Side(c, !from), Code(cs[pos + 1..], !from), m, fuel);
      var s := Straight(a.host, x, m);
      assert s == Straight(a.host, y, m);
      if s.Some? { Simulates(a, b, cs, from, pos + 1, s.value, fuel); }
    case Drop(_, _) =>
      DroppedJump(a, cs, from, pos, m, fuel);
      DroppedJump(b, cs, !from, pos, m, fuel);
      Simulates(a, b, cs, from, pos + 1, m, fuel);
    case Accessor(id, body) =>
      var s := Straight(a.host, body, m);
      AccessorRun(if from then a else b, cs, pos, m, fuel);
      AccessorCall(if from then b else a, cs, pos, m, fuel);
      if s.Some? { Simulates(a, b, cs, from, pos + 1, s.value, fuel); }
    case Keep(i) =>
      if i.MTHD_CALL? {
        KeptCall(a, b, cs, from, pos, m, fuel);
      } else {
        MoveOnSide(a.host, a.program, cs, from, pos, m, fuel);
        MoveOnSide(a.host, a.program, cs, !from, pos, m, fuel);
        var hop := ChunkMove(a.host, cs, pos, m, fuel);
        if hop.To? { Simulates(a, b, cs, from, hop.pos, hop.m, hop.fuel); }
      }
  }

  predicate NoInline(cs: seq<Chunk>) {
    forall c <- cs :: !c.Inline? && !c.Risky?
  }

  /** Activations a and b run the from side of a pass and the other side. */
  ghost predicate Sides(a: Activation, b: Activation, cs: seq<Chunk>, from: bool) {
    && AllSound(a.host, a.program, cs) && DropsUnique(cs) && NoInline(cs)
    && a == Activation(a.host, a.program, Code(cs, from), a.depth)
    && b == Activation(a.host, a.program, Code(cs, !from), b.depth)
    && a.depth <= b.depth
    && (from && (exists c <- cs :: c.Accessor?) ==> a.depth < b.depth)
  }

  lemma AccessorRun(a: Activation, cs: seq<Chunk>, pos: nat, m: Machine, fuel: nat)
    requires AllSound(a.host, a.program, cs) && pos < |cs| && cs[pos].Accessor?
    ensures Simple(cs[pos].body)
    ensures Run(a, Code(cs[pos..], true), m, fuel) ==
      (var s := Straight(a.host, cs[pos].body, m);
       if s.None? then Fault else Run(a, Code(cs[pos + 1..], true), s.value, fuel))
  {
    assert Sound(a.host, a.program, cs[pos]);
    CodeAt(cs, pos, true);
    RunStraight(a, cs[pos].body, Code(cs[pos + 1..], true), m, fuel);
  }

  lemma AccessorCall(a: Activation, cs: seq<Chunk>, pos: nat, m: Machine, fuel: nat)
    requires AllSound(a.host, a.program, cs) && pos < |cs| && cs[pos].Accessor? && Sized(m)
    ensures Simple(cs[pos].body)
    ensures var r := Run(a, Code(cs[pos..], false), m, fuel);
      var s := Straight(a.host, cs[pos].body, m);
      (a.depth > 0 || !r.Timeout? ==>
        r == if s.None? then Fault else Run(a, Code(cs[pos + 1..], false), s.value, fuel))
  {
    var Accessor(id, body) := cs[pos];
    assert Sound(a.host, a.program, cs[pos]);
    CodeAt(cs, pos, false);
    var s := Straight(a.host, body, m);
    var d := if a.depth > 0 then a.depth - 1 else 0;
    assert Call(a.host, a.program, id, m, fuel, d) == if s.None? then Fault else Done(s.value, fuel);
    assert Code(cs[pos..], false)[1..] == Code(cs[pos + 1..], false);
  }

  lemma {:induction false} KeptCall(a: Activation, b: Activation, cs: seq<Chunk>, from: bool, pos: nat, m: Machine,
                                    fuel: nat)
    requires Sides(a, b, cs, from) && pos < |cs| && Sized(m)
    requires cs[pos].Keep? && cs[pos].i.MTHD_CALL?
    ensures var r := Run(a, Code(cs[pos..], from), m, fuel);
      !r.Timeout? ==> Run(b, Code(cs[pos..], !from), m, fuel) == r
    decreases fuel, |cs| - pos, 0
  {
    hide Advance, Sound, DropsUnique;
    CodeAt(cs, pos, from);
    CodeAt(cs, pos, !from);
    assert Code(cs[pos..], from)[1..] == Code(cs[pos + 1..], from);
    assert Code(cs[pos..], !from)[1..] == Code(cs[pos + 1..], !from);
    hide Code;
    if |m.stack| == 0 || a.depth == 0 { return; }
    var target := Callee(a.host, a.program, cs[pos].i.id, m);
    if target.None? { return; }
    var callee := a.program[target.value];
    var act := Activation(a.host, a.program, callee.code, a.depth - 1);
    var m1 := Enter(a.host, callee, m);
    DepthMonotone(act, b.depth - 1, callee.code, m1, fuel);
    var r := Run(act, callee.code, m1, fuel);
    if r.Done? { Simulates(a, b, cs, from, pos + 1, Leave(m, r.m), r.fuel); }
  }

  function RunBody(h: Host, p: Program, code: seq<Instr>, m: Machine, fuel: nat, depth: nat): Outcome {
    Run(Activation(h, p, code, depth), code, m, fuel)
  }

  /** after finishes wherever before does and the other way round, with the same outcome and the
      same number of backward jumps; before may need slack more nested calls. */
  ghost predicate Refines(h: Host, p: Program, before: seq<Instr>, after: seq<Instr>, slack: nat) {
    forall m: Machine, fuel: nat, d: nat, d': nat
      {:trigger RunBody(h, p, before, m, fuel, d), RunBody(h, p, after, m, fuel, d')} :: Sized(m) ==>
      && (d <= d' && !RunBody(h, p, before, m, fuel, d).Timeout? ==>
            RunBody(h, p, after, m, fuel, d') == RunBody(h, p, before, m, fuel, d))
      && (d' + slack <= d && !RunBody(h, p, after, m, fuel, d').Timeout? ==>
            RunBody(h, p, before, m, fuel, d) == RunBody(h, p, after, m, fuel, d'))
  }

  /** The theorem every pass appeals to. */
  lemma ChunksRefine(h: Host, p: Program, cs: seq<Chunk>, slack: nat)
    requires AllSound(h, p, cs) && DropsUnique(cs) && NoInline(cs) && ((exists c <- cs :: c.Accessor?) ==> slack > 0)
    ensures Refines(h, p, Code(cs, false), Code(cs, true), slack)
  {
    var before, after := Code(cs, false), Code(cs, true);
    forall m: Machine, fuel: nat, d: nat, d': nat | Sized(m)
      ensures d <= d' && !RunBody(h, p, before, m, fuel, d).Timeout? ==>
        RunBody(h, p, after, m, fuel, d') == RunBody(h, p, before, m, fuel, d)
      ensures d' + slack <= d && !RunBody(h, p, after, m, fuel, d').Timeout? ==>
        RunBody(h, p, before, m, fuel, d) == RunBody(h, p, after, m, fuel, d')
    {
      assert cs[0..] == cs;
      var b, a := Activation(h, p, before, d), Activation(h, p, after, d');
      if d <= d' { Simulates(b, a, cs, false, 0, m, fuel); }
      if d' + slack <= d { Simulates(a, b, cs, true, 0, m, fuel); }
    }
  }

  lemma RefinesTransitive(h: Host, p: Program, a: seq<Instr>, b: seq<Instr>, c: seq<Instr>, j: nat, k: nat)
    requires Refines(h, p, a, b, j) && Refines(h, p, b, c, k)
    ensures Refines(h, p, a, c, j + k)
  {
    forall m: Machine, fuel: nat, d: nat, d': nat | Sized(m)
      ensures d <= d' && !RunBody(h, p, a, m, fuel, d).Timeout? ==>
        RunBody(h, p, c, m, fuel, d') == RunBody(h, p, a, m, fuel, d)
      ensures d' + j + k <= d && !RunBody(h, p, c, m, fuel, d').Timeout? ==>
        RunBody(h, p, a, m, fuel, d) == RunBody(h, p, c, m, fuel, d')
    {
      var _ := RunBody(h, p, b, m, fuel, d);
      var _ := RunBody(h, p, b, m, fuel, d' + k);
    }
  }

  lemma RefinesReflexive(h: Host, p: Program, a: seq<Instr>)
    ensures Refines(h, p, a, a, 0)
  {
    forall m: Machine, fuel: nat, d: nat, d': nat | d <= d' && !RunBody(h, p, a, m, fuel, d).Timeout?
      ensures RunBody(h, p, a, m, fuel, d') == RunBody(h, p, a, m, fuel, d)
    {
      DepthMonotone(Activation(h, p, a, d), d', a, m, fuel);
    }
  }

  /** An outcome without the frame, which nobody sees after a method has returned. */
  function Visible(o: Outcome): Outcome {
    match o
    case Done(m, f) => Done(m.(locals := []), f)
    case Fell(m) => Fell(m.(locals := []))
    case _ => o
  }

  /** Refines for a method body: machines running it belong to the class with memory clsMem. */
  ghost predicate RefinesMethod(h: Host, p: Program, clsMem: int, before: seq<Instr>, after: seq<Instr>, slack: nat) {
    forall m: Machine, fuel: nat, d: nat, d': nat
      {:trigger RunBody(h, p, before, m, fuel, d), RunBody(h, p, after, m, fuel, d')} :: Sized(m) && m.cls == clsMem ==>
      && (d <= d' && !RunBody(h, p, before, m, fuel, d).Timeout? ==>
            Visible(RunBody(h, p, after, m, fuel, d')) == Visible(RunBody(h, p, before, m, fuel, d)))
      && (d' + slack <= d && !RunBody(h, p, after, m, fuel, d').Timeout? ==>
            Visible(RunBody(h, p, before, m, fuel, d)) == Visible(RunBody(h, p, after, m, fuel, d')))
  }
}
