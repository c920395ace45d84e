// Inlining calls throughout a block refines the block: the caller never sees the difference.

module InlineMethod {
  import opened Wrappers
  import opened Words
  import opened Bytecode
  import opened Simulation
  import opened Passes
  import opened Inlining

  /** The machines agree on everything but the slots from offset on. */
  predicate AgreeBelow(m: Machine, n: Machine, offset: nat) {
    && Sized(m) && Sized(n) && offset < LOCAL_WORDS
    && n == m.(locals := n.locals) && m.locals[..offset] == n.locals[..offset]
  }

  /** The instruction names local slots below offset only. */
  predicate StaysBelow(i: Instr, offset: nat) {
    (IsVariable(i) || IsFunctionVariable(i)) && i.ctx == LOCL ==> i.slot + 1 < offset
  }

  /** Function variables of a caller are not counted among its locals; these lie below offset all the same. */
  predicate FunctionsBelow(code: seq<Instr>, offset: nat) {
    forall i <- code :: IsFunctionVariable(i) && i.ctx == LOCL ==> i.slot + 1 < offset
  }

  ghost predicate KeptReady(cs: seq<Chunk>, i: Instr, offset: nat) {
    StaysBelow(i, offset) && (i.JMP? ==> Clear(cs, i.target))
  }

  ghost predicate InlineReady(p: Program, current: MethodId, offset: nat, cs: seq<Chunk>, j: nat)
    requires j < |cs| && cs[j].Inline?
  {
    var id := cs[j].id;
    && current in p && id in p && !p[id].virtual && p[id].clsMem == p[current].clsMem
    && CalleeReady(offset, p[id].code) && BodyInlinable(p[id].code, {}, false)
    && cs[j].body == InlinedBody(offset, p[id].code)
    && forall i <- p[id].code :: i.LBL? ==> i !in Code(cs[..j], true)
  }

  ghost predicate Ready(p: Program, current: MethodId, offset: nat, cs: seq<Chunk>) {
    && current in p && offset < LOCAL_WORDS
    && forall j :: 0 <= j < |cs| ==>
         && (cs[j].Keep? || cs[j].Inline?)
         && (cs[j].Keep? ==> KeptReady(cs, cs[j].i, offset))
         && (cs[j].Inline? ==> InlineReady(p, current, offset, cs, j))
  }

  lemma StepBelow(h: Host, i: Instr, m: Machine, n: Machine, offset: nat)
    requires !IsControl(i) && StaysBelow(i, offset) && AgreeBelow(m, n, offset)
    ensures var s, t := Step(h, i, m), Step(h, i, n);
      && (s.None? <==> t.None?)
      && (s.Some? ==> AgreeBelow(s.value, t.value, offset))
  {
    if (IsVariable(i) || IsFunctionVariable(i)) && i.ctx == LOCL {
      var x := i.slot;
      if 0 <= x {
        assert m.locals[..offset][x] == n.locals[..offset][x] && m.locals[..offset][x + 1] == n.locals[..offset][x + 1];
      }
    }
  }

  lemma HopBelow(h: Host, cs: seq<Chunk>, pos: nat, m: Machine, n: Machine, fuel: nat, offset: nat)
    requires pos < |cs| && cs[pos].Keep? && !cs[pos].i.MTHD_CALL? && StaysBelow(cs[pos].i, offset) && AgreeBelow(m, n, offset)
    ensures var a, b := ChunkMove(h, cs, pos, m, fuel), ChunkMove(h, cs, pos, n, fuel);
      && (a.Stop? ==> b.Stop? && Visible(a.outcome) == Visible(b.outcome))
      && (a.To? ==> b.To? && b.pos == a.pos && b.fuel == a.fuel && AgreeBelow(a.m, b.m, offset))
  {
    var i := cs[pos].i;
    if !IsControl(i) { StepBelow(h, i, m, n, offset); }
    hide Step, Find;
  }

  lemma CallBelow(h: Host, p: Program, id: MethodId, m: Machine, n: Machine, fuel: nat, d: nat, d': nat, offset: nat)
    requires AgreeBelow(m, n, offset) && d <= d'
    ensures CallResolves(h, p, id, m) == CallResolves(h, p, id, n)
    ensures var r, s := Call(h, p, id, m, fuel, d), Call(h, p, id, n, fuel, d');
      !r.Timeout? ==>
      && (r.Done? ==> s.Done? && s.fuel == r.fuel && AgreeBelow(r.m, s.m, offset))
      && (!r.Done? ==> s == r)
  {
    if CallResolves(h, p, id, m) {
      var callee := p[Callee(h, p, id, m).value];
      DepthMonotone(Activation(h, p, callee.code, d), d', callee.code, Enter(h, callee, m), fuel);
    }
  }

  lemma SplitAt(cs: seq<Chunk>, pos: nat, after: bool)
    requires pos < |cs|
    ensures Code(cs, after) == Code(cs[..pos], after) + Side(cs[pos], after) + Code(cs[pos + 1..], after)
  {
    assert cs == cs[..pos] + cs[pos..];
    CodeConcat(cs[..pos], cs[pos..], after);
    CodeAt(cs, pos, after);
  }

  /** The expanded call, told by a run of the callee at the same depth. */
  lemma ExpandedCall(h: Host, p: Program, current: MethodId, offset: nat, cs: seq<Chunk>, pos: nat, m: Machine, n: Machine,
                     fuel: nat, d: nat) returns (n': Machine)
    requires Ready(p, current, offset, cs) && pos < |cs| && cs[pos].Inline?
    requires AgreeBelow(m, n, offset) && |m.stack| > 0 && m.cls == p[current].clsMem
    ensures cs[pos].id in p
    ensures var callee := p[cs[pos].id];
      var r := Run(Activation(h, p, callee.code, d), callee.code, Enter(h, callee, m), fuel);
      var s := Run(Activation(h, p, Code(cs, true), d), Code(cs[pos..], true), n, fuel);
      && (r.Done? ==> s == Run(Activation(h, p, Code(cs, true), d), Code(cs[pos + 1..], true), n', r.fuel)
                      && AgreeBelow(Leave(m, r.m), n', offset))
      && (!r.Done? ==> s == r && !r.Fell?)
  {
    assert InlineReady(p, current, offset, cs, pos);
    var callee := p[cs[pos].id];
    var code := callee.code;
    var pre, tail, whole := Code(cs[..pos], true), Code(cs[pos + 1..], true), Code(cs, true);
    SplitAt(cs, pos, true);
    CodeAt(cs, pos, true);
    assert BodyPlaced(offset, code, whole, pre, tail);
    var at :| WrittenFirst(code, at, Some({}));
    hide Ready, InlineReady, CalleeReady, BodyInlinable, BodyPlaced, Code;
    var b := EnterBody(h, p, offset, code, whole, tail, Enter(h, callee, m), n, fuel, d);
    n' := InlinedRun(h, p, offset, code, whole, pre, tail, at, 0, {}, Enter(h, callee, m), b, n, fuel, d);
    assert code[0..] == code;
  }

  /** The first inlined instruction keeps the instance and leaves the caller in the callee's place. */
  lemma EnterBody(h: Host, p: Program, offset: nat, code: seq<Instr>, whole: seq<Instr>, tail: seq<Instr>, c: Machine,
                  n: Machine, fuel: nat, d: nat) returns (b: Machine)
    requires code != [] && Sized(n) && Sized(c) && offset < LOCAL_WORDS && |n.stack| > 0
    requires c.stack == n.stack[1..] && c.inst == n.stack[0] && c.cls == n.cls && c.heap == n.heap && c.ext == n.ext
    ensures Inlined(c, b, {}, offset, n)
    ensures var a := Activation(h, p, whole, d);
      Run(a, InlinedBody(offset, code) + tail, n, fuel) == Run(a, From(offset, code, 0, tail), b, fuel)
  {
    b := n.(stack := n.stack[1..], locals := n.locals[offset := n.stack[0]]);
    var rest := InlinedBody(offset, code) + tail;
    assert Front(code)[0..] == Front(code);
    assert rest[0] == STOR_INT_VAR(offset, LOCL) && rest[1..] == From(offset, code, 0, tail);
    assert Advance(h, whole, rest, n, fuel) == Goto(rest[1..], b, fuel);
  }

  // ----- The whole block -----

  /** Runs of the block before and after inlining, from the same chunk. */
  lemma {:induction false} InlineSimulates(h: Host, p: Program, current: MethodId, offset: nat, cs: seq<Chunk>, from: bool,
                                           pos: nat, m: Machine, n: Machine, fuel: nat, d: nat, d': nat)
    requires Ready(p, current, offset, cs) && pos <= |cs| && AgreeBelow(m, n, offset) && m.cls == p[current].clsMem
    requires d <= d' && (from ==> d < d')
    ensures var r := Run(Activation(h, p, Code(cs, from), d), Code(cs[pos..], from), m, fuel);
      var s := Run(Activation(h, p, Code(cs, !from), d'), Code(cs[pos..], !from), n, fuel);
      !r.Timeout? ==> Visible(s) == Visible(r)
    decreases fuel, |cs| - pos, 1
  {
    hide Run, Code, ChunkMove, Clear, AgreeBelow, Ready, KeptReady, Visible;
    if pos == |cs| { EndsTogether(h, p, cs, from, m, n, fuel, d, d', offset); return; }
    if cs[pos].Inline? {
      InlinedChunk(h, p, current, offset, cs, from, pos, m, n, fuel, d, d');
      return;
    }
    KeptAt(p, current, offset, cs, pos);
    if cs[pos].i.MTHD_CALL? {
      KeptCallBelow(h, p, current, offset, cs, from, pos, m, n, fuel, d, d');
    } else {
      var hop, hop' := ChunkMove(h, cs, pos, m, fuel), ChunkMove(h, cs, pos, n, fuel);
      BothHop(h, p, current, offset, cs, from, pos, m, n, fuel, d, d');
      if hop.To? { InlineSimulates(h, p, current, offset, cs, from, hop.pos, hop.m, hop'.m, hop.fuel, d, d'); }
    }
  }

  /** A kept instruction on both sides. */
  lemma BothHop(h: Host, p: Program, current: MethodId, offset: nat, cs: seq<Chunk>, from: bool, pos: nat, m: Machine, n: Machine,
                fuel: nat, d: nat, d': nat)
    requires Ready(p, current, offset, cs) && pos < |cs| && AgreeBelow(m, n, offset) && cs[pos].Keep? && !cs[pos].i.MTHD_CALL?
    requires KeptReady(cs, cs[pos].i, offset)
    ensures var hop, hop' := ChunkMove(h, cs, pos, m, fuel), ChunkMove(h, cs, pos, n, fuel);
      var r := Run(Activation(h, p, Code(cs, from), d), Code(cs[pos..], from), m, fuel);
      var s := Run(Activation(h, p, Code(cs, !from), d'), Code(cs[pos..], !from), n, fuel);
      if hop.Stop? then r == hop.outcome && Visible(s) == Visible(r) else
        && hop'.To? && hop'.pos == hop.pos && hop'.fuel == hop.fuel && AgreeBelow(hop.m, hop'.m, offset) && hop.m.cls == m.cls
        && r == Run(Activation(h, p, Code(cs, from), d), Code(cs[hop.pos..], from), hop.m, hop.fuel)
        && s == Run(Activation(h, p, Code(cs, !from), d'), Code(cs[hop.pos..], !from), hop'.m, hop.fuel)
  {
    assert ChunkMove(h, cs, pos, m, fuel).To? ==> ChunkMove(h, cs, pos, m, fuel).m.cls == m.cls;
    hide Run, Code, ChunkMove, Clear, AgreeBelow, Ready;
    ReadySound(h, p, current, offset, cs);
    HopBelow(h, cs, pos, m, n, fuel, offset);
    RunKept(Activation(h, p, Code(cs, from), d), cs, from, pos, m, fuel);
    RunKept(Activation(h, p, Code(cs, !from), d'), cs, !from, pos, n, fuel);
  }

  lemma KeptAt(p: Program, current: MethodId, offset: nat, cs: seq<Chunk>, pos: nat)
    requires Ready(p, current, offset, cs) && pos < |cs| && !cs[pos].Inline?
    ensures cs[pos].Keep? && KeptReady(cs, cs[pos].i, offset)
  {
  }

  lemma EndsTogether(h: Host, p: Program, cs: seq<Chunk>, from: bool, m: Machine, n: Machine, fuel: nat, d: nat, d': nat,
                     offset: nat)
    requires AgreeBelow(m, n, offset)
    ensures var r := Run(Activation(h, p, Code(cs, from), d), Code(cs[|cs|..], from), m, fuel);
      var s := Run(Activation(h, p, Code(cs, !from), d'), Code(cs[|cs|..], !from), n, fuel);
      r == Fell(m) && s == Fell(n) && Visible(s) == Visible(r)
  {
    assert Code(cs[|cs|..], from) == [] && Code(cs[|cs|..], !from) == [];
  }

  lemma RunKept(a: Activation, cs: seq<Chunk>, after: bool, pos: nat, m: Machine, fuel: nat)
    requires AllSound(a.host, a.program, cs) && a.code == Code(cs, after)
    requires pos < |cs| && cs[pos].Keep? && !cs[pos].i.MTHD_CALL? && (cs[pos].i.JMP? ==> Clear(cs, cs[pos].i.target))
    ensures Run(a, Code(cs[pos..], after), m, fuel) ==
      (var hop := ChunkMove(a.host, cs, pos, m, fuel);
       if hop.Stop? then hop.outcome else Run(a, Code(cs[hop.pos..], after), hop.m, hop.fuel))
  {
    MoveOnSide(a.host, a.program, cs, after, pos, m, fuel);
    hide Step, Code, ChunkMove, Advance;
  }

  lemma ReadySound(h: Host, p: Program, current: MethodId, offset: nat, cs: seq<Chunk>)
    requires Ready(p, current, offset, cs)
    ensures AllSound(h, p, cs)
  {
  }

  lemma Unresolved(h: Host, p: Program, id: MethodId, m: Machine, fuel: nat, d: nat)
    ensures !CallResolves(h, p, id, m) ==> Call(h, p, id, m, fuel, d) == Fault
  {
  }

  lemma {:induction false} KeptCallBelow(h: Host, p: Program, current: MethodId, offset: nat, cs: seq<Chunk>, from: bool,
                                         pos: nat, m: Machine, n: Machine, fuel: nat, d: nat, d': nat)
    requires Ready(p, current, offset, cs) && pos < |cs| && AgreeBelow(m, n, offset) && m.cls == p[current].clsMem
    requires d <= d' && (from ==> d < d') && cs[pos].Keep? && cs[pos].i.MTHD_CALL?
    ensures var r := Run(Activation(h, p, Code(cs, from), d), Code(cs[pos..], from), m, fuel);
      var s := Run(Activation(h, p, Code(cs, !from), d'), Code(cs[pos..], !from), n, fuel);
      !r.Timeout? ==> Visible(s) == Visible(r)
    decreases fuel, |cs| - pos, 0
  {
    hide Call, Callee, CallResolves, Run, Ready, Code;
    var a, b := Activation(h, p, Code(cs, from), d), Activation(h, p, Code(cs, !from), d');
    var id := cs[pos].i.id;
    CodeAt(cs, pos, from);
    CodeAt(cs, pos, !from);
    var rest, rest' := Code(cs[pos..], from), Code(cs[pos..], !from);
    assert rest[1..] == Code(cs[pos + 1..], from) && rest'[1..] == Code(cs[pos + 1..], !from);
    RunCall(a, rest, m, fuel);
    RunCall(b, rest', n, fuel);
    CallBelow(h, p, id, m, n, fuel, if d > 0 then d - 1 else 0, if d' > 0 then d' - 1 else 0, offset);
    Unresolved(h, p, id, m, fuel, 0);
    if d > 0 {
      var r, s := Call(h, p, id, m, fuel, d - 1), Call(h, p, id, n, fuel, d' - 1);
      if r.Done? {
        InlineSimulates(h, p, current, offset, cs, from, pos + 1, r.m, s.m, r.fuel, d, d');
      }
    }
  }

  /** An inlined chunk on either side: a call, or the body of the method it names. */
  lemma InlinedParts(p: Program, current: MethodId, offset: nat, cs: seq<Chunk>, pos: nat)
    requires Ready(p, current, offset, cs) && pos < |cs| && cs[pos].Inline?
    ensures var id := cs[pos].id;
      && id in p && !p[id].virtual && p[id].code != [] && current in p
      && Code(cs[pos..], false) != [] && Code(cs[pos..], false)[0] == MTHD_CALL(id)
      && Code(cs[pos..], false)[1..] == Code(cs[pos + 1..], false)
      && Code(cs[pos..], true) == InlinedBody(offset, p[id].code) + Code(cs[pos + 1..], true)
  {
    assert InlineReady(p, current, offset, cs, pos);
    CodeAt(cs, pos, false);
    CodeAt(cs, pos, true);
  }

  lemma {:induction false} InlinedChunk(h: Host, p: Program, current: MethodId, offset: nat, cs: seq<Chunk>, from: bool,
                                        pos: nat, m: Machine, n: Machine, fuel: nat, d: nat, d': nat)
    requires Ready(p, current, offset, cs) && pos < |cs| && AgreeBelow(m, n, offset) && m.cls == p[current].clsMem
    requires d <= d' && (from ==> d < d') && cs[pos].Inline?
    ensures var r := Run(Activation(h, p, Code(cs, from), d), Code(cs[pos..], from), m, fuel);
      var s := Run(Activation(h, p, Code(cs, !from), d'), Code(cs[pos..], !from), n, fuel);
      !r.Timeout? ==> Visible(s) == Visible(r)
    decreases fuel, |cs| - pos, 0
  {
    hide Run, Code, Ready, InlineReady, InlinedBody;
    var id := cs[pos].id;
    InlinedParts(p, current, offset, cs, pos);
    var callee := p[id];
    // x runs the call at depth dx, y the expanded body at depth dy
    var x, y := if from then n else m, if from then m else n;
    var dx, dy := if from then d' else d, if from then d else d';
    var rest := Code(cs[pos..], false);
    RunCall(Activation(h, p, Code(cs, false), dx), rest, x, fuel);
    if |x.stack| == 0 {
      EmptyBody(Activation(h, p, Code(cs, true), dy), offset, callee.code, Code(cs[pos + 1..], true), y, fuel);
      return;
    }
    if dx == 0 { return; }
    var y' := ExpandedCall(h, p, current, offset, cs, pos, x, y, fuel, dy);
    var e := Enter(h, callee, x);
    var low, high := if from then dy else dx - 1, if from then dx - 1 else dy;
    DepthMonotone(Activation(h, p, callee.code, low), high, callee.code, e, fuel);
    var r := Run(Activation(h, p, callee.code, low), callee.code, e, fuel);
    if r.Done? {
      var x' := Leave(x, r.m);
      InlineSimulates(h, p, current, offset, cs, from, pos + 1, if from then y' else x', if from then x' else y', r.fuel, d, d');
    }
  }

  lemma EmptyBody(a: Activation, offset: nat, code: seq<Instr>, tail: seq<Instr>, m: Machine, fuel: nat)
    requires code != [] && |m.stack| == 0
    ensures Run(a, InlinedBody(offset, code) + tail, m, fuel) == Fault
  {
    var rest := InlinedBody(offset, code) + tail;
    assert rest[0] == STOR_INT_VAR(offset, LOCL);
  }

  // ----- From the pass to its chunks -----

  /** The methods a pass over code inlines, in order. */
  function InlinedIds(p: Program, current: MethodId, labels: set<int>, code: seq<Instr>, space: nat,
                      inlined: set<MethodId>): (ids: seq<MethodId>)
    requires current in p
    ensures forall id <- ids :: id in p
  {
    if code == [] then []
    else if code[0].MTHD_CALL? && CanInlineMethod(p, current, code[0].id, space, inlined, labels) then
      var id := code[0].id;
      [id] + InlinedIds(p, current, labels, code[1..], space + 8 + p[id].space, inlined + {id})
    else InlinedIds(p, current, labels, code[1..], space, inlined)
  }

  predicate ShareNoLabel(x: seq<Instr>, y: seq<Instr>) {
    forall i <- x :: i.LBL? ==> i !in y
  }

  /** What InlineMethod needs of a program that the compiler does not check. */
  ghost predicate InlineSafe(p: Program, current: MethodId, offset: nat, ids: seq<MethodId>) {
    && current in p && offset < LOCAL_WORDS
    && (forall i, j :: i in p && j in p && p[i].cls == p[j].cls ==> p[i].clsMem == p[j].clsMem)
    && (forall i :: i in p && p[i].virtual ==> p[i].code == [])
    && (forall k :: 0 <= k < |ids| ==> ids[k] in p && CalleeReady(offset, p[ids[k]].code))
    && (forall j, k :: 0 <= j < k < |ids| ==> ids[j] in p && ids[k] in p && ShareNoLabel(p[ids[k]].code, p[ids[j]].code))
  }

  /** The chunks of the pass: kept instructions of the block and inlined methods that passed the test. */
  ghost predicate PassChunk(p: Program, current: MethodId, offset: nat, labels: set<int>, code: seq<Instr>,
                            ids: seq<MethodId>, c: Chunk) {
    || (c.Keep? && c.i in code)
    || (c.Inline? && current in p && c.id in ids && c.id in p && p[c.id].cls == p[current].cls && |p[c.id].code| >= 2
        && BodyInlinable(p[c.id].code, labels, false) && c.body == InlinedBody(offset, p[c.id].code))
  }

  /** The inlined chunks of cs name ids in order. */
  function InlineOrder(cs: seq<Chunk>): seq<MethodId> {
    if cs == [] then [] else (if cs[0].Inline? then [cs[0].id] else []) + InlineOrder(cs[1..])
  }

  lemma {:induction false} InlineChunks(p: Program, current: MethodId, offset: nat, labels: set<int>, code: seq<Instr>,
                                        space: nat, inlined: set<MethodId>) returns (cs: seq<Chunk>)
    requires current in p
    ensures Code(cs, false) == code && Code(cs, true) == InlineCalls(p, current, offset, labels, code, space, inlined)
    ensures InlineOrder(cs) == InlinedIds(p, current, labels, code, space, inlined)
    ensures forall c <- cs :: PassChunk(p, current, offset, labels, code, InlineOrder(cs), c)
  {
    cs := [];
    if code == [] { return; }
    var i, ds := code[0], [];
    if i.MTHD_CALL? && CanInlineMethod(p, current, i.id, space, inlined, labels) {
      ds := InlineChunks(p, current, offset, labels, code[1..], space + 8 + p[i.id].space, inlined + {i.id});
      cs := [Inline(i.id, InlinedBody(offset, p[i.id].code))] + ds;
    } else {
      ds := InlineChunks(p, current, offset, labels, code[1..], space, inlined);
      cs := [Keep(i)] + ds;
    }
    assert cs[1..] == ds;
    forall c | c in cs ensures PassChunk(p, current, offset, labels, code, InlineOrder(cs), c) {
      if c != cs[0] { assert PassChunk(p, current, offset, labels, code[1..], InlineOrder(ds), c); }
    }
  }

  lemma {:induction false} FewerLabels(code: seq<Instr>, labels: set<int>, found: bool)
    requires BodyInlinable(code, labels, found)
    ensures BodyInlinable(code, {}, found)
  {
    if code != [] { FewerLabels(code[1..], labels, found || code[0].RTRN?); }
  }

  /** An inlined body places no label the block already uses. */
  lemma BodyLabels(code: seq<Instr>, labels: set<int>, offset: nat, l: int)
    requires code != [] && BodyInlinable(code, labels, false)
    ensures l in labels ==> LBL(l) !in code
    ensures LBL(l) in InlinedBody(offset, code) ==> LBL(l) in code
  {
    if LBL(l) in code {
      var k :| 0 <= k < |code| && code[k] == LBL(l);
      OneReturn(code, labels, false, k);
    }
    if LBL(l) in InlinedBody(offset, code) {
      RelocateLabels(offset, Front(code), l);
      assert LBL(l) in Front(code);
    }
  }

  lemma {:induction false} InCode(cs: seq<Chunk>, after: bool, i: Instr) returns (k: nat)
    requires i in Code(cs, after)
    ensures k < |cs| && i in Side(cs[k], after)
  {
    if i in Side(cs[0], after) {
      k := 0;
    } else {
      k := InCode(cs[1..], after, i);
      k := k + 1;
    }
  }

  /** Inlined chunks at j < k name ids in that order. */
  lemma {:induction false} OrderOf(cs: seq<Chunk>, j: nat, k: nat) returns (a: nat, b: nat)
    requires j < k < |cs| && cs[j].Inline? && cs[k].Inline?
    ensures a < b < |InlineOrder(cs)| && InlineOrder(cs)[a] == cs[j].id && InlineOrder(cs)[b] == cs[k].id
  {
    var n := if cs[0].Inline? then 1 else 0;
    if j == 0 {
      a := 0;
      b := IndexOf(cs[1..], k - 1);
      b := b + 1;
    } else {
      a, b := OrderOf(cs[1..], j - 1, k - 1);
      a, b := a + n, b + n;
    }
  }

  lemma {:induction false} IndexOf(cs: seq<Chunk>, k: nat) returns (b: nat)
    requires k < |cs| && cs[k].Inline?
    ensures b < |InlineOrder(cs)| && InlineOrder(cs)[b] == cs[k].id
  {
    if k == 0 {
      b := 0;
    } else {
      b := IndexOf(cs[1..], k - 1);
      if cs[0].Inline? { b := b + 1; }
    }
  }

  predicate CollectsLabels(labels: set<int>, code: seq<Instr>) {
    forall i <- code :: LabelOf(i).Some? ==> LabelOf(i).value in labels
  }

  lemma InlineReadyAt(p: Program, current: MethodId, offset: nat, labels: set<int>, code: seq<Instr>, cs: seq<Chunk>, j: nat)
    requires InlineSafe(p, current, offset, InlineOrder(cs)) && CollectsLabels(labels, code)
    requires forall c <- cs :: PassChunk(p, current, offset, labels, code, InlineOrder(cs), c)
    requires j < |cs| && cs[j].Inline?
    ensures InlineReady(p, current, offset, cs, j)
  {
    var c := cs[j];
    assert c in cs && PassChunk(p, current, offset, labels, code, InlineOrder(cs), c);
    FewerLabels(p[c.id].code, labels, false);
    forall i | i in p[c.id].code && i.LBL? ensures i !in Code(cs[..j], true) {
      if i in Code(cs[..j], true) {
        var k := InCode(cs[..j], true, i);
        assert cs[..j][k] == cs[k] && cs[k] in cs;
        ForeignLabel(p, current, offset, labels, code, cs, k, j, i.mark);
      }
    }
  }

  /** A label of an inlined method is in no chunk before it. */
  lemma ForeignLabel(p: Program, current: MethodId, offset: nat, labels: set<int>, code: seq<Instr>, cs: seq<Chunk>,
                     k: nat, j: nat, l: int)
    requires InlineSafe(p, current, offset, InlineOrder(cs)) && CollectsLabels(labels, code)
    requires k < j < |cs| && cs[j].Inline?
    requires PassChunk(p, current, offset, labels, code, InlineOrder(cs), cs[j])
    requires PassChunk(p, current, offset, labels, code, InlineOrder(cs), cs[k])
    requires LBL(l) in p[cs[j].id].code
    ensures LBL(l) !in Side(cs[k], true)
  {
    hide BodyInlinable, InlinedBody, InlineSafe, InlineOrder;
    var mine, other := p[cs[j].id].code, Side(cs[k], true);
    BodyLabels(mine, labels, offset, l);
    if cs[k].Inline? {
      BodyLabels(p[cs[k].id].code, labels, offset, l);
      var a, b := OrderOf(cs, k, j);
      SafePair(p, current, offset, InlineOrder(cs), a, b);
      hide *;
      assert ShareNoLabel(mine, p[cs[k].id].code);
      NotShared(mine, p[cs[k].id].code, l);
    } else {
      NotCollected(labels, code, cs[k].i, l);
    }
  }

  lemma NotShared(x: seq<Instr>, y: seq<Instr>, l: int)
    requires ShareNoLabel(x, y) && LBL(l) in x
    ensures LBL(l) !in y
  {
  }

  lemma NotCollected(labels: set<int>, code: seq<Instr>, i: Instr, l: int)
    requires CollectsLabels(labels, code) && i in code && l !in labels
    ensures i != LBL(l)
  {
    assert i.LBL? ==> LabelOf(i) == Some(i.mark);
  }

  lemma SafePair(p: Program, current: MethodId, offset: nat, ids: seq<MethodId>, a: nat, b: nat)
    requires InlineSafe(p, current, offset, ids) && a < b < |ids|
    ensures ids[a] in p && ids[b] in p && ShareNoLabel(p[ids[b]].code, p[ids[a]].code)
  {
  }

  lemma KeptReadyAt(p: Program, current: MethodId, labels: set<int>, code: seq<Instr>, cs: seq<Chunk>, i: Instr, offset: nat)
    requires offset == LastLocalOffset(code) + 2 && CollectsLabels(labels, code) && i in code && FunctionsBelow(code, offset)
    requires forall c <- cs :: PassChunk(p, current, offset, labels, code, InlineOrder(cs), c)
    ensures KeptReady(cs, i, offset)
  {
    if i.JMP? {
      forall c | c in cs && c.Inline? ensures LBL(i.target) !in c.body {
        assert PassChunk(p, current, offset, labels, code, InlineOrder(cs), c);
        BodyLabels(p[c.id].code, labels, offset, i.target);
      }
    }
  }

  /** Method inlining refines a call: a caller cannot tell the inlined block from the original. */
  lemma InlineCallsRefines(h: Host, p: Program, current: MethodId, labels: set<int>, code: seq<Instr>, space: nat)
    requires current in p && CollectsLabels(labels, code)
    requires FunctionsBelow(code, LastLocalOffset(code) + 2)
    requires InlineSafe(p, current, LastLocalOffset(code) + 2, InlinedIds(p, current, labels, code, space, {}))
    ensures RefinesMethod(h, p, p[current].clsMem, code,
              InlineCalls(p, current, LastLocalOffset(code) + 2, labels, code, space, {}), 1)
  {
    var offset := LastLocalOffset(code) + 2;
    var after := InlineCalls(p, current, offset, labels, code, space, {});
    var cs := InlineChunks(p, current, offset, labels, code, space, {});
    forall j | 0 <= j < |cs|
      ensures cs[j].Keep? || cs[j].Inline?
      ensures cs[j].Keep? ==> KeptReady(cs, cs[j].i, offset)
      ensures cs[j].Inline? ==> InlineReady(p, current, offset, cs, j)
    {
      assert cs[j] in cs && PassChunk(p, current, offset, labels, code, InlineOrder(cs), cs[j]);
      if cs[j].Keep? { KeptReadyAt(p, current, labels, code, cs, cs[j].i, offset); }
      else { InlineReadyAt(p, current, offset, labels, code, cs, j); }
    }
    assert Ready(p, current, offset, cs);
    forall m: Machine, fuel: nat, d: nat, d': nat | Sized(m) && m.cls == p[current].clsMem
      ensures d <= d' && !RunBody(h, p, code, m, fuel, d).Timeout? ==>
        Visible(RunBody(h, p, after, m, fuel, d')) == Visible(RunBody(h, p, code, m, fuel, d))
      ensures d' + 1 <= d && !RunBody(h, p, after, m, fuel, d').Timeout? ==>
        Visible(RunBody(h, p, code, m, fuel, d)) == Visible(RunBody(h, p, after, m, fuel, d'))
    {
      assert cs[0..] == cs;
      if d <= d' { InlineSimulates(h, p, current, offset, cs, false, 0, m, m, fuel, d, d'); }
      if d' < d { InlineSimulates(h, p, current, offset, cs, true, 0, m, m, fuel, d', d); }
    }
  }

  // ----- Frame space -----

  /** The words the block's locals occupy fit the declared bytes; the and/or slot is not counted there. */
  predicate SpaceCovers(m: Method) {
    forall i <- m.code :: IsVariable(i) && i.ctx == LOCL ==> forall x <- SlotsOf(i) :: 0 <= x && 4 * (x + 1) <= m.space + 4
  }

  /** The memory bound of the inlining test keeps relocated slots inside a frame. */
  lemma RelocatedSlotsFit(p: Program, current: MethodId, id: MethodId, space: nat, inlined: set<MethodId>, labels: set<int>)
    requires current in p && SpaceCovers(p[current]) && space >= p[current].space
    requires CanInlineMethod(p, current, id, space, inlined, labels) && SpaceCovers(p[id])
    requires forall i <- p[id].code :: IsFunctionVariable(i) ==> i.ctx != LOCL
    ensures var offset := LastLocalOffset(p[current].code) + 2;
      offset < LOCAL_WORDS && forall i <- p[id].code :: SlotsFit(offset, i)
  {
    LastLocalNamed(p[current].code);
  }

  lemma {:induction false} LastLocalNamed(code: seq<Instr>)
    ensures LastLocalOffset(code) > 0 ==>
      exists i <- code :: IsVariable(i) && i.ctx == LOCL && LastLocalOffset(code) in SlotsOf(i)
  {
    if code != [] {
      LastLocalNamed(code[1..]);
      if LastLocalOffset(code) > 0 && LastLocalOffset(code) == LastLocalOffset(code[1..]) {
        var i :| i in code[1..] && IsVariable(i) && i.ctx == LOCL && LastLocalOffset(code) in SlotsOf(i);
        assert i in code;
      } else if LastLocalOffset(code) > 0 {
        assert code[0] in code && LastLocalOffset(code) in SlotsOf(code[0]);
      }
    }
  }
}
