// A label that comes into a caller twice: the inlining pass accepts it, and the program is not the same.

module TwiceInlined {
  import opened Wrappers
  import opened Words
  import opened Bytecode
  import opened Simulation
  import opened Passes
  import opened Inlining
  import opened InlineMethod
  import opened Programs
  import opened Pipeline
  import opened InlineLimits
  import opened Accessors
  import opened Untouched

  const TOP: MethodId := (0, 0)
  const MIDDLE: MethodId := (0, 1)
  const LEAF: MethodId := (0, 2)

  /** A method with a jump forward to label 7. */
  function LeafFront(): seq<Instr> {
    [LOAD_INT_LIT(1)] + ([JMP(7, 1)] + ([POP_INT] + [LBL(7)]))
  }

  function MiddleCode(): seq<Instr> {
    [LOAD_INST_MEM] + ([MTHD_CALL(LEAF)] + [RTRN])
  }

  /** Calls the middle method, which calls the leaf, and then the leaf itself. */
  function TopCode(): seq<Instr> {
    [LOAD_INST_MEM] + ([MTHD_CALL(MIDDLE)] + ([LOAD_INST_MEM] + ([MTHD_CALL(LEAF)] + [RTRN])))
  }

  function Three(): Program {
    map[TOP := Body(TopCode()), MIDDLE := Body(MiddleCode()), LEAF := Body(LeafFront() + [RTRN])]
  }

  /** The middle method with the leaf inlined, but for its return. */
  function MiddleFront(): seq<Instr> {
    [LOAD_INST_MEM] + ([STOR_INT_VAR(2, LOCL)] + LeafFront())
  }

  /** The same again, moved into the top method's frame. */
  function MovedMiddle(): seq<Instr> {
    [LOAD_INT_VAR(2, LOCL)] + ([STOR_INT_VAR(5, LOCL)] + LeafFront())
  }

  /** What follows the first copy of label 7 in the top method. */
  function Behind(): seq<Instr> {
    [LOAD_INST_MEM] + (([STOR_INT_VAR(2, LOCL)] + LeafFront()) + [RTRN])
  }

  function TopInlined(): seq<Instr> {
    [LOAD_INST_MEM] + (([STOR_INT_VAR(2, LOCL)] + MovedMiddle()) + Behind())
  }

  // ----- What the pass does -----

  lemma Scan(i: Instr, rest: seq<Instr>, labels: set<int>, found: bool)
    requires IsVariable(i) ==> i.ctx == LOCL
    requires !i.TRAP? && !i.OTHER? && (LabelOf(i).Some? ==> LabelOf(i).value !in labels) && !(i.RTRN? && found)
    requires BodyInlinable(rest, labels, found || i.RTRN?)
    ensures BodyInlinable([i] + rest, labels, found)
  {
    assert ([i] + rest)[1..] == rest;
  }

  lemma LeafScanned(labels: set<int>)
    requires 7 !in labels
    ensures BodyInlinable(LeafFront() + [RTRN], labels, false)
  {
    assert BodyInlinable([RTRN][1..], labels, true);
    assert BodyInlinable([RTRN], labels, false);
    hide BodyInlinable;
    Scan(LBL(7), [RTRN], labels, false);
    Scan(POP_INT, [LBL(7)] + [RTRN], labels, false);
    Scan(JMP(7, 1), [POP_INT] + ([LBL(7)] + [RTRN]), labels, false);
    Scan(LOAD_INT_LIT(1), [JMP(7, 1)] + ([POP_INT] + ([LBL(7)] + [RTRN])), labels, false);
    assert LeafFront() + [RTRN] == [LOAD_INT_LIT(1)] + ([JMP(7, 1)] + ([POP_INT] + ([LBL(7)] + [RTRN])));
  }

  lemma MiddleScanned(labels: set<int>)
    requires 7 !in labels
    ensures BodyInlinable(MiddleFront() + [RTRN], labels, false)
  {
    LeafScanned(labels);
    var leaf := LeafFront() + [RTRN];
    hide BodyInlinable;
    Scan(STOR_INT_VAR(2, LOCL), leaf, labels, false);
    Scan(LOAD_INST_MEM, [STOR_INT_VAR(2, LOCL)] + leaf, labels, false);
    assert MiddleFront() + [RTRN] == [LOAD_INST_MEM] + ([STOR_INT_VAR(2, LOCL)] + leaf);
  }

  lemma Relocates(offset: nat, i: Instr, rest: seq<Instr>)
    ensures RelocateAll(offset, [i] + rest) == [Relocate(offset, i)] + RelocateAll(offset, rest)
  {
    assert ([i] + rest)[1..] == rest;
  }

  lemma LeafRelocated()
    ensures RelocateAll(2, LeafFront()) == LeafFront()
  {
    var empty: seq<Instr> := [];
    assert [LBL(7)] + empty == [LBL(7)] && RelocateAll(2, empty) == empty;
    Relocates(2, LBL(7), empty);
    Relocates(2, POP_INT, [LBL(7)]);
    Relocates(2, JMP(7, 1), [POP_INT] + [LBL(7)]);
    Relocates(2, LOAD_INT_LIT(1), [JMP(7, 1)] + ([POP_INT] + [LBL(7)]));
  }

  lemma BodiesInlined()
    ensures InlinedBody(2, LeafFront() + [RTRN]) == [STOR_INT_VAR(2, LOCL)] + LeafFront()
    ensures InlinedBody(2, MiddleFront() + [RTRN]) == [STOR_INT_VAR(2, LOCL)] + MovedMiddle()
  {
    hide *;
    BodyOf(LeafFront());
    BodyOf(MiddleFront());
    LeafRelocated();
    MiddleMoved();
  }

  lemma BodyOf(front: seq<Instr>)
    ensures InlinedBody(2, front + [RTRN]) == [STOR_INT_VAR(2, LOCL)] + RelocateAll(2, front)
  {
    assert Front(front + [RTRN]) == front;
  }

  lemma MiddleMoved()
    ensures RelocateAll(2, MiddleFront()) == MovedMiddle()
  {
    LeafRelocated();
    hide RelocateAll, LeafFront;
    Relocates(2, STOR_INT_VAR(2, LOCL), LeafFront());
    Relocates(2, LOAD_INST_MEM, [STOR_INT_VAR(2, LOCL)] + LeafFront());
  }

  lemma Bodies(code: seq<Instr>)
    ensures Body(code) == Method(0, 0, "", "", false, 0, 8, code)
  {
  }

  lemma NoNames(p: Program, current: MethodId, id: MethodId, space: nat, inlined: set<MethodId>, labels: set<int>)
    requires current in p && id in p && id != current && id !in inlined
    requires p[current].name == p[id].name == p[id].clsName == "" && p[id].cls == p[current].cls
    requires space + p[id].space <= LOCL_INLINE_MEM_MAX && |p[id].code| >= 2 && BodyInlinable(p[id].code, labels, false)
    ensures CanInlineMethod(p, current, id, space, inlined, labels)
  {
    assert !Contains("", ":New:") && !Contains("", ":Main:o.System.String*,");
  }

  lemma NothingNamed(i: Instr, rest: seq<Instr>)
    requires LabelOf(i).None? && !IsVariable(i)
    ensures LabelsOf([i] + rest) == LabelsOf(rest) && LastLocalOffset([i] + rest) == LastLocalOffset(rest)
  {
    assert ([i] + rest)[1..] == rest;
  }

  lemma OwnLabelsAndLocals()
    ensures LabelsOf(MiddleCode()) == {} && LastLocalOffset(MiddleCode()) == 0
    ensures LabelsOf(TopCode()) == {} && LastLocalOffset(TopCode()) == 0
  {
    assert [RTRN][1..] == [] && LabelsOf([RTRN]) == {} && LastLocalOffset([RTRN]) == 0;
    hide *;
    var middle := [MTHD_CALL(LEAF)] + [RTRN];
    NothingNamed(MTHD_CALL(LEAF), [RTRN]);
    NothingNamed(LOAD_INST_MEM, middle);
    NothingNamed(MTHD_CALL(MIDDLE), [LOAD_INST_MEM] + middle);
    NothingNamed(LOAD_INST_MEM, [MTHD_CALL(MIDDLE)] + ([LOAD_INST_MEM] + middle));
    assert MiddleCode() == [LOAD_INST_MEM] + middle && TopCode() == [LOAD_INST_MEM] + ([MTHD_CALL(MIDDLE)] + ([LOAD_INST_MEM] + middle)) by {
      MiddleShape();
    }
  }

  lemma MiddleShape()
    ensures MiddleCode() == [LOAD_INST_MEM] + ([MTHD_CALL(LEAF)] + [RTRN])
    ensures TopCode() == [LOAD_INST_MEM] + ([MTHD_CALL(MIDDLE)] + MiddleCode())
  {
  }

  lemma Into(p: Program, id: MethodId, reserved: int)
    requires id in p
    ensures var m, labels := p[id], LabelsOf(p[id].code) + {reserved};
      InlineInto(p, id, reserved) ==
        m.(code := InlineCalls(p, id, LastLocalOffset(m.code) + 2, labels, m.code, m.space, {}),
           space := m.space + InlinedSpace(p, InlinedIds(p, id, labels, m.code, m.space, {})))
  {
    hide InlineCalls, InlinedIds, LabelsOf, LastLocalOffset, InlinedSpace, CanInlineMethod;
  }

  /** First the middle method takes in the leaf. */
  lemma MiddleTakesLeaf(p: Program, reserved: int)
    requires reserved != 7 && MIDDLE in p && LEAF in p && p[MIDDLE] == Body(MiddleCode()) && p[LEAF] == Body(LeafFront() + [RTRN])
    ensures InlineInto(p, MIDDLE, reserved) == Body(MiddleFront() + [RTRN]).(space := 24)
  {
    var labels := LabelsOf(MiddleCode()) + {reserved};
    hide *;
    Bodies(MiddleCode());
    Bodies(MiddleFront() + [RTRN]);
    Bodies(LeafFront() + [RTRN]);
    MiddleAllowed(p, labels, reserved);
    Into(p, MIDDLE, reserved);
    MiddleTaken(p, labels);
    SpaceOfLeaf(p);
  }

  lemma MiddleTaken(p: Program, labels: set<int>)
    requires MIDDLE in p && CanInlineMethod(p, MIDDLE, LEAF, 8, {}, labels) && p[LEAF].space == 8 && p[LEAF].code == LeafFront() + [RTRN]
    ensures InlineCalls(p, MIDDLE, 2, labels, MiddleCode(), 8, {}) == MiddleFront() + [RTRN]
    ensures InlinedIds(p, MIDDLE, labels, MiddleCode(), 8, {}) == [LEAF]
  {
    hide *;
    MiddleShape();
    OwnCallTaken(p, MIDDLE, labels, LEAF, [RTRN], 8, {});
    ReturnOnly(p, MIDDLE, 2, labels, 24, {} + {LEAF});
    BodiesInlined();
    assert [LEAF] + [] == [LEAF];
    MiddleWhole();
  }

  lemma MiddleWhole()
    ensures [LOAD_INST_MEM] + (([STOR_INT_VAR(2, LOCL)] + LeafFront()) + [RTRN]) == MiddleFront() + [RTRN]
  {
  }

  lemma MiddleAllowed(p: Program, labels: set<int>, reserved: int)
    requires MIDDLE in p && LEAF in p && p[MIDDLE] == Body(MiddleCode()) && p[LEAF] == Body(LeafFront() + [RTRN])
    requires labels == LabelsOf(MiddleCode()) + {reserved} && reserved != 7
    ensures CanInlineMethod(p, MIDDLE, LEAF, 8, {}, labels) && LastLocalOffset(MiddleCode()) == 0
  {
    hide CanInlineMethod, LeafFront, LastLocalOffset, LabelsOf, MiddleCode;
    OwnLabelsAndLocals();
    LeafScanned(labels);
    LeafLong();
    NoNames(p, MIDDLE, LEAF, 8, {}, labels);
  }

  lemma LeafLong()
    ensures |LeafFront()| >= 2 && |MiddleFront()| >= 2
  {
  }

  lemma TopAllowed(p: Program, labels: set<int>, reserved: int)
    requires TOP in p && MIDDLE in p && LEAF in p && p[TOP] == Body(TopCode())
    requires p[MIDDLE] == Body(MiddleFront() + [RTRN]).(space := 24) && p[LEAF] == Body(LeafFront() + [RTRN])
    requires labels == LabelsOf(TopCode()) + {reserved} && reserved != 7
    ensures CanInlineMethod(p, TOP, MIDDLE, 8, {}, labels) && CanInlineMethod(p, TOP, LEAF, 40, {} + {MIDDLE}, labels)
    ensures LastLocalOffset(TopCode()) == 0
  {
    hide CanInlineMethod, LeafFront, MiddleFront, LastLocalOffset, LabelsOf, TopCode;
    OwnLabelsAndLocals();
    LeafScanned(labels);
    MiddleScanned(labels);
    LeafLong();
    NoNames(p, TOP, MIDDLE, 8, {}, labels);
    NoNames(p, TOP, LEAF, 40, {} + {MIDDLE}, labels);
  }

  lemma BothTaken(p: Program, labels: set<int>)
    requires TOP in p && CanInlineMethod(p, TOP, MIDDLE, 8, {}, labels) && p[MIDDLE].space == 24
    requires CanInlineMethod(p, TOP, LEAF, 40, {} + {MIDDLE}, labels)
    ensures InlineCalls(p, TOP, 2, labels, [LOAD_INST_MEM] + ([MTHD_CALL(MIDDLE)] + MiddleCode()), 8, {}) ==
      [LOAD_INST_MEM] + (InlinedBody(2, p[MIDDLE].code) + ([LOAD_INST_MEM] + (InlinedBody(2, p[LEAF].code) + [RTRN])))
  {
    hide CanInlineMethod, InlineCalls, InlinedBody;
    OwnCallTaken(p, TOP, labels, MIDDLE, MiddleCode(), 8, {});
    OwnCallTaken(p, TOP, labels, LEAF, [RTRN], 40, {} + {MIDDLE});
    ReturnOnly(p, TOP, 2, labels, 48 + p[LEAF].space, {} + {MIDDLE} + {LEAF});
  }

  lemma SpaceOfLeaf(p: Program)
    requires LEAF in p && p[LEAF].space == 8
    ensures InlinedSpace(p, [LEAF]) == 16
  {
    assert [LEAF][1..] == [];
  }

  lemma OwnCallTaken(p: Program, current: MethodId, labels: set<int>, id: MethodId, rest: seq<Instr>, space: nat, inlined: set<MethodId>)
    requires current in p && CanInlineMethod(p, current, id, space, inlined, labels)
    ensures var code, more := [LOAD_INST_MEM] + ([MTHD_CALL(id)] + rest), space + 8 + p[id].space;
      && InlineCalls(p, current, 2, labels, code, space, inlined) ==
           [LOAD_INST_MEM] + (InlinedBody(2, p[id].code) + InlineCalls(p, current, 2, labels, rest, more, inlined + {id}))
      && InlinedIds(p, current, labels, code, space, inlined) == [id] + InlinedIds(p, current, labels, rest, more, inlined + {id})
  {
    hide CanInlineMethod, InlineCalls, InlinedIds, InlinedBody;
    TakenCall(p, current, 2, labels, id, rest, space, inlined);
    KeptInstr(p, current, 2, labels, LOAD_INST_MEM, [MTHD_CALL(id)] + rest, space, inlined);
  }

  /** Then the top method takes in both; label 7 is not among its own, so nothing stops the second copy. */
  lemma TopTakesBoth(p: Program, reserved: int)
    requires reserved != 7 && TOP in p && MIDDLE in p && LEAF in p && p[TOP] == Body(TopCode())
    requires p[MIDDLE] == Body(MiddleFront() + [RTRN]).(space := 24) && p[LEAF] == Body(LeafFront() + [RTRN])
    ensures InlineInto(p, TOP, reserved).code == TopInlined()
  {
    var labels := LabelsOf(TopCode()) + {reserved};
    hide *;
    Bodies(TopCode());
    Bodies(MiddleFront() + [RTRN]);
    Bodies(LeafFront() + [RTRN]);
    TopAllowed(p, labels, reserved);
    Into(p, TOP, reserved);
    TopTaken(p, labels);
  }

  lemma TopTaken(p: Program, labels: set<int>)
    requires TOP in p && CanInlineMethod(p, TOP, MIDDLE, 8, {}, labels) && p[MIDDLE].space == 24
    requires CanInlineMethod(p, TOP, LEAF, 40, {} + {MIDDLE}, labels)
    requires p[MIDDLE].code == MiddleFront() + [RTRN] && p[LEAF].code == LeafFront() + [RTRN]
    ensures InlineCalls(p, TOP, 2, labels, TopCode(), 8, {}) == TopInlined()
  {
    hide *;
    TopShape();
    BothTaken(p, labels);
    BodiesInlined();
  }

  lemma TopShape()
    ensures TopCode() == [LOAD_INST_MEM] + ([MTHD_CALL(MIDDLE)] + MiddleCode())
    ensures TopInlined() == [LOAD_INST_MEM] + (([STOR_INT_VAR(2, LOCL)] + MovedMiddle())
                                               + ([LOAD_INST_MEM] + (([STOR_INT_VAR(2, LOCL)] + LeafFront()) + [RTRN])))
  {
  }

  // ----- What comes of it -----

  /** Both copies of the label are placed; a jump finds the first. */
  lemma TwoLabels()
    ensures !UniqueLabels(TopInlined()) && AfterLabel(TopInlined(), 7) == Some(Behind())
  {
    var head := [LOAD_INST_MEM, STOR_INT_VAR(2, LOCL), LOAD_INT_VAR(2, LOCL), STOR_INT_VAR(5, LOCL)]
      + [LOAD_INT_LIT(1), JMP(7, 1), POP_INT];
    var tail := [LOAD_INST_MEM, STOR_INT_VAR(2, LOCL), LOAD_INT_LIT(1), JMP(7, 1), POP_INT, LBL(7), RTRN];
    assert Behind() == tail && TopInlined() == head + ([LBL(7)] + tail);
    assert TopInlined()[7] == LBL(7) == TopInlined()[13];
    SkipSimple(head, [LBL(7)] + tail, 7);
    assert ([LBL(7)] + tail)[1..] == tail;
  }

  /** Pushing 1 and branching on 1 is a jump. */
  lemma JumpsAlways(a: Activation, l: int, tail: seq<Instr>, m: Machine, fuel: nat)
    ensures Run(a, [LOAD_INT_LIT(1)] + ([JMP(l, 1)] + tail), m, fuel) ==
      (match Jump(a.code, l, [JMP(l, 1)] + tail, m, fuel)
       case Halt(o) => o
       case Goto(rest, m', left) => Run(a, rest, m', left))
  {
    hide Jump;
    var n, rest := m.(stack := [1] + m.stack), [JMP(l, 1)] + tail;
    RunStraight(a, [LOAD_INT_LIT(1)], rest, m, fuel);
    StraightOne(a.host, LOAD_INT_LIT(1), m);
    assert n.stack[1..] == m.stack && n.(stack := m.stack) == m;
  }

  /** Moving the word that i pushes to a slot. */
  lemma Moves(a: Activation, i: Instr, slot: int, w: int, rest: seq<Instr>, m: Machine, fuel: nat)
    requires !IsControl(i) && Step(a.host, i, m) == Some(m.(stack := [w] + m.stack)) && 0 <= slot < |m.locals|
    ensures Run(a, [i] + ([STOR_INT_VAR(slot, LOCL)] + rest), m, fuel) == Run(a, rest, m.(locals := m.locals[slot := w]), fuel)
  {
    var n := m.(stack := [w] + m.stack);
    assert n.stack[1..] == m.stack;
    RunStraight(a, [i], [STOR_INT_VAR(slot, LOCL)] + rest, m, fuel);
    StraightOne(a.host, i, m);
    RunStraight(a, [STOR_INT_VAR(slot, LOCL)], rest, n, fuel);
    StraightOne(a.host, STOR_INT_VAR(slot, LOCL), n);
  }

  lemma LoadsSlot(h: Host, slot: int, m: Machine)
    requires 0 <= slot < |m.locals|
    ensures Step(h, LOAD_INT_VAR(slot, LOCL), m) == Some(m.(stack := [m.locals[slot]] + m.stack))
  {
  }

  lemma SizedMoved(m: Machine)
    requires Sized(m)
    ensures |m.locals| > 2 && Sized(m.(locals := m.locals[2 := m.inst]))
  {
  }

  lemma BehindShape(tail: seq<Instr>)
    requires tail == [POP_INT] + ([LBL(7)] + [RTRN])
    ensures Behind() == [LOAD_INST_MEM] + ([STOR_INT_VAR(2, LOCL)] + ([LOAD_INT_LIT(1)] + ([JMP(7, 1)] + tail)))
  {
  }

  lemma JumpsBack(a: Activation, rest: seq<Instr>, m: Machine, fuel: nat)
    requires a.code == TopInlined() && |rest| < |Behind()|
    ensures Jump(a.code, 7, rest, m, fuel) == if fuel == 0 then Halt(Timeout) else Goto(Behind(), m, fuel - 1)
  {
    TwoLabels();
  }

  /** The jump of the second copy goes back to the label of the first, for ever. */
  lemma {:induction false} GoesRound(a: Activation, m: Machine, fuel: nat)
    requires a.code == TopInlined() && Sized(m)
    ensures Run(a, Behind(), m, fuel) == Timeout
    decreases fuel
  {
    SizedMoved(m);
    var tail, n := [POP_INT] + ([LBL(7)] + [RTRN]), m.(locals := m.locals[2 := m.inst]);
    hide *;
    BehindShape(tail);
    LoadsInstance(a.host, m);
    Moves(a, LOAD_INST_MEM, 2, m.inst, [LOAD_INT_LIT(1)] + ([JMP(7, 1)] + tail), m, fuel);
    JumpsAlways(a, 7, tail, n, fuel);
    JumpsBack(a, [JMP(7, 1)] + tail, n, fuel);
    if fuel > 0 { GoesRound(a, n, fuel - 1); }
  }

  lemma InlinedNeverReturns(h: Host, p: Program, m: Machine, fuel: nat, d: nat)
    requires TOP in p && p[TOP].code == TopInlined() && !p[TOP].virtual && |m.stack| > 0
    ensures Call(h, p, TOP, m, fuel, d) == Timeout
  {
    var a, e := Activation(h, p, TopInlined(), d), Enter(h, p[TOP], m);
    var tail := [POP_INT] + ([LBL(7)] + Behind());
    var jump := [LOAD_INT_LIT(1)] + ([JMP(7, 1)] + tail);
    var move := [LOAD_INT_VAR(2, LOCL)] + ([STOR_INT_VAR(5, LOCL)] + jump);
    var n := e.(locals := e.locals[2 := e.inst]);
    var n' := n.(locals := n.locals[5 := n.locals[2]]);
    assert TopInlined() == [LOAD_INST_MEM] + ([STOR_INT_VAR(2, LOCL)] + move);
    assert |Behind()| < |[JMP(7, 1)] + tail|;
    TwoLabels();
    LoadsInstance(h, e);
    LoadsSlot(h, 2, n);
    assert Call(h, p, TOP, m, fuel, d) == Timeout <== Run(a, TopInlined(), e, fuel) == Timeout;
    hide *;
    Moves(a, LOAD_INST_MEM, 2, e.inst, move, e, fuel);
    Moves(a, LOAD_INT_VAR(2, LOCL), 5, n.locals[2], jump, n, fuel);
    JumpsAlways(a, 7, tail, n', fuel);
    GoesRound(a, n', fuel);
  }

  /** The leaf jumps over one instruction and returns. */
  lemma LeafReturns(h: Host, p: Program, m: Machine, fuel: nat, d: nat)
    ensures RunBody(h, p, LeafFront() + [RTRN], m, fuel, d) == Done(m, fuel)
  {
    var code := LeafFront() + [RTRN];
    var a := Activation(h, p, code, d);
    var rest := [JMP(7, 1), POP_INT, LBL(7), RTRN];
    assert code == [LOAD_INT_LIT(1)] + rest && code == [LOAD_INT_LIT(1), JMP(7, 1), POP_INT] + ([LBL(7)] + [RTRN]);
    RunStraight(a, [LOAD_INT_LIT(1)], rest, m, fuel);
    StraightOne(h, LOAD_INT_LIT(1), m);
    SkipSimple([LOAD_INT_LIT(1), JMP(7, 1), POP_INT], [LBL(7)] + [RTRN], 7);
    assert ([LBL(7)] + [RTRN])[1..] == [RTRN] && ([1] + m.stack)[1..] == m.stack;
    assert Run(a, [RTRN], m, fuel) == Done(m, fuel);
  }

  /** A call on the own instance of a method that changes nothing changes nothing. */
  lemma CallsIdly(a: Activation, id: MethodId, rest: seq<Instr>, m: Machine, fuel: nat)
    requires a.depth > 0 && id in a.program && !a.program[id].virtual
    requires forall e: Machine :: RunBody(a.host, a.program, a.program[id].code, e, fuel, a.depth - 1) == Done(e, fuel)
    ensures Run(a, [LOAD_INST_MEM] + ([MTHD_CALL(id)] + rest), m, fuel) == Run(a, rest, m, fuel)
  {
    var n, tail := m.(stack := [m.inst] + m.stack), [MTHD_CALL(id)] + rest;
    RunStraight(a, [LOAD_INST_MEM], tail, m, fuel);
    StraightOne(a.host, LOAD_INST_MEM, m);
    RunCall(a, tail, n, fuel);
    var e := Enter(a.host, a.program[id], n);
    assert RunBody(a.host, a.program, a.program[id].code, e, fuel, a.depth - 1) == Done(e, fuel);
    assert Leave(n, e) == n.(stack := m.stack) == m && tail[1..] == rest;
  }

  lemma MiddleReturns(h: Host, m: Machine, fuel: nat)
    ensures RunBody(h, Three(), MiddleCode(), m, fuel, 1) == Done(m, fuel)
  {
    var a := Activation(h, Three(), MiddleCode(), 1);
    forall e: Machine ensures RunBody(h, Three(), Three()[LEAF].code, e, fuel, 0) == Done(e, fuel) {
      LeafReturns(h, Three(), e, fuel, 0);
    }
    CallsIdly(a, LEAF, [RTRN], m, fuel);
    assert Run(a, [RTRN], m, fuel) == Done(m, fuel);
  }

  /** Before inlining the top method returns. */
  lemma TopReturns(h: Host, m: Machine, fuel: nat)
    requires |m.stack| > 0
    ensures Call(h, Three(), TOP, m, fuel, 2) == Done(m.(stack := m.stack[1..]), fuel)
  {
    var p := Three();
    var a, e := Activation(h, p, TopCode(), 2), Enter(h, p[TOP], m);
    forall x: Machine
      ensures RunBody(h, p, p[MIDDLE].code, x, fuel, 1) == Done(x, fuel)
      ensures RunBody(h, p, p[LEAF].code, x, fuel, 1) == Done(x, fuel)
    {
      MiddleReturns(h, x, fuel);
      LeafReturns(h, p, x, fuel, 1);
    }
    CallsIdly(a, MIDDLE, [LOAD_INST_MEM] + ([MTHD_CALL(LEAF)] + [RTRN]), e, fuel);
    CallsIdly(a, LEAF, [RTRN], e, fuel);
    assert Run(a, [RTRN], e, fuel) == Done(e, fuel);
    assert p[TOP].code == TopCode();
  }

  /** The program as the inlining pass leaves it, the middle method first. */
  function Afterwards(reserved: int): Program {
    var p := Three()[MIDDLE := InlineInto(Three(), MIDDLE, reserved)];
    p[TOP := InlineInto(p, TOP, reserved)]
  }

  // ----- The optimizer's own schedule -----

  lemma NotAccessors()
    ensures !Inlinable(Three(), MTHD_CALL(LEAF)) && !Inlinable(Three(), MTHD_CALL(MIDDLE))
  {
  }

  lemma LeafInert(p: Program)
    ensures Inert(p, LeafFront() + [RTRN])
  {
    assert LeafFront() + [RTRN] == [LOAD_INT_LIT(1)] + ([JMP(7, 1)] + ([POP_INT] + ([LBL(7)] + [RTRN])));
    hide Inert, LeafFront;
    InertReturn(p);
    InertStep(p, LBL(7), [RTRN]);
    InertStep(p, POP_INT, [LBL(7)] + [RTRN]);
    InertStep(p, JMP(7, 1), [POP_INT] + ([LBL(7)] + [RTRN]));
    InertStep(p, LOAD_INT_LIT(1), [JMP(7, 1)] + ([POP_INT] + ([LBL(7)] + [RTRN])));
  }

  lemma ThreeInert()
    ensures Inert(Three(), LeafFront() + [RTRN]) && Inert(Three(), MiddleCode()) && Inert(Three(), TopCode())
  {
    hide Inert, LeafFront, Inlinable, Three;
    NotAccessors();
    LeafInert(Three());
    InertReturn(Three());
    InertOwnCall(Three(), LEAF, [RTRN]);
    InertOwnCall(Three(), MIDDLE, MiddleCode());
  }

  lemma ThreeUntouched()
    ensures Still(Three(), [LEAF, MIDDLE, TOP])
  {
    var p := Three();
    hide Inert, Still;
    ThreeInert();
    assert StillMethod(p, LEAF) && StillMethod(p, MIDDLE) && StillMethod(p, TOP);
    ThreeStill(p, LEAF, MIDDLE, TOP);
  }

  /** From level 3 on, the methods of the class in this order. */
  lemma OptimizerRuns(h: Host, level: int, reserved: int)
    requires level > 2
    ensures RunPasses(h, Three(), level, reserved, Schedule([[LEAF, MIDDLE, TOP]])) == Some(Afterwards(reserved))
  {
    var p, rest := Three(), [Pass.Inline(LEAF)] + ([Pass.Inline(MIDDLE)] + ([Pass.Inline(TOP)] + []));
    var q := p[MIDDLE := InlineInto(p, MIDDLE, reserved)];
    assert forall i <- p[LEAF].code :: !i.MTHD_CALL?;
    ThreeUntouched();
    hide InlineInto, Three, Schedule, OptimizeEach, RunPass;
    ThreeMethods(LEAF, MIDDLE, TOP);
    StillOptimizes(h, p, level, reserved, [LEAF, MIDDLE, TOP], rest);
    InlinesNothing(h, p, level, reserved, LEAF, [Pass.Inline(MIDDLE)] + ([Pass.Inline(TOP)] + []));
    InlinesOne(h, p, level, reserved, MIDDLE, [Pass.Inline(TOP)] + []);
    InlinesOne(h, q, level, reserved, TOP, []);
  }

  /** A method with a label that reaches a caller on two ways is placed there twice, and a call that returned
      does not return any more. */
  lemma LabelTwiceDiverges(h: Host, level: int, reserved: int)
    requires level > 2 && reserved != 7
    ensures var q := RunPasses(h, Three(), level, reserved, Schedule([[LEAF, MIDDLE, TOP]]));
      q.Some? && TOP in q.value && !UniqueLabels(q.value[TOP].code) && !CoTerminate(h, Three(), q.value)
  {
    OptimizerRuns(h, level, reserved);
    AfterwardsDiverges(h, reserved);
  }

  lemma AfterwardsDiverges(h: Host, reserved: int)
    requires reserved != 7
    ensures !UniqueLabels(Afterwards(reserved)[TOP].code)
    ensures !CoTerminate(h, Three(), Afterwards(reserved))
  {
    var p := Three()[MIDDLE := InlineInto(Three(), MIDDLE, reserved)];
    MiddleTakesLeaf(Three(), reserved);
    TopTakesBoth(p, reserved);
    TwoLabels();
    var q := Afterwards(reserved);
    hide InlineInto, TopInlined, UniqueLabels, Call, Three;
    var m := Machine([1], [], 1, 0, map[], 0);
    var r := Done(m.(stack := m.stack[1..]), 0);
    TopReturns(h, m, 0);
    assert Reaches(h, Three(), TOP, m, 0, r);
    forall d: nat ensures Call(h, q, TOP, m, 0, d) != r { InlinedNeverReturns(h, q, m, 0, d); }
    assert !Reaches(h, q, TOP, m, 0, r);
  }
}
