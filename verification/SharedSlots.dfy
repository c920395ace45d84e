// All inlined callees share one range of the caller's slots: a callee that reads a local it has not written
// finds there what another one left.

module SharedSlots {
  import opened Wrappers
  import opened Words
  import opened Bytecode
  import opened Simulation
  import opened Passes
  import opened Accessors
  import opened Inlining
  import opened InlineMethod
  import opened Programs
  import opened Pipeline
  import opened InlineLimits
  import opened TwiceInlined
  import opened Untouched

  const WRITER: MethodId := (0, 1)
  const READER: MethodId := (0, 2)

  function WriterFront(v: int, x: nat): seq<Instr> {
    [LOAD_INT_LIT(v)] + [STOR_INT_VAR(x, LOCL)]
  }

  /** Declares local y, does not assign it, and returns it. */
  function ReaderFront(y: nat): seq<Instr> {
    [LOAD_INT_VAR(y, LOCL)]
  }

  function SharingCode(): seq<Instr> {
    [LOAD_INST_MEM] + ([MTHD_CALL(WRITER)] + ([LOAD_INST_MEM] + ([MTHD_CALL(READER)] + [RTRN])))
  }

  /** A method that assigns v to its local x, one that returns its local y, and one that calls the two. */
  function Sharing(v: int, x: nat, y: nat): Program {
    map[CALLER := Body(SharingCode()), WRITER := Body(WriterFront(v, x) + [RTRN]), READER := Body(ReaderFront(y) + [RTRN])]
  }

  function SharingInlined(v: int, x: nat, y: nat): seq<Instr> {
    [LOAD_INST_MEM] + (([STOR_INT_VAR(2, LOCL)] + WriterFront(v, x + 3)) +
      ([LOAD_INST_MEM] + (([STOR_INT_VAR(2, LOCL)] + ReaderFront(y + 3)) + [RTRN])))
  }

  // ----- What the optimizer does -----

  lemma SharingAccessors(v: int, x: nat, y: nat)
    ensures !Inlinable(Sharing(v, x, y), MTHD_CALL(WRITER)) && !Inlinable(Sharing(v, x, y), MTHD_CALL(READER))
  {
  }

  lemma SharingInert(p: Program, v: int, x: nat, y: nat)
    requires !Inlinable(p, MTHD_CALL(WRITER)) && !Inlinable(p, MTHD_CALL(READER))
    ensures Inert(p, SharingCode()) && Inert(p, WriterFront(v, x) + [RTRN]) && Inert(p, ReaderFront(y) + [RTRN])
  {
    assert WriterFront(v, x) + [RTRN] == [LOAD_INT_LIT(v)] + ([STOR_INT_VAR(x, LOCL)] + [RTRN]);
    hide Inert, WriterFront, Inlinable;
    InertReturn(p);
    InertOwnCall(p, READER, [RTRN]);
    InertOwnCall(p, WRITER, [LOAD_INST_MEM] + ([MTHD_CALL(READER)] + [RTRN]));
    NoCall(p, LOAD_INT_VAR(y, LOCL));
    InertStep(p, LOAD_INT_VAR(y, LOCL), [RTRN]);
    NoCall(p, STOR_INT_VAR(x, LOCL));
    NoCall(p, LOAD_INT_LIT(v));
    InertStep(p, STOR_INT_VAR(x, LOCL), [RTRN]);
    InertStep(p, LOAD_INT_LIT(v), [STOR_INT_VAR(x, LOCL)] + [RTRN]);
  }

  lemma SharingUntouched(v: int, x: nat, y: nat)
    ensures Still(Sharing(v, x, y), [WRITER, READER, CALLER])
  {
    var p := Sharing(v, x, y);
    hide Inert, Still, Inlinable;
    SharingAccessors(v, x, y);
    SharingInert(p, v, x, y);
    assert StillMethod(p, WRITER) && StillMethod(p, READER) && StillMethod(p, CALLER);
    ThreeStill(p, WRITER, READER, CALLER);
  }

  lemma SharingScanned(v: int, x: nat, y: nat, labels: set<int>)
    ensures BodyInlinable(WriterFront(v, x) + [RTRN], labels, false) && BodyInlinable(ReaderFront(y) + [RTRN], labels, false)
  {
    assert BodyInlinable([RTRN][1..], labels, true);
    assert BodyInlinable([RTRN], labels, false);
    hide BodyInlinable;
    Scan(LOAD_INT_VAR(y, LOCL), [RTRN], labels, false);
    Scan(STOR_INT_VAR(x, LOCL), [RTRN], labels, false);
    Scan(LOAD_INT_LIT(v), [STOR_INT_VAR(x, LOCL)] + [RTRN], labels, false);
    assert WriterFront(v, x) + [RTRN] == [LOAD_INT_LIT(v)] + ([STOR_INT_VAR(x, LOCL)] + [RTRN]);
  }

  lemma SharingNames()
    ensures LabelsOf(SharingCode()) == {} && LastLocalOffset(SharingCode()) == 0
  {
    var empty: seq<Instr> := [];
    assert [RTRN] + empty == [RTRN] && LabelsOf(empty) == {} && LastLocalOffset(empty) == 0;
    hide LabelsOf, LastLocalOffset;
    NothingNamed(RTRN, empty);
    NothingNamed(MTHD_CALL(READER), [RTRN]);
    NothingNamed(LOAD_INST_MEM, [MTHD_CALL(READER)] + [RTRN]);
    NothingNamed(MTHD_CALL(WRITER), [LOAD_INST_MEM] + ([MTHD_CALL(READER)] + [RTRN]));
    NothingNamed(LOAD_INST_MEM, [MTHD_CALL(WRITER)] + ([LOAD_INST_MEM] + ([MTHD_CALL(READER)] + [RTRN])));
  }

  lemma SharingMoved(v: int, x: nat, y: nat)
    ensures InlinedBody(2, WriterFront(v, x) + [RTRN]) == [STOR_INT_VAR(2, LOCL)] + WriterFront(v, x + 3)
    ensures InlinedBody(2, ReaderFront(y) + [RTRN]) == [STOR_INT_VAR(2, LOCL)] + ReaderFront(y + 3)
  {
    BodyOf(WriterFront(v, x));
    BodyOf(ReaderFront(y));
    assert RelocateAll(2, WriterFront(v, x)) == WriterFront(v, x + 3);
    assert RelocateAll(2, ReaderFront(y)) == ReaderFront(y + 3);
  }

  lemma SharingAllowed(v: int, x: nat, y: nat, labels: set<int>)
    ensures CanInlineMethod(Sharing(v, x, y), CALLER, WRITER, 8, {}, labels)
    ensures CanInlineMethod(Sharing(v, x, y), CALLER, READER, 24, {} + {WRITER}, labels)
  {
    hide CanInlineMethod, BodyInlinable;
    SharingScanned(v, x, y, labels);
    NoNames(Sharing(v, x, y), CALLER, WRITER, 8, {}, labels);
    NoNames(Sharing(v, x, y), CALLER, READER, 24, {} + {WRITER}, labels);
  }

  lemma SharingTaken(p: Program, v: int, x: nat, y: nat, labels: set<int>)
    requires CALLER in p && WRITER in p && READER in p && p[WRITER] == Body(WriterFront(v, x) + [RTRN]) && p[READER] == Body(ReaderFront(y) + [RTRN])
    requires CanInlineMethod(p, CALLER, WRITER, 8, {}, labels) && CanInlineMethod(p, CALLER, READER, 24, {} + {WRITER}, labels)
    ensures InlineCalls(p, CALLER, 2, labels, SharingCode(), 8, {}) == SharingInlined(v, x, y)
  {
    hide CanInlineMethod, InlineCalls, InlinedBody, WriterFront, ReaderFront;
    SharingMoved(v, x, y);
    OwnCallTaken(p, CALLER, labels, WRITER, [LOAD_INST_MEM] + ([MTHD_CALL(READER)] + [RTRN]), 8, {});
    OwnCallTaken(p, CALLER, labels, READER, [RTRN], 24, {} + {WRITER});
    ReturnOnly(p, CALLER, 2, labels, 40, {} + {WRITER} + {READER});
  }

  lemma SharingInto(v: int, x: nat, y: nat, reserved: int)
    ensures InlineInto(Sharing(v, x, y), CALLER, reserved).code == SharingInlined(v, x, y)
  {
    var p, labels := Sharing(v, x, y), LabelsOf(SharingCode()) + {reserved};
    hide CanInlineMethod, InlineCalls, InlineInto, SharingCode, SharingInlined;
    SharingNames();
    SharingAllowed(v, x, y, labels);
    Into(p, CALLER, reserved);
    SharingTaken(p, v, x, y, labels);
  }

  /** The program as the optimizer leaves it from level 3 on, its one class in this order. */
  function Optimized(v: int, x: nat, y: nat, reserved: int): Program {
    Sharing(v, x, y)[CALLER := InlineInto(Sharing(v, x, y), CALLER, reserved)]
  }

  lemma SharingRuns(h: Host, v: int, x: nat, y: nat, level: int, reserved: int)
    requires level > 2
    ensures RunPasses(h, Sharing(v, x, y), level, reserved, Schedule([[WRITER, READER, CALLER]])) == Some(Optimized(v, x, y, reserved))
  {
    var p, rest := Sharing(v, x, y), [Pass.Inline(WRITER)] + ([Pass.Inline(READER)] + ([Pass.Inline(CALLER)] + []));
    assert forall i <- p[WRITER].code + p[READER].code :: !i.MTHD_CALL?;
    assert forall i <- p[WRITER].code :: i in p[WRITER].code + p[READER].code;
    assert forall i <- p[READER].code :: i in p[WRITER].code + p[READER].code;
    SharingUntouched(v, x, y);
    hide InlineInto, Sharing, Schedule, OptimizeEach, RunPass;
    ThreeMethods(WRITER, READER, CALLER);
    StillOptimizes(h, p, level, reserved, [WRITER, READER, CALLER], rest);
    InlinesNothing(h, p, level, reserved, WRITER, [Pass.Inline(READER)] + ([Pass.Inline(CALLER)] + []));
    InlinesNothing(h, p, level, reserved, READER, [Pass.Inline(CALLER)] + []);
    InlinesOne(h, p, level, reserved, CALLER, []);
  }

  // ----- What comes of it -----

  /** Running a straight-line method on the own instance. */
  lemma CallsOwn(a: Activation, id: MethodId, front: seq<Instr>, rest: seq<Instr>, m: Machine, fuel: nat)
    requires id in a.program && a.program[id] == Body(front + [RTRN]) && Simple(front)
    ensures Run(a, [LOAD_INST_MEM] + ([MTHD_CALL(id)] + rest), m, fuel) ==
      if a.depth == 0 then Timeout else
      var t := Straight(a.host, front, Machine(m.stack, NewFrame(a.host, m.ext), m.inst, 0, m.heap, m.ext));
      if t.None? then Fault else Run(a, rest, m.(stack := t.value.stack, heap := t.value.heap, ext := t.value.ext), fuel)
  {
    var n, tail := m.(stack := [m.inst] + m.stack), [MTHD_CALL(id)] + rest;
    assert n.stack[1..] == m.stack && tail[1..] == rest && Front(front + [RTRN]) == front;
    RunStraight(a, [LOAD_INST_MEM], tail, m, fuel);
    StraightOne(a.host, LOAD_INST_MEM, m);
    RunCall(a, tail, n, fuel);
    if a.depth > 0 { CallStraight(a.host, a.program, id, n, fuel, a.depth - 1); }
    hide Straight;
  }

  lemma WriterFrames(h: Host, v: int, x: nat, e: Machine)
    requires x < |e.locals|
    ensures Straight(h, WriterFront(v, x), e) == Some(e.(locals := e.locals[x := v]))
  {
    assert WriterFront(v, x) == [LOAD_INT_LIT(v), STOR_INT_VAR(x, LOCL)];
    StraightTwo(h, LOAD_INT_LIT(v), STOR_INT_VAR(x, LOCL), e);
    assert ([v] + e.stack)[1..] == e.stack;
  }

  lemma ReaderFrames(h: Host, y: nat, e: Machine)
    requires y < |e.locals|
    ensures Straight(h, ReaderFront(y), e) == Some(e.(stack := [e.locals[y]] + e.stack))
  {
    StraightOne(h, LOAD_INT_VAR(y, LOCL), e);
  }

  /** Called, the reader returns what its own frame holds. */
  lemma SharingBefore(h: Host, v: int, x: nat, y: nat, m: Machine, fuel: nat, d: nat)
    requires x < LOCAL_WORDS && y < LOCAL_WORDS && |m.stack| > 0
    ensures Call(h, Sharing(v, x, y), CALLER, m, fuel, d) ==
      if d == 0 then Timeout else Done(m.(stack := [h.stale(m.ext, y)] + m.stack[1..]), fuel)
  {
    var p := Sharing(v, x, y);
    var a, e := Activation(h, p, SharingCode(), d), Enter(h, p[CALLER], m);
    var rest := [LOAD_INST_MEM] + ([MTHD_CALL(READER)] + [RTRN]);
    var k := e.(stack := [h.stale(m.ext, y)] + e.stack);
    WriterFrames(h, v, x, Machine(e.stack, NewFrame(h, e.ext), e.inst, 0, e.heap, e.ext));
    ReaderFrames(h, y, Machine(e.stack, NewFrame(h, e.ext), e.inst, 0, e.heap, e.ext));
    assert Run(a, [RTRN], k, fuel) == Done(k, fuel);
    assert p[CALLER].code == [LOAD_INST_MEM] + ([MTHD_CALL(WRITER)] + rest) && Leave(m, k) == m.(stack := k.stack);
    hide Run, Straight, WriterFront, ReaderFront;
    CallsOwn(a, WRITER, WriterFront(v, x), rest, e, fuel);
    CallsOwn(a, READER, ReaderFront(y), [RTRN], e, fuel);
  }

  /** What the inlined reader finds. */
  function Found(h: Host, v: int, x: nat, y: nat, ext: int): int {
    if x == y then v else h.stale(ext, y + 3)
  }

  lemma InlinedFinds(h: Host, p: Program, v: int, x: nat, y: nat, e: Machine, fuel: nat, d: nat)
    requires x + 3 < LOCAL_WORDS && y + 3 < LOCAL_WORDS && e.locals == NewFrame(h, e.ext)
    ensures var r := RunBody(h, p, SharingInlined(v, x, y), e, fuel, d);
      r.Done? && r.fuel == fuel && r.m == e.(stack := [Found(h, v, x, y, e.ext)] + e.stack, locals := r.m.locals)
  {
    hide Run;
    var a := Activation(h, p, SharingInlined(v, x, y), d);
    var last := [LOAD_INT_VAR(y + 3, LOCL)] + [RTRN];
    var second := [LOAD_INST_MEM] + ([STOR_INT_VAR(2, LOCL)] + last);
    var first := [LOAD_INT_LIT(v)] + ([STOR_INT_VAR(x + 3, LOCL)] + second);
    var e1 := e.(locals := e.locals[2 := e.inst]);
    var e2 := e1.(locals := e1.locals[x + 3 := v]);
    var e3 := e2.(locals := e2.locals[2 := e2.inst]);
    assert SharingInlined(v, x, y) == [LOAD_INST_MEM] + ([STOR_INT_VAR(2, LOCL)] + first);
    assert e3.locals[y + 3] == Found(h, v, x, y, e.ext);
    assert Step(h, LOAD_INT_LIT(v), e1) == Some(e1.(stack := [v] + e1.stack));
    LoadsInstance(h, e);
    LoadsInstance(h, e2);
    LoadsSlot(h, y + 3, e3);
    hide Step, Found, SharingInlined;
    Moves(a, LOAD_INST_MEM, 2, e.inst, first, e, fuel);
    Moves(a, LOAD_INT_LIT(v), x + 3, v, second, e1, fuel);
    Moves(a, LOAD_INST_MEM, 2, e2.inst, last, e2, fuel);
    Finishes(a, LOAD_INT_VAR(y + 3, LOCL), e3, fuel);
  }

  /** Inlined, it returns what stands in the shared slot. */
  lemma SharingAfter(h: Host, v: int, x: nat, y: nat, reserved: int, m: Machine, fuel: nat, d: nat)
    requires x + 3 < LOCAL_WORDS && y + 3 < LOCAL_WORDS && |m.stack| > 0
    ensures Call(h, Optimized(v, x, y, reserved), CALLER, m, fuel, d) == Done(m.(stack := [Found(h, v, x, y, m.ext)] + m.stack[1..]), fuel)
  {
    var q := Optimized(v, x, y, reserved);
    var e := Enter(h, q[CALLER], m);
    SharingInto(v, x, y, reserved);
    assert !q[CALLER].virtual && e.locals == NewFrame(h, e.ext);
    hide InlineInto, SharingInlined, Run, Found;
    InlinedFinds(h, q, v, x, y, e, fuel, d);
  }

  /** The other calls do not see the difference. */
  lemma SharingOthers(h: Host, v: int, x: nat, y: nat, reserved: int, id: MethodId, m: Machine, fuel: nat, d: nat)
    requires id != CALLER || |m.stack| == 0
    ensures Call(h, Optimized(v, x, y, reserved), id, m, fuel, d) == Call(h, Sharing(v, x, y), id, m, fuel, d)
  {
    var p, q := Sharing(v, x, y), Optimized(v, x, y, reserved);
    hide InlineInto, Run, WriterFront, ReaderFront;
    if |m.stack| > 0 && id in p {
      var front := if id == WRITER then WriterFront(v, x) else ReaderFront(y);
      FrontsSimple(v, x, y);
      assert p[id] == q[id] == Body(front + [RTRN]);
      SameCall(h, p, q, id, front, m, fuel, d);
    }
  }

  lemma FrontsSimple(v: int, x: nat, y: nat)
    ensures Simple(WriterFront(v, x)) && Simple(ReaderFront(y))
  {
  }

  lemma SameCall(h: Host, p: Program, q: Program, id: MethodId, front: seq<Instr>, m: Machine, fuel: nat, d: nat)
    requires id in p && id in q && p[id] == q[id] == Body(front + [RTRN]) && Simple(front) && |m.stack| > 0
    ensures Call(h, q, id, m, fuel, d) == Call(h, p, id, m, fuel, d)
  {
    hide Call, Straight;
    assert Front(front + [RTRN]) == front;
    CallStraight(h, p, id, m, fuel, d);
    CallStraight(h, q, id, m, fuel, d);
  }

  /** Inlining both methods into the caller changes no call exactly when the reader's fresh local holds what it finds in
      the caller's frame: what the writer wrote if the two name the same slot, else what that frame held there. */
  lemma SharedSlotExact(h: Host, v: int, x: nat, y: nat, level: int, reserved: int)
    requires level > 2 && x + 3 < LOCAL_WORDS && y + 3 < LOCAL_WORDS
    ensures var q := RunPasses(h, Sharing(v, x, y), level, reserved, Schedule([[WRITER, READER, CALLER]]));
      q.Some? && (CoTerminate(h, Sharing(v, x, y), q.value) <==> forall ext: int :: h.stale(ext, y) == Found(h, v, x, y, ext))
  {
    var p, q := Sharing(v, x, y), Optimized(v, x, y, reserved);
    SharingRuns(h, v, x, y, level, reserved);
    hide RunPasses, Optimized, Sharing, Call, Found;
    if CoTerminate(h, p, q) {
      forall ext: int ensures h.stale(ext, y) == Found(h, v, x, y, ext) {
        var m := Machine([1], [], 1, 0, map[], ext);
        SharingBefore(h, v, x, y, m, 0, 1);
        var r := Call(h, p, CALLER, m, 0, 1);
        assert Reaches(h, p, CALLER, m, 0, r);
        var d: nat :| Call(h, q, CALLER, m, 0, d) == r;
        SharingAfter(h, v, x, y, reserved, m, 0, d);
        assert r.m.stack[0] == h.stale(ext, y);
      }
    }
    if forall ext: int :: h.stale(ext, y) == Found(h, v, x, y, ext) {
      forall id: MethodId, m: Machine, fuel: nat, r: Outcome | !r.Timeout?
        ensures Reaches(h, p, id, m, fuel, r) <==> Reaches(h, q, id, m, fuel, r)
      {
        SameReaches(h, v, x, y, reserved, id, m, fuel, r);
      }
    }
  }

  lemma SameReaches(h: Host, v: int, x: nat, y: nat, reserved: int, id: MethodId, m: Machine, fuel: nat, r: Outcome)
    requires x + 3 < LOCAL_WORDS && y + 3 < LOCAL_WORDS && !r.Timeout? && h.stale(m.ext, y) == Found(h, v, x, y, m.ext)
    ensures Reaches(h, Sharing(v, x, y), id, m, fuel, r) <==> Reaches(h, Optimized(v, x, y, reserved), id, m, fuel, r)
  {
    var p, q := Sharing(v, x, y), Optimized(v, x, y, reserved);
    hide Optimized, Sharing, Call, Found;
    if id == CALLER && |m.stack| > 0 {
      forall d: nat ensures Call(h, q, id, m, fuel, d) == Done(m.(stack := [Found(h, v, x, y, m.ext)] + m.stack[1..]), fuel) {
        SharingAfter(h, v, x, y, reserved, m, fuel, d);
      }
      forall d: nat ensures d > 0 ==> Call(h, p, id, m, fuel, d) == Done(m.(stack := [h.stale(m.ext, y)] + m.stack[1..]), fuel) {
        SharingBefore(h, v, x, y, m, fuel, d);
      }
      SharingBefore(h, v, x, y, m, fuel, 0);
      assert Reaches(h, q, id, m, fuel, Call(h, q, id, m, fuel, 0)) && Reaches(h, p, id, m, fuel, Call(h, p, id, m, fuel, 1));
    } else {
      forall d: nat ensures Call(h, q, id, m, fuel, d) == Call(h, p, id, m, fuel, d) {
        SharingOthers(h, v, x, y, reserved, id, m, fuel, d);
      }
    }
  }

  /** In frames that are cleared alike, inlining is right exactly when the two locals differ in their slots, or the
      value written is the cleared word. */
  lemma ClearedFramesExact(h: Host, cleared: int, v: int, x: nat, y: nat, level: int, reserved: int)
    requires level > 2 && x + 3 < LOCAL_WORDS && y + 3 < LOCAL_WORDS && forall ext: int, k: int :: h.stale(ext, k) == cleared
    ensures var q := RunPasses(h, Sharing(v, x, y), level, reserved, Schedule([[WRITER, READER, CALLER]]));
      q.Some? && (CoTerminate(h, Sharing(v, x, y), q.value) <==> x != y || v == cleared)
  {
    hide RunPasses, Schedule, Sharing, CoTerminate;
    SharedSlotExact(h, v, x, y, level, reserved);
    assert h.stale(0, y) == cleared;
  }
}
