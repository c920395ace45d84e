// Method inlining: the callee's instructions replace the call, with its locals moved above the
// caller's and its instance kept in a slot of its own.

module Inlining {
  import opened Wrappers
  import opened Words
  import opened Bytecode
  import opened Simulation
  import opened Passes

  const LOCL_INLINE_MEM_MAX := 128

  predicate Contains(s: string, t: string) {
    |t| <= |s| && (s[..|t|] == t || (s != [] && Contains(s[1..], t)))
  }

  predicate IsVariable(i: Instr) {
    i.LOAD_INT_VAR? || i.STOR_INT_VAR? || i.COPY_INT_VAR? || i.LOAD_FLOAT_VAR? || i.STOR_FLOAT_VAR? || i.COPY_FLOAT_VAR?
  }

  /** A function variable takes two words; neither the test nor the relocation of inlining looks at one. */
  predicate IsFunctionVariable(i: Instr) {
    i.LOAD_FUNC_VAR? || i.STOR_FUNC_VAR? || i.COPY_FUNC_VAR?
  }

  /** Labels placed or jumped to. */
  function LabelOf(i: Instr): Option<int> {
    if i.LBL? then Some(i.mark) else if i.JMP? then Some(i.target) else None
  }

  /** The instruction scan of the inlining test. */
  predicate BodyInlinable(code: seq<Instr>, labels: set<int>, foundReturn: bool) {
    if code == [] then true else
    var i := code[0];
    && (IsVariable(i) ==> i.ctx == LOCL)
    && !i.TRAP? && !(i.OTHER? && i.opcode.Special?)
    && (LabelOf(i).Some? ==> LabelOf(i).value !in labels)
    && !(i.RTRN? && foundReturn)
    && BodyInlinable(code[1..], labels, foundReturn || i.RTRN?)
  }

  predicate CanInlineMethod(p: Program, current: MethodId, id: MethodId, space: nat, inlined: set<MethodId>, labels: set<int>)
    requires current in p
  {
    && id !in inlined
    && id != current
    && id in p
    && '$' !in p[id].clsName
    && p[id].cls == p[current].cls
    && space + p[id].space <= LOCL_INLINE_MEM_MAX
    && !Contains(p[id].name, ":New:")
    && !Contains(p[current].name, ":Main:o.System.String*,")
    && |p[id].code| >= 2
    && BodyInlinable(p[id].code, labels, false)
  }

  /** The largest local slot an instruction of the block names. */
  function LastLocalOffset(code: seq<Instr>): (offset: nat)
    ensures forall i <- code :: IsVariable(i) && i.ctx == LOCL ==> i.slot <= offset
  {
    if code == [] then 0 else
    var rest := LastLocalOffset(code[1..]);
    if IsVariable(code[0]) && code[0].ctx == LOCL && code[0].slot > rest then code[0].slot else rest
  }

  function Relocate(offset: nat, i: Instr): Instr {
    if i.LOAD_INST_MEM? then LOAD_INT_VAR(offset, LOCL)
    else if IsVariable(i) && i.ctx == LOCL then i.(slot := i.slot + offset + 1)
    else i
  }

  function RelocateAll(offset: nat, code: seq<Instr>): (r: seq<Instr>)
    ensures |r| == |code|
    ensures forall k :: 0 <= k < |code| ==> r[k] == Relocate(offset, code[k])
  {
    if code == [] then [] else [Relocate(offset, code[0])] + RelocateAll(offset, code[1..])
  }

  /** Keep the instance, then everything but the final instruction. */
  function InlinedBody(offset: nat, code: seq<Instr>): seq<Instr>
    requires code != []
  {
    [STOR_INT_VAR(offset, LOCL)] + RelocateAll(offset, Front(code))
  }

  function InlineCalls(p: Program, current: MethodId, offset: nat, labels: set<int>, code: seq<Instr>,
                       space: nat, inlined: set<MethodId>): seq<Instr>
    requires current in p
  {
    if code == [] then []
    else if code[0].MTHD_CALL? && CanInlineMethod(p, current, code[0].id, space, inlined, labels) then
      var id := code[0].id;
      InlinedBody(offset, p[id].code)
        + InlineCalls(p, current, offset, labels, code[1..], space + 8 + p[id].space, inlined + {id})
    else [code[0]] + InlineCalls(p, current, offset, labels, code[1..], space, inlined)
  }

  // ----- Every local is written before it is read -----

  function SlotsOf(i: Instr): set<int>
    requires IsVariable(i) || IsFunctionVariable(i)
  {
    if i.LOAD_INT_VAR? || i.STOR_INT_VAR? || i.COPY_INT_VAR? then {i.slot} else {i.slot, i.slot + 1}
  }

  function Reads(i: Instr): set<int> {
    if (i.LOAD_INT_VAR? || i.LOAD_FLOAT_VAR? || i.LOAD_FUNC_VAR?) && i.ctx == LOCL then SlotsOf(i) else {}
  }

  function Writes(i: Instr): set<int> {
    if (i.STOR_INT_VAR? || i.COPY_INT_VAR? || i.STOR_FLOAT_VAR? || i.COPY_FLOAT_VAR? || i.STOR_FUNC_VAR?) && i.ctx == LOCL
    then SlotsOf(i) else {}
  }

  /** Locals known to be written; None where no run comes by. */
  type Written = Option<set<int>>

  predicate Covers(known: Written, slots: set<int>) {
    known.Some? ==> slots <= known.value
  }

  /** at certifies, per label, slots written on every way to it. */
  predicate Allowed(i: Instr, at: map<int, set<int>>, known: Written) {
    match i
    case LBL(l) => l in at && Covers(known, at[l])
    case JMP(l, _) => l in at && Covers(known, at[l])
    case _ => Covers(known, Reads(i))
  }

  /** What is written behind i. */
  function WrittenBehind(i: Instr, at: map<int, set<int>>, known: Written): Written {
    match i
    case LBL(l) => if l in at then Some(at[l]) else None
    case JMP(_, cond) => if cond < 0 then None else known
    case RTRN => None
    case _ => if known.None? then None else Some(known.value + Writes(i))
  }

  /** Whatever the code reads is written on every way there, if known is to begin with. */
  predicate WrittenFirst(code: seq<Instr>, at: map<int, set<int>>, known: Written) {
    code == [] || (Allowed(code[0], at, known) && WrittenFirst(code[1..], at, WrittenBehind(code[0], at, known)))
  }

  ghost predicate WritesBeforeReads(code: seq<Instr>) {
    exists at :: WrittenFirst(code, at, Some({}))
  }

  /** Every jump of the code lands in the code. */
  predicate Closed(code: seq<Instr>) {
    forall i <- code :: i.JMP? ==> LBL(i.target) in code
  }

  /** Relocated, the instruction stays in the frame; function variables are not relocated, so there must be none. */
  predicate SlotsFit(offset: nat, i: Instr) {
    && (IsVariable(i) && i.ctx == LOCL ==> forall x <- SlotsOf(i) :: 0 <= x && offset + 1 + x < LOCAL_WORDS)
    && (IsFunctionVariable(i) ==> i.ctx != LOCL)
  }

  /** What inlining asks of a callee beyond the checks the compiler makes. */
  ghost predicate CalleeReady(offset: nat, code: seq<Instr>) {
    && code != [] && Last(code) == RTRN
    && Closed(code)
    && WritesBeforeReads(code)
    && forall i <- code :: SlotsFit(offset, i)
  }

  lemma {:induction false} WrittenAt(code: seq<Instr>, at: map<int, set<int>>, known: Written, k: nat, l: int)
    requires WrittenFirst(code, at, known) && k < |code| && code[k] == LBL(l)
    ensures l in at && WrittenFirst(code[k + 1..], at, Some(at[l]))
  {
    if k > 0 {
      assert code[1..][k - 1 + 1..] == code[k + 1..];
      WrittenAt(code[1..], at, WrittenBehind(code[0], at, known), k - 1, l);
    }
  }

  lemma {:induction false} LabelIndex(code: seq<Instr>, l: int) returns (k: nat)
    requires LBL(l) in code
    ensures k < |code| && code[k] == LBL(l) && LBL(l) !in code[..k]
    ensures AfterLabel(code, l) == Some(code[k + 1..])
  {
    if code[0] == LBL(l) {
      k := 0;
    } else {
      k := LabelIndex(code[1..], l);
      assert code[..k + 1] == [code[0]] + code[1..][..k];
      assert code[1..][k + 1..] == code[k + 2..];
      k := k + 1;
    }
  }

  // ----- The callee in its own frame and inlined -----

  /** b runs inlined what c runs as a call: same stack and memory, the instance in its slot, every
      known local of c above it, and the caller's own slots as they were in base. */
  predicate Inlined(c: Machine, b: Machine, known: set<int>, offset: nat, base: Machine) {
    && Sized(c) && Sized(b) && Sized(base) && offset < LOCAL_WORDS
    && b.stack == c.stack && b.heap == c.heap && b.ext == c.ext
    && b.inst == base.inst && b.cls == base.cls && b.cls == c.cls
    && b.locals[..offset] == base.locals[..offset]
    && b.locals[offset] == c.inst
    && forall x <- known :: 0 <= x < LOCAL_WORDS ==> offset + 1 + x < LOCAL_WORDS ==> b.locals[offset + 1 + x] == c.locals[x]
  }

  lemma LocalInlined(h: Host, i: Instr, c: Machine, b: Machine, known: set<int>, offset: nat, base: Machine)
    requires IsVariable(i) && i.ctx == LOCL
    requires SlotsFit(offset, i) && Reads(i) <= known && Inlined(c, b, known, offset, base)
    ensures !IsControl(Relocate(offset, i))
    ensures var s, t := Step(h, i, c), Step(h, Relocate(offset, i), b);
      && (s.None? <==> t.None?)
      && (s.Some? ==> Inlined(s.value, t.value, known + Writes(i), offset, base))
  {
    assert i.slot in SlotsOf(i);
    if i.LOAD_FLOAT_VAR? || i.STOR_FLOAT_VAR? || i.COPY_FLOAT_VAR? { assert i.slot + 1 in SlotsOf(i); }
  }

  lemma StepInlined(h: Host, i: Instr, c: Machine, b: Machine, known: set<int>, offset: nat, base: Machine)
    requires !IsControl(i) && SlotsFit(offset, i) && Reads(i) <= known && Inlined(c, b, known, offset, base)
    ensures !IsControl(Relocate(offset, i))
    ensures var s, t := Step(h, i, c), Step(h, Relocate(offset, i), b);
      && (s.None? <==> t.None?)
      && (s.Some? ==> Inlined(s.value, t.value, known + Writes(i), offset, base))
  {
    if IsVariable(i) && i.ctx == LOCL {
      LocalInlined(h, i, c, b, known, offset, base);
    }
  }

  lemma {:induction false} RelocateLabels(offset: nat, code: seq<Instr>, l: int)
    ensures LBL(l) in RelocateAll(offset, code) <==> LBL(l) in code
  {
    var r := RelocateAll(offset, code);
    if LBL(l) in code {
      var k :| 0 <= k < |code| && code[k] == LBL(l);
      assert r[k] == LBL(l);
    }
    if LBL(l) in r {
      var k :| 0 <= k < |r| && r[k] == LBL(l);
      assert code[k] == LBL(l);
    }
  }

  lemma RelocateSplit(offset: nat, code: seq<Instr>, k: nat)
    requires k <= |code|
    ensures RelocateAll(offset, code)[k..] == RelocateAll(offset, code[k..])
    ensures RelocateAll(offset, code)[..k] == RelocateAll(offset, code[..k])
  {
  }

  /** The inlined body from the callee's instruction k on, and what follows it in the caller. */
  function From(offset: nat, code: seq<Instr>, k: nat, tail: seq<Instr>): seq<Instr>
    requires k < |code|
  {
    RelocateAll(offset, Front(code)[k..]) + tail
  }

  lemma SplitAround<T>(pre: seq<T>, s: T, body: seq<T>, tail: seq<T>, k: nat)
    requires k < |body|
    ensures pre + ([s] + body) + tail == (pre + ([s] + body[..k])) + ([body[k]] + (body[k + 1..] + tail))
  {
    assert body == body[..k] + [body[k]] + body[k + 1..];
  }

  /** A label of the callee is found in the caller where the body was put. */
  lemma InlinedLanding(offset: nat, code: seq<Instr>, pre: seq<Instr>, tail: seq<Instr>, l: int) returns (k: nat)
    requires code != [] && Last(code) == RTRN && LBL(l) in code && LBL(l) !in pre
    ensures k < |code| - 1 && code[k] == LBL(l)
    ensures AfterLabel(code, l) == Some(code[k + 1..])
    ensures AfterLabel(pre + InlinedBody(offset, code) + tail, l) == Some(From(offset, code, k + 1, tail))
  {
    k := LabelIndex(code, l);
    var f := Front(code);
    var body, store := RelocateAll(offset, f), STOR_INT_VAR(offset, LOCL);
    assert f[k] == code[k] && f[..k] == code[..k];
    RelocateSplit(offset, f, k);
    RelocateSplit(offset, f, k + 1);
    RelocateLabels(offset, f[..k], l);
    SplitAround(pre, store, body, tail, k);
    var next := body[k + 1..] + tail;
    assert next == From(offset, code, k + 1, tail);
    SkipSimple(pre + ([store] + body[..k]), [LBL(l)] + next, l);
    assert ([LBL(l)] + next)[1..] == next;
  }

  /** Where the body of chunk j sits in the caller. */
  ghost predicate BodyPlaced(offset: nat, code: seq<Instr>, whole: seq<Instr>, pre: seq<Instr>, tail: seq<Instr>) {
    && CalleeReady(offset, code)
    && BodyInlinable(code, {}, false)
    && whole == pre + InlinedBody(offset, code) + tail
    && forall i <- code :: i.LBL? ==> i !in pre
  }

  lemma {:induction false} OneReturn(code: seq<Instr>, labels: set<int>, found: bool, k: nat)
    requires BodyInlinable(code, labels, found) && k < |code|
    ensures IsVariable(code[k]) ==> code[k].ctx == LOCL
    ensures found ==> !code[k].RTRN?
    ensures Last(code).RTRN? && k < |code| - 1 ==> !code[k].RTRN?
    ensures LabelOf(code[k]).Some? ==> LabelOf(code[k]).value !in labels
  {
    if k > 0 {
      assert Last(code[1..]) == Last(code);
      OneReturn(code[1..], labels, found || code[0].RTRN?, k - 1);
    } else if |code| > 1 && code[0].RTRN? {
      assert Last(code[1..]) == Last(code);
      OneReturn(code[1..], labels, true, |code| - 2);
    }
  }

  lemma FromNext(offset: nat, code: seq<Instr>, k: nat, tail: seq<Instr>)
    requires k < |code| - 1
    ensures From(offset, code, k, tail) == [Relocate(offset, code[k])] + From(offset, code, k + 1, tail)
    ensures code[k..] == [code[k]] + code[k + 1..]
  {
    var f := Front(code)[k..];
    assert f[0] == code[k] && f[1..] == Front(code)[k + 1..];
  }

  /** The same move in the callee's own frame (r) and inlined (s), ending at callee instruction k'. */
  ghost predicate SameMove(r: Move, s: Move, offset: nat, code: seq<Instr>, tail: seq<Instr>, known: set<int>, base: Machine,
                           k: nat, k': nat, fuel: nat)
    requires k' < |code|
  {
    && (r.Halt? ==> s == r && !r.outcome.Done?)
    && (r.Goto? ==> s.Goto? && r.rest == code[k'..] && s.rest == From(offset, code, k', tail) && s.fuel == r.fuel
                    && Inlined(r.m, s.m, known, offset, base) && (r.fuel < fuel || k < k'))
  }

  lemma WrittenNext(code: seq<Instr>, k: nat, at: map<int, set<int>>, known: set<int>)
    requires k < |code| && WrittenFirst(code[k..], at, Some(known)) && !code[k].JMP? && !code[k].RTRN?
    ensures code[k].LBL? ==> code[k].mark in at && at[code[k].mark] <= known && WrittenFirst(code[k + 1..], at, Some(at[code[k].mark]))
    ensures !code[k].LBL? ==> Reads(code[k]) <= known && WrittenFirst(code[k + 1..], at, Some(known + Writes(code[k])))
  {
    assert code[k..][0] == code[k] && code[k..][1..] == code[k + 1..];
  }

  lemma AdvancePlain(h: Host, code: seq<Instr>, rest: seq<Instr>, m: Machine, fuel: nat)
    requires rest != [] && !rest[0].MTHD_CALL? && !rest[0].JMP? && !rest[0].RTRN?
    ensures Advance(h, code, rest, m, fuel) ==
      if rest[0].LBL? then Goto(rest[1..], m, fuel)
      else (var s := Step(h, rest[0], m); if s.None? then Halt(Fault) else Goto(rest[1..], s.value, fuel))
  {
  }

  lemma KnowsLess(c: Machine, b: Machine, known: set<int>, fewer: set<int>, offset: nat, base: Machine)
    requires Inlined(c, b, known, offset, base) && fewer <= known
    ensures Inlined(c, b, fewer, offset, base)
  {
  }

  /** One instruction of the callee, in its own frame and inlined. */
  lemma AdvanceInlined(h: Host, offset: nat, code: seq<Instr>, whole: seq<Instr>, pre: seq<Instr>, tail: seq<Instr>,
                       at: map<int, set<int>>, k: nat, known: set<int>, c: Machine, b: Machine, base: Machine, fuel: nat)
    returns (k': nat, known': set<int>)
    requires BodyPlaced(offset, code, whole, pre, tail) && k < |code| - 1 && !code[k].MTHD_CALL?
    requires WrittenFirst(code, at, Some({})) && WrittenFirst(code[k..], at, Some(known)) && Inlined(c, b, known, offset, base)
    ensures k' < |code| && WrittenFirst(code[k'..], at, Some(known'))
    ensures From(offset, code, k, tail) != [] && From(offset, code, k, tail)[0] == Relocate(offset, code[k])
    ensures !Relocate(offset, code[k]).MTHD_CALL?
    ensures SameMove(Advance(h, code, code[k..], c, fuel), Advance(h, whole, From(offset, code, k, tail), b, fuel),
                     offset, code, tail, known', base, k, k', fuel)
  {
    hide Advance, WrittenFirst, Inlined, CalleeReady, BodyInlinable, SameMove, From;
    if code[k].JMP? {
      k', known' := AdvanceJump(h, offset, code, whole, pre, tail, at, k, known, c, b, base, fuel);
    } else {
      NotReturn(offset, code, k);
      known' := AdvanceStraight(h, offset, code, whole, tail, at, k, known, c, b, base, fuel);
      k' := k + 1;
    }
  }

  lemma NotReturn(offset: nat, code: seq<Instr>, k: nat)
    requires CalleeReady(offset, code) && BodyInlinable(code, {}, false) && k < |code| - 1
    ensures !code[k].RTRN? && SlotsFit(offset, code[k])
  {
    OneReturn(code, {}, false, k);
    assert code[k] in code;
  }

  /** An instruction other than a jump: both runs go to the next one. */
  lemma AdvanceStraight(h: Host, offset: nat, code: seq<Instr>, whole: seq<Instr>, tail: seq<Instr>, at: map<int, set<int>>,
                        k: nat, known: set<int>, c: Machine, b: Machine, base: Machine, fuel: nat) returns (known': set<int>)
    requires k < |code| - 1 && !code[k].MTHD_CALL? && !code[k].JMP? && !code[k].RTRN? && SlotsFit(offset, code[k])
    requires WrittenFirst(code[k..], at, Some(known)) && Inlined(c, b, known, offset, base)
    ensures WrittenFirst(code[k + 1..], at, Some(known'))
    ensures From(offset, code, k, tail) != [] && From(offset, code, k, tail)[0] == Relocate(offset, code[k])
    ensures !Relocate(offset, code[k]).MTHD_CALL?
    ensures SameMove(Advance(h, code, code[k..], c, fuel), Advance(h, whole, From(offset, code, k, tail), b, fuel),
                     offset, code, tail, known', base, k, k + 1, fuel)
  {
    hide Step, WrittenFirst, Advance, Inlined, From, SlotsFit;
    var i := code[k];
    FromNext(offset, code, k, tail);
    WrittenNext(code, k, at, known);
    AdvancePlain(h, code, code[k..], c, fuel);
    if i.LBL? {
      known' := at[i.mark];
      KnowsLess(c, b, known, known', offset, base);
    } else {
      known' := known + Writes(i);
      StepInlined(h, i, c, b, known, offset, base);
    }
    AdvancePlain(h, whole, From(offset, code, k, tail), b, fuel);
  }

  /** Where a jump of the callee goes, in its own code and in the caller's, and what is written there. */
  lemma JumpTarget(offset: nat, code: seq<Instr>, whole: seq<Instr>, pre: seq<Instr>, tail: seq<Instr>,
                   at: map<int, set<int>>, k: nat, known: set<int>) returns (to: nat)
    requires BodyPlaced(offset, code, whole, pre, tail) && k < |code| - 1 && code[k].JMP?
    requires WrittenFirst(code, at, Some({})) && WrittenFirst(code[k..], at, Some(known))
    ensures var l := code[k].target;
      && to < |code| - 1 && l in at && at[l] <= known && WrittenFirst(code[to + 1..], at, Some(at[l]))
      && (code[k].cond >= 0 ==> WrittenFirst(code[k + 1..], at, Some(known)))
      && AfterLabel(code, l) == Some(code[to + 1..])
      && AfterLabel(whole, l) == Some(From(offset, code, to + 1, tail))
  {
    var l := code[k].target;
    assert code[k..][0] == code[k] && code[k..][1..] == code[k + 1..];
    assert code[k] in code && LBL(l) in code;
    to := InlinedLanding(offset, code, pre, tail, l);
    WrittenAt(code, at, Some({}), to, l);
  }

  lemma JumpParts(offset: nat, code: seq<Instr>, k: nat, tail: seq<Instr>)
    requires k < |code| - 1 && code[k].JMP?
    ensures var rest, rest' := code[k..], From(offset, code, k, tail);
      && rest != [] && rest[0] == code[k] && rest[1..] == code[k + 1..] && Relocate(offset, code[k]) == code[k]
      && rest' != [] && rest'[0] == code[k] && rest'[1..] == From(offset, code, k + 1, tail)
  {
    FromNext(offset, code, k, tail);
  }

  lemma AdvanceJump(h: Host, offset: nat, code: seq<Instr>, whole: seq<Instr>, pre: seq<Instr>, tail: seq<Instr>,
                    at: map<int, set<int>>, k: nat, known: set<int>, c: Machine, b: Machine, base: Machine, fuel: nat)
    returns (k': nat, known': set<int>)
    requires BodyPlaced(offset, code, whole, pre, tail) && k < |code| - 1 && code[k].JMP?
    requires WrittenFirst(code, at, Some({})) && WrittenFirst(code[k..], at, Some(known)) && Inlined(c, b, known, offset, base)
    ensures k' < |code| && WrittenFirst(code[k'..], at, Some(known'))
    ensures From(offset, code, k, tail) != [] && From(offset, code, k, tail)[0] == Relocate(offset, code[k])
    ensures SameMove(Advance(h, code, code[k..], c, fuel), Advance(h, whole, From(offset, code, k, tail), b, fuel),
                     offset, code, tail, known', base, k, k', fuel)
  {
    var l, cond := code[k].target, code[k].cond;
    var rest, rest' := code[k..], From(offset, code, k, tail);
    JumpParts(offset, code, k, tail);
    var to := JumpTarget(offset, code, whole, pre, tail, at, k, known);
    hide *;
    var c1, b1 := PopInlined(c, b, known, at[l], offset, base, cond);
    BranchMove(h, code, rest, c, fuel);
    BranchMove(h, whole, rest', b, fuel);
    k', known' := k + 1, known;
    var r, s := Advance(h, code, rest, c, fuel), Advance(h, whole, rest', b, fuel);
    if cond >= 0 && |c.stack| == 0 {
      BothHalt(r, s, Fault, offset, code, tail, known', base, k, k', fuel);
    } else if cond < 0 || c.stack[0] == cond {
      k', known' := to + 1, at[l];
      TakenMove(r, s, offset, code, whole, tail, k, to, l, known', c1, b1, base, fuel);
    } else {
      BothGo(r, s, c1, b1, fuel, offset, code, tail, known', base, k, k', fuel);
    }
  }

  lemma TakenMove(r: Move, s: Move, offset: nat, code: seq<Instr>, whole: seq<Instr>, tail: seq<Instr>, k: nat, to: nat, l: int,
                  known: set<int>, c: Machine, b: Machine, base: Machine, fuel: nat)
    requires k < |code| - 1 && to < |code| - 1
    requires AfterLabel(code, l) == Some(code[to + 1..])
    requires AfterLabel(whole, l) == Some(From(offset, code, to + 1, tail))
    requires r == Jump(code, l, code[k..], c, fuel) && s == Jump(whole, l, From(offset, code, k, tail), b, fuel)
    requires Inlined(c, b, known, offset, base)
    ensures SameMove(r, s, offset, code, tail, known, base, k, to + 1, fuel)
  {
    hide *;
    JumpInlined(offset, code, whole, tail, k, to, l, c, b, fuel);
    if r.Halt? { BothHalt(r, s, Timeout, offset, code, tail, known, base, k, to + 1, fuel); }
    else { BothGo(r, s, c, b, r.fuel, offset, code, tail, known, base, k, to + 1, fuel); }
  }

  lemma BothHalt(r: Move, s: Move, o: Outcome, offset: nat, code: seq<Instr>, tail: seq<Instr>, known: set<int>, base: Machine,
                 k: nat, k': nat, fuel: nat)
    requires k' < |code| && r == s == Halt(o) && !o.Done?
    ensures SameMove(r, s, offset, code, tail, known, base, k, k', fuel)
  {
  }

  lemma BothGo(r: Move, s: Move, c: Machine, b: Machine, left: nat, offset: nat, code: seq<Instr>, tail: seq<Instr>,
               known: set<int>, base: Machine, k: nat, k': nat, fuel: nat)
    requires k' < |code| && r == Goto(code[k'..], c, left) && s == Goto(From(offset, code, k', tail), b, left)
    requires Inlined(c, b, known, offset, base) && (left < fuel || k < k')
    ensures SameMove(r, s, offset, code, tail, known, base, k, k', fuel)
  {
  }

  lemma PopInlined(c: Machine, b: Machine, known: set<int>, fewer: set<int>, offset: nat, base: Machine, cond: int)
    returns (c1: Machine, b1: Machine)
    requires Inlined(c, b, known, offset, base) && fewer <= known
    ensures b.stack == c.stack
    ensures c1 == (if cond >= 0 && |c.stack| > 0 then c.(stack := c.stack[1..]) else c)
    ensures b1 == (if cond >= 0 && |b.stack| > 0 then b.(stack := b.stack[1..]) else b)
    ensures Inlined(c1, b1, known, offset, base) && Inlined(c1, b1, fewer, offset, base)
  {
    c1 := if cond >= 0 && |c.stack| > 0 then c.(stack := c.stack[1..]) else c;
    b1 := if cond >= 0 && |b.stack| > 0 then b.(stack := b.stack[1..]) else b;
  }

  lemma BranchMove(h: Host, code: seq<Instr>, rest: seq<Instr>, m: Machine, fuel: nat)
    requires rest != [] && rest[0].JMP?
    ensures var JMP(l, cond) := rest[0];
      var m1 := if cond >= 0 && |m.stack| > 0 then m.(stack := m.stack[1..]) else m;
      Advance(h, code, rest, m, fuel) ==
        if cond >= 0 && |m.stack| == 0 then Halt(Fault)
        else if cond < 0 || m.stack[0] == cond then Jump(code, l, rest, m1, fuel)
        else Goto(rest[1..], m1, fuel)
  {
    hide Step;
  }

  lemma JumpInlined(offset: nat, code: seq<Instr>, whole: seq<Instr>, tail: seq<Instr>, k: nat, to: nat, l: int,
                    c: Machine, b: Machine, fuel: nat)
    requires k < |code| - 1 && to < |code| - 1
    requires AfterLabel(code, l) == Some(code[to + 1..])
    requires AfterLabel(whole, l) == Some(From(offset, code, to + 1, tail))
    ensures var r, s := Jump(code, l, code[k..], c, fuel), Jump(whole, l, From(offset, code, k, tail), b, fuel);
      && (r.Halt? ==> s == r && r.outcome.Timeout?)
      && (r.Goto? ==> && s == Goto(From(offset, code, to + 1, tail), b, r.fuel)
                      && r == Goto(code[to + 1..], c, if k < to + 1 then fuel else fuel - 1))
  {
  }

  /** The caller's machine once the inlined callee has finished as c. */
  predicate Resumed(b: Machine, c: Machine, offset: nat, base: Machine) {
    && Sized(b) && Sized(base) && offset < LOCAL_WORDS
    && b.stack == c.stack && b.heap == c.heap && b.ext == c.ext
    && b.inst == base.inst && b.cls == base.cls && b.locals[..offset] == base.locals[..offset]
  }

  /** Running the inlined body is running the callee, down to fuel, faults and timeouts. */
  lemma {:induction false} InlinedRun(h: Host, p: Program, offset: nat, code: seq<Instr>, whole: seq<Instr>,
                                      pre: seq<Instr>, tail: seq<Instr>, at: map<int, set<int>>, k: nat, known: set<int>,
                                      c: Machine, b: Machine, base: Machine, fuel: nat, d: nat)
    returns (b': Machine)
    requires BodyPlaced(offset, code, whole, pre, tail) && k < |code|
    requires WrittenFirst(code, at, Some({})) && WrittenFirst(code[k..], at, Some(known)) && Inlined(c, b, known, offset, base)
    ensures var r := Run(Activation(h, p, code, d), code[k..], c, fuel);
      var s := Run(Activation(h, p, whole, d), From(offset, code, k, tail), b, fuel);
      && (r.Done? ==> s == Run(Activation(h, p, whole, d), tail, b', r.fuel) && Resumed(b', r.m, offset, base))
      && (!r.Done? ==> s == r && !r.Fell?)
    decreases fuel, |code| - k
  {
    var callee, caller := Activation(h, p, code, d), Activation(h, p, whole, d);
    b' := b;
    if k == |code| - 1 {
      assert code[k..] == [RTRN] && From(offset, code, k, tail) == tail;
      return;
    }
    if code[k].MTHD_CALL? {
      FromNext(offset, code, k, tail);
      b' := InlinedCall(h, p, offset, code, whole, pre, tail, at, k, known, c, b, base, fuel, d);
      return;
    }
    var k', known' := AdvanceInlined(h, offset, code, whole, pre, tail, at, k, known, c, b, base, fuel);
    hide BodyPlaced, WrittenFirst, Advance, From, Inlined;
    var r := Advance(h, code, code[k..], c, fuel);
    if r.Goto? {
      var s := Advance(h, whole, From(offset, code, k, tail), b, fuel);
      b' := InlinedRun(h, p, offset, code, whole, pre, tail, at, k', known', r.m, s.m, base, r.fuel, d);
    }
  }

  lemma {:induction false} InlinedCall(h: Host, p: Program, offset: nat, code: seq<Instr>, whole: seq<Instr>,
                                       pre: seq<Instr>, tail: seq<Instr>, at: map<int, set<int>>, k: nat, known: set<int>,
                                       c: Machine, b: Machine, base: Machine, fuel: nat, d: nat)
    returns (b': Machine)
    requires BodyPlaced(offset, code, whole, pre, tail) && k < |code| - 1 && code[k].MTHD_CALL?
    requires WrittenFirst(code, at, Some({})) && WrittenFirst(code[k..], at, Some(known)) && Inlined(c, b, known, offset, base)
    ensures var r := Run(Activation(h, p, code, d), code[k..], c, fuel);
      var s := Run(Activation(h, p, whole, d), From(offset, code, k, tail), b, fuel);
      && (r.Done? ==> s == Run(Activation(h, p, whole, d), tail, b', r.fuel) && Resumed(b', r.m, offset, base))
      && (!r.Done? ==> s == r && !r.Fell?)
    decreases fuel, |code| - k, 0
  {
    hide BodyPlaced, Step;
    b' := b;
    FromNext(offset, code, k, tail);
    CallWritesNothing(code, at, k, known);
    hide From, WrittenFirst;
    var rest, rest' := code[k..], From(offset, code, k, tail);
    assert rest[0] == code[k] && rest[1..] == code[k + 1..] && rest'[0] == code[k] && rest'[1..] == From(offset, code, k + 1, tail);
    RunCall(Activation(h, p, code, d), rest, c, fuel);
    RunCall(Activation(h, p, whole, d), rest', b, fuel);
    CallInlined(h, p, code[k].id, c, b, known, offset, base, fuel, if d > 0 then d - 1 else 0);
    hide Run, Call, Callee, Inlined;
    var r := Call(h, p, code[k].id, c, fuel, if d > 0 then d - 1 else 0);
    if d > 0 && r.Done? {
      var s := Call(h, p, code[k].id, b, fuel, d - 1);
      b' := InlinedRun(h, p, offset, code, whole, pre, tail, at, k + 1, known, r.m, s.m, base, r.fuel, d);
    }
  }

  lemma CallWritesNothing(code: seq<Instr>, at: map<int, set<int>>, k: nat, known: set<int>)
    requires k < |code| && code[k].MTHD_CALL? && WrittenFirst(code[k..], at, Some(known))
    ensures WrittenFirst(code[k + 1..], at, Some(known))
  {
    assert code[k..][0] == code[k] && code[k..][1..] == code[k + 1..];
    assert known + Writes(code[k]) == known;
  }

  lemma CallInlined(h: Host, p: Program, id: MethodId, c: Machine, b: Machine, known: set<int>, offset: nat, base: Machine,
                    fuel: nat, depth: nat)
    requires Inlined(c, b, known, offset, base)
    ensures CallResolves(h, p, id, c) == CallResolves(h, p, id, b)
    ensures var r, s := Call(h, p, id, c, fuel, depth), Call(h, p, id, b, fuel, depth);
      && (r.Done? ==> s.Done? && s.fuel == r.fuel && Inlined(r.m, s.m, known, offset, base))
      && (!r.Done? ==> s == r)
  {
  }
}
