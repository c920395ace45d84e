// Frame space after inlining: the words the inlined block uses against the bytes InlineMethod declares.

module InlineSpace {
  import opened Wrappers
  import opened Words
  import opened Bytecode
  import opened Simulation
  import opened Passes
  import opened Inlining
  import opened InlineMethod
  import opened Pipeline

  function Most(a: int, b: int): int {
    if a < b then b else a
  }

  /** Words of the frame up to the last one the instruction names. */
  function InstrWords(i: Instr): nat {
    if IsVariable(i) && i.ctx == LOCL && i.slot >= 0
    then i.slot + if i.LOAD_FLOAT_VAR? || i.STOR_FLOAT_VAR? || i.COPY_FLOAT_VAR? then 2 else 1
    else 0
  }

  function WordsUsed(code: seq<Instr>): nat {
    if code == [] then 0 else Most(InstrWords(code[0]), WordsUsed(code[1..]))
  }

  predicate SlotsNamed(code: seq<Instr>) {
    forall i <- code :: IsVariable(i) && i.ctx == LOCL ==> i.slot >= 0
  }

  /** The declared bytes hold every word the block uses. */
  predicate SpaceHolds(m: Method) {
    4 * WordsUsed(m.code) <= m.space
  }

  lemma {:induction false} WordsJoin(x: seq<Instr>, y: seq<Instr>)
    ensures WordsUsed(x + y) == Most(WordsUsed(x), WordsUsed(y))
  {
    if x == [] {
      assert x + y == y;
    } else {
      assert (x + y)[0] == x[0] && (x + y)[1..] == x[1..] + y;
      WordsJoin(x[1..], y);
    }
  }

  lemma {:induction false} WordsRelocated(offset: nat, code: seq<Instr>)
    requires SlotsNamed(code)
    ensures WordsUsed(RelocateAll(offset, code)) <= offset + 1 + WordsUsed(code)
    ensures WordsUsed(code) > 0 ==> WordsUsed(RelocateAll(offset, code)) == offset + 1 + WordsUsed(code)
  {
    if code != [] {
      assert code[0] in code && forall i <- code[1..] :: i in code;
      WordsRelocated(offset, code[1..]);
      assert RelocateAll(offset, code)[0] == Relocate(offset, code[0]);
      assert RelocateAll(offset, code)[1..] == RelocateAll(offset, code[1..]);
      WordsOfInstr(offset, code[0]);
      hide Relocate, InstrWords, RelocateAll;
    }
  }

  lemma WordsOfInstr(offset: nat, i: Instr)
    requires IsVariable(i) && i.ctx == LOCL ==> i.slot >= 0
    ensures InstrWords(Relocate(offset, i)) <= offset + 1 + InstrWords(i)
    ensures InstrWords(i) > 0 ==> InstrWords(Relocate(offset, i)) == offset + 1 + InstrWords(i)
  {
  }

  lemma InlinedWords(offset: nat, code: seq<Instr>)
    requires code != [] && SlotsNamed(Front(code))
    ensures WordsUsed(InlinedBody(offset, code)) == offset + 1 + WordsUsed(Front(code))
  {
    var body := RelocateAll(offset, Front(code));
    WordsRelocated(offset, Front(code));
    assert ([STOR_INT_VAR(offset, LOCL)] + body)[1..] == body;
  }

  /** Own variables end at most one word behind the last local's slot. */
  lemma {:induction false} OwnWords(code: seq<Instr>)
    ensures WordsUsed(code) <= LastLocalOffset(code) + 2
  {
    if code != [] { OwnWords(code[1..]); }
  }

  /** The most words one of the methods uses. */
  function MostWords(p: Program, ids: seq<MethodId>): nat
    requires forall id <- ids :: id in p
  {
    if ids == [] then 0
    else Most(if p[ids[0]].code == [] then 0 else WordsUsed(Front(p[ids[0]].code)), MostWords(p, ids[1..]))
  }

  predicate AllNamed(p: Program) {
    forall id :: id in p ==> SlotsNamed(p[id].code)
  }

  /** The inlined block uses the caller's words, or, with anything inlined, those of the largest callee
      behind the kept instance. */
  lemma {:induction false} InlineCallsWords(p: Program, current: MethodId, offset: nat, labels: set<int>, code: seq<Instr>,
                                            space: nat, inlined: set<MethodId>)
    requires current in p && AllNamed(p) && WordsUsed(code) <= offset
    ensures var ids := InlinedIds(p, current, labels, code, space, inlined);
      WordsUsed(InlineCalls(p, current, offset, labels, code, space, inlined)) ==
        if ids == [] then WordsUsed(code) else offset + 1 + MostWords(p, ids)
  {
    if code == [] { return; }
    if code[0].MTHD_CALL? && CanInlineMethod(p, current, code[0].id, space, inlined, labels) {
      var id := code[0].id;
      var more, taken := space + 8 + p[id].space, inlined + {id};
      var rest, ids := InlineCalls(p, current, offset, labels, code[1..], more, taken), InlinedIds(p, current, labels, code[1..], more, taken);
      assert p[id].code != [] && SlotsNamed(Front(p[id].code)) && WordsUsed(code) == WordsUsed(code[1..]);
      assert InlineCalls(p, current, offset, labels, code, space, inlined) == InlinedBody(offset, p[id].code) + rest;
      assert InlinedIds(p, current, labels, code, space, inlined) == [id] + ids;
      hide *;
      InlineCallsWords(p, current, offset, labels, code[1..], more, taken);
      InlinedWords(offset, p[id].code);
      WordsJoin(InlinedBody(offset, p[id].code), rest);
      MostOf(p, id, ids);
    } else {
      hide CanInlineMethod, AllNamed;
      var rest := InlineCalls(p, current, offset, labels, code[1..], space, inlined);
      InlineCallsWords(p, current, offset, labels, code[1..], space, inlined);
      assert ([code[0]] + rest)[1..] == rest;
    }
  }

  lemma MostOf(p: Program, id: MethodId, ids: seq<MethodId>)
    requires id in p && forall k <- ids :: k in p
    ensures MostWords(p, [id] + ids) == Most(if p[id].code == [] then 0 else WordsUsed(Front(p[id].code)), MostWords(p, ids))
  {
    assert ([id] + ids)[1..] == ids;
  }

  function IdsInto(p: Program, id: MethodId, reserved: int): seq<MethodId>
    requires id in p
  {
    InlinedIds(p, id, LabelsOf(p[id].code) + {reserved}, p[id].code, p[id].space, {})
  }

  /** However many calls are inlined, the declared space holds the block exactly when it holds the caller's last
      local, two words, the instance and the largest callee. */
  lemma InlinedSpaceExact(p: Program, id: MethodId, reserved: int)
    requires id in p && AllNamed(p)
    ensures var ids := IdsInto(p, id, reserved);
      SpaceHolds(InlineInto(p, id, reserved)) <==>
        if ids == [] then SpaceHolds(p[id])
        else 4 * (LastLocalOffset(p[id].code) + 3 + MostWords(p, ids)) <= p[id].space + InlinedSpace(p, ids)
  {
    var code := p[id].code;
    OwnWords(code);
    InlineCallsWords(p, id, LastLocalOffset(code) + 2, LabelsOf(code) + {reserved}, code, p[id].space, {});
  }

  /** If every method's space holds its own words and the caller's covers its last local, inlining any number of
      calls leaves enough space. */
  lemma EnoughSpace(p: Program, id: MethodId, reserved: int)
    requires id in p && AllNamed(p) && forall k :: k in p ==> SpaceHolds(p[k])
    requires 4 * (LastLocalOffset(p[id].code) + 1) <= p[id].space
    ensures SpaceHolds(InlineInto(p, id, reserved))
  {
    InlinedSpaceExact(p, id, reserved);
    MostWordsHeld(p, IdsInto(p, id, reserved));
  }

  lemma {:induction false} MostWordsHeld(p: Program, ids: seq<MethodId>)
    requires forall id <- ids :: id in p && SpaceHolds(p[id])
    ensures ids != [] ==> 4 * MostWords(p, ids) + 8 <= InlinedSpace(p, ids)
  {
    if ids != [] {
      assert forall id <- ids[1..] :: id in ids;
      MostWordsHeld(p, ids[1..]);
      var code := p[ids[0]].code;
      if code != [] {
        assert code == Front(code) + [Last(code)];
        WordsJoin(Front(code), [Last(code)]);
      }
    }
  }

  /** One inlined callee that fills its space: enough exactly when the caller's space covers its last local,
      which is slot 0 for a caller without locals. */
  lemma TightCalleeExact(p: Program, id: MethodId, callee: MethodId, reserved: int)
    requires id in p && AllNamed(p) && IdsInto(p, id, reserved) == [callee]
    requires p[callee].code != [] && 4 * WordsUsed(Front(p[callee].code)) == p[callee].space
    ensures SpaceHolds(InlineInto(p, id, reserved)) <==> 4 * (LastLocalOffset(p[id].code) + 1) <= p[id].space
  {
    var ids := [callee];
    InlinedSpaceExact(p, id, reserved);
    assert ids[1..] == [];
    assert MostWords(p, ids) == Most(WordsUsed(Front(p[callee].code)), MostWords(p, ids[1..]));
    assert InlinedSpace(p, ids) == 8 + p[callee].space + InlinedSpace(p, ids[1..]);
  }

  /** A caller without locals and a callee that fills its space: one word too few is declared. */
  lemma NoLocalsOverflow(p: Program, id: MethodId, callee: MethodId, reserved: int)
    requires id in p && AllNamed(p) && IdsInto(p, id, reserved) == [callee]
    requires WordsUsed(p[id].code) == 0 && p[id].space == 0
    requires p[callee].code != [] && 4 * WordsUsed(Front(p[callee].code)) == p[callee].space
    ensures SpaceHolds(p[id]) && InlineInto(p, id, reserved).space + 4 == 4 * WordsUsed(InlineInto(p, id, reserved).code)
  {
    var code, ids := p[id].code, [callee];
    NoLocals(code);
    OwnWords(code);
    InlineCallsWords(p, id, LastLocalOffset(code) + 2, LabelsOf(code) + {reserved}, code, p[id].space, {});
    assert ids[1..] == [];
    assert MostWords(p, ids) == Most(WordsUsed(Front(p[callee].code)), MostWords(p, ids[1..]));
    assert InlinedSpace(p, ids) == 8 + p[callee].space + InlinedSpace(p, ids[1..]);
  }

  lemma {:induction false} NoLocals(code: seq<Instr>)
    requires WordsUsed(code) == 0
    ensures LastLocalOffset(code) == 0
  {
    if code != [] { NoLocals(code[1..]); }
  }
}
