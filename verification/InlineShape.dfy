// What inlining leaves alone: after it a method again has all it takes to be inlined itself.

module InlineShape {
  import opened Wrappers
  import opened Words
  import opened Bytecode
  import opened Simulation
  import opened Passes
  import opened Inlining
  import opened InlineMethod
  import opened Pipeline
  import opened Shape
  import R = Ready

  // ----- Knowing more, certifying more -----

  predicate KnowsMore(k: Written, k': Written) {
    k'.None? || (k.Some? && k.value <= k'.value)
  }

  lemma {:induction false} Stronger(code: seq<Instr>, at: map<int, set<int>>, known: Written, more: Written)
    requires WrittenFirst(code, at, known) && (KnowsMore(known, more))
    ensures WrittenFirst(code, at, more)
  {
    if code != [] { Stronger(code[1..], at, WrittenBehind(code[0], at, known), WrittenBehind(code[0], at, more)); }
  }

  predicate Extends(at: map<int, set<int>>, at': map<int, set<int>>) {
    forall l <- at :: l in at' && at'[l] == at[l]
  }

  lemma {:induction false} Extended(code: seq<Instr>, at: map<int, set<int>>, at': map<int, set<int>>, known: Written)
    requires WrittenFirst(code, at, known) && Extends(at, at')
    ensures WrittenFirst(code, at', known)
  {
    if code != [] { Extended(code[1..], at, at', WrittenBehind(code[0], at, known)); }
  }

  function Only(at: map<int, set<int>>, labels: set<int>): map<int, set<int>> {
    map l | l in at && l in labels :: at[l]
  }

  /** A certificate need not speak of labels the code does not name. */
  lemma {:induction false} Restricted(code: seq<Instr>, at: map<int, set<int>>, known: Written, labels: set<int>)
    requires WrittenFirst(code, at, known) && LabelsOf(code) <= labels
    ensures WrittenFirst(code, Only(at, labels), known)
  {
    if code != [] { Restricted(code[1..], at, WrittenBehind(code[0], at, known), labels); }
  }

  /** All that code could ask for. */
  function Needs(code: seq<Instr>, at: map<int, set<int>>): set<int> {
    if code == [] then {} else
    Reads(code[0]) + Needs(code[1..], at)
    + if LabelOf(code[0]).Some? && LabelOf(code[0]).value in at then at[LabelOf(code[0]).value] else {}
  }

  /** Code no run comes by is certified for a run that has written everything. */
  lemma {:induction false} Revived(code: seq<Instr>, at: map<int, set<int>>, all: set<int>)
    requires WrittenFirst(code, at, None) && Needs(code, at) <= all
    ensures WrittenFirst(code, at, Some(all))
  {
    if code != [] {
      var next, next' := WrittenBehind(code[0], at, None), WrittenBehind(code[0], at, Some(all));
      if next.None? && next'.Some? {
        Revived(code[1..], at, all);
        Stronger(code[1..], at, Some(all), next');
      }
    }
  }

  // ----- A callee's certificate in the caller -----

  function Moved(slots: set<int>, offset: nat): set<int> {
    set x | x in slots :: x + offset + 1
  }

  lemma MovedSets(s: set<int>, t: set<int>, offset: nat)
    ensures Moved(s + t, offset) == Moved(s, offset) + Moved(t, offset)
    ensures s <= t ==> Moved(s, offset) <= Moved(t, offset)
  {
    forall x | x in Moved(s, offset) + Moved(t, offset) ensures x in Moved(s + t, offset) {
      assert x - offset - 1 in s + t;
    }
  }

  /** What the caller knows while the callee knows known: its own locals, the kept instance, the callee's locals. */
  function Carried(known: Written, own: set<int>, offset: nat): Written {
    if known.None? then None else Some(own + {offset} + Moved(known.value, offset))
  }

  predicate Carries(at: map<int, set<int>>, at': map<int, set<int>>, own: set<int>, offset: nat) {
    forall l <- at :: l in at' && at'[l] == own + {offset} + Moved(at[l], offset)
  }

  lemma RelocatedSlots(i: Instr, offset: nat)
    requires SlotsFit(offset, i) && (IsVariable(i) ==> i.ctx == LOCL)
    ensures Writes(Relocate(offset, i)) == Moved(Writes(i), offset)
    ensures Reads(Relocate(offset, i)) == if i.LOAD_INST_MEM? then {offset} else Moved(Reads(i), offset)
    ensures Named(Relocate(offset, i)) == if i.LOAD_INST_MEM? then {offset} else Moved(Named(i), offset)
  {
    if IsVariable(i) {
      var x := i.slot;
      assert Moved({x}, offset) == {x + offset + 1};
      assert Moved({x, x + 1}, offset) == {x + offset + 1, x + offset + 2};
    }
  }

  lemma MovedAfter(own: set<int>, offset: nat, known: set<int>, writes: set<int>)
    ensures own + {offset} + (known + writes) == own + {offset} + known + writes
  {
  }

  /** One relocated instruction, with the certificate carried over. */
  lemma RelocatedStep(i: Instr, at: map<int, set<int>>, at': map<int, set<int>>, known: Written, own: set<int>, offset: nat)
    requires SlotsFit(offset, i) && (IsVariable(i) ==> i.ctx == LOCL) && !i.RTRN?
    requires Carries(at, at', own, offset) && Allowed(i, at, known)
    ensures Allowed(Relocate(offset, i), at', Carried(known, own, offset))
    ensures WrittenBehind(Relocate(offset, i), at', Carried(known, own, offset)) == Carried(WrittenBehind(i, at, known), own, offset)
  {
    if i.LBL? || i.JMP? {
      if known.Some? { MovedSets(at[LabelOf(i).value], known.value, offset); }
    } else if known.Some? {
      RelocatedSlots(i, offset);
      MovedSets(Reads(i), known.value, offset);
      MovedSets(known.value, Writes(i), offset);
      assert i.LOAD_INST_MEM? ==> Reads(i) == {};
      hide Moved, Reads, Writes, SlotsFit;
      MovedAfter(own, offset, Moved(known.value, offset), Moved(Writes(i), offset));
    }
  }

  /** The inlined body from instruction k on, and what follows it. */
  lemma {:induction false} BodyFlows(offset: nat, code: seq<Instr>, k: nat, at: map<int, set<int>>, at': map<int, set<int>>,
                                     known: Written, own: set<int>, rest: seq<Instr>)
    requires CalleeReady(offset, code) && BodyInlinable(code, {}, false) && k < |code|
    requires WrittenFirst(code[k..], at, known) && Carries(at, at', own, offset) && WrittenFirst(rest, at', Some(own))
    ensures WrittenFirst(From(offset, code, k, rest), at', Carried(known, own, offset))
    decreases |code| - k
  {
    if k == |code| - 1 {
      assert From(offset, code, k, rest) == rest;
      Stronger(rest, at', Some(own), Carried(known, own, offset));
      return;
    }
    var i := code[k];
    FromNext(offset, code, k, rest);
    NotReturn(offset, code, k);
    OneReturn(code, {}, false, k);
    hide BodyInlinable, CalleeReady, From, Relocate, SlotsFit;
    WrittenStep(i, code[k + 1..], at, known);
    BodyFlows(offset, code, k + 1, at, at', WrittenBehind(i, at, known), own, rest);
    RelocatedStep(i, at, at', known, own, offset);
    WrittenStep(Relocate(offset, i), From(offset, code, k + 1, rest), at', Carried(known, own, offset));
  }

  /** A callee's body put in at a place a run comes by. */
  lemma BodyPut(offset: nat, code: seq<Instr>, at: map<int, set<int>>, at': map<int, set<int>>, own: set<int>, rest: seq<Instr>)
    requires CalleeReady(offset, code) && BodyInlinable(code, {}, false)
    requires WrittenFirst(code, at, Some({})) && Carries(at, at', own, offset) && WrittenFirst(rest, at', Some(own))
    ensures WrittenFirst(InlinedBody(offset, code) + rest, at', Some(own))
  {
    var store := STOR_INT_VAR(offset, LOCL);
    assert code[0..] == code && Front(code)[0..] == Front(code);
    BodyFlows(offset, code, 0, at, at', Some({}), own, rest);
    assert own + {offset} + Moved({}, offset) == own + {offset};
    assert InlinedBody(offset, code) + rest == [store] + From(offset, code, 0, rest);
    WrittenStep(store, From(offset, code, 0, rest), at', Some(own));
  }

  // ----- The whole block -----

  function LabelsIn(p: Program, ids: seq<MethodId>): set<int>
    requires forall id <- ids :: id in p
  {
    if ids == [] then {} else LabelsOf(p[ids[0]].code) + LabelsIn(p, ids[1..])
  }

  /** No two of the methods name a common label. */
  predicate LabelsApart(p: Program, ids: seq<MethodId>)
    requires forall id <- ids :: id in p
  {
    ids == [] || (LabelsOf(p[ids[0]].code) !! LabelsIn(p, ids[1..]) && LabelsApart(p, ids[1..]))
  }

  lemma {:induction false} InlinableLabels(code: seq<Instr>, labels: set<int>, found: bool)
    requires BodyInlinable(code, labels, found)
    ensures LabelsOf(code) !! labels
  {
    if code != [] { InlinableLabels(code[1..], labels, found || code[0].RTRN?); }
  }

  lemma Joined(at: map<int, set<int>>, at1: map<int, set<int>>, at2: map<int, set<int>>, own: set<int>, offset: nat)
    returns (at': map<int, set<int>>)
    requires Extends(at, at1) && at1.Keys !! at2.Keys
    ensures Extends(at, at') && Extends(at1, at') && Carries(at2, at', own, offset) && at'.Keys == at1.Keys + at2.Keys
  {
    at' := at1 + map l | l in at2 :: own + {offset} + Moved(at2[l], offset);
  }

  /** Inlining one callee in front of code that is certified already. */
  lemma PutInFront(offset: nat, code: seq<Instr>, at: map<int, set<int>>, at1: map<int, set<int>>, known: Written, rest: seq<Instr>)
    returns (at': map<int, set<int>>)
    requires CalleeReady(offset, code) && BodyInlinable(code, {}, false)
    requires Extends(at, at1) && at1.Keys !! LabelsOf(code) && WrittenFirst(rest, at1, known)
    ensures Extends(at, at') && at'.Keys <= at1.Keys + LabelsOf(code)
    ensures WrittenFirst(InlinedBody(offset, code) + rest, at', known)
  {
    var at2 :| WrittenFirst(code, at2, Some({}));
    var own := if known.None? then Needs(rest, at1) else known.value;
    if known.None? { Revived(rest, at1, own); }
    Restricted(code, at2, Some({}), LabelsOf(code));
    hide CalleeReady, BodyInlinable, InlinedBody, WrittenFirst;
    at' := Joined(at, at1, Only(at2, LabelsOf(code)), own, offset);
    Extended(rest, at1, at', Some(own));
    BodyPut(offset, code, Only(at2, LabelsOf(code)), at', own, rest);
    Stronger(InlinedBody(offset, code) + rest, at', Some(own), known);
  }

  lemma {:induction false} CallsFlow(p: Program, current: MethodId, offset: nat, labels: set<int>, code: seq<Instr>, space: nat,
                                     inlined: set<MethodId>, at: map<int, set<int>>, known: Written)
    returns (at': map<int, set<int>>)
    requires current in p && WrittenFirst(code, at, known) && at.Keys <= labels
    requires var ids := InlinedIds(p, current, labels, code, space, inlined);
      LabelsApart(p, ids) && forall id <- ids :: CalleeReady(offset, p[id].code)
    ensures WrittenFirst(InlineCalls(p, current, offset, labels, code, space, inlined), at', known)
    ensures Extends(at, at') && at'.Keys <= at.Keys + LabelsIn(p, InlinedIds(p, current, labels, code, space, inlined))
    decreases |code|
  {
    at' := at;
    if code == [] { return; }
    var i, ids := code[0], InlinedIds(p, current, labels, code, space, inlined);
    if i.MTHD_CALL? && CanInlineMethod(p, current, i.id, space, inlined, labels) {
      var callee := p[i.id];
      FewerLabels(callee.code, labels, false);
      InlinableLabels(callee.code, labels, false);
      hide CanInlineMethod, CalleeReady, BodyInlinable, InlinedBody;
      var rest := InlinedIds(p, current, labels, code[1..], space + 8 + callee.space, inlined + {i.id});
      assert ids == [i.id] + rest && ids[0] == i.id && ids[1..] == rest;
      assert WrittenBehind(i, at, known) == known by { CallKnows(i, at, known); }
      var at1 := CallsFlow(p, current, offset, labels, code[1..], space + 8 + callee.space, inlined + {i.id}, at, known);
      at' := PutInFront(offset, callee.code, at, at1, known,
                        InlineCalls(p, current, offset, labels, code[1..], space + 8 + callee.space, inlined + {i.id}));
    } else {
      hide CanInlineMethod, CalleeReady;
      var rest := InlineCalls(p, current, offset, labels, code[1..], space, inlined);
      at' := CallsFlow(p, current, offset, labels, code[1..], space, inlined, at, WrittenBehind(i, at, known));
      SameStep(i, at, at', known);
      WrittenStep(i, rest, at', known);
    }
  }

  lemma CallKnows(i: Instr, at: map<int, set<int>>, known: Written)
    requires i.MTHD_CALL?
    ensures WrittenBehind(i, at, known) == known
  {
    if known.Some? { assert known.value + {} == known.value; }
  }

  lemma SameStep(i: Instr, at: map<int, set<int>>, at': map<int, set<int>>, known: Written)
    requires Allowed(i, at, known) && Extends(at, at')
    ensures Allowed(i, at', known) && WrittenBehind(i, at', known) == WrittenBehind(i, at, known)
  {
  }

  // ----- What the inlined block is made of -----

  /** Every instruction is the block's own or belongs to an inlined body. */
  lemma {:induction false} FromWhere(p: Program, current: MethodId, offset: nat, labels: set<int>, code: seq<Instr>, space: nat,
                                     inlined: set<MethodId>, i: Instr) returns (id: MethodId)
    requires current in p && i in InlineCalls(p, current, offset, labels, code, space, inlined)
    ensures i in code || (id in InlinedIds(p, current, labels, code, space, inlined) && p[id].code != []
                          && i in InlinedBody(offset, p[id].code))
  {
    id := current;
    if code[0].MTHD_CALL? && CanInlineMethod(p, current, code[0].id, space, inlined, labels) {
      id := code[0].id;
      if i !in InlinedBody(offset, p[id].code) {
        id := FromWhere(p, current, offset, labels, code[1..], space + 8 + p[id].space, inlined + {id}, i);
      }
    } else if i != code[0] {
      id := FromWhere(p, current, offset, labels, code[1..], space, inlined, i);
    }
  }

  lemma {:induction false} StaysIn(p: Program, current: MethodId, offset: nat, labels: set<int>, code: seq<Instr>, space: nat,
                                   inlined: set<MethodId>, i: Instr)
    requires current in p && i in code && !i.MTHD_CALL?
    ensures i in InlineCalls(p, current, offset, labels, code, space, inlined)
  {
    if code[0].MTHD_CALL? && CanInlineMethod(p, current, code[0].id, space, inlined, labels) {
      StaysIn(p, current, offset, labels, code[1..], space + 8 + p[code[0].id].space, inlined + {code[0].id}, i);
    } else if i != code[0] {
      StaysIn(p, current, offset, labels, code[1..], space, inlined, i);
    }
  }

  lemma {:induction false} BodyIn(p: Program, current: MethodId, offset: nat, labels: set<int>, code: seq<Instr>, space: nat,
                                  inlined: set<MethodId>, id: MethodId, i: Instr)
    requires current in p && id in InlinedIds(p, current, labels, code, space, inlined)
    requires p[id].code != [] && i in InlinedBody(offset, p[id].code)
    ensures i in InlineCalls(p, current, offset, labels, code, space, inlined)
  {
    if code[0].MTHD_CALL? && CanInlineMethod(p, current, code[0].id, space, inlined, labels) {
      if id != code[0].id {
        BodyIn(p, current, offset, labels, code[1..], space + 8 + p[code[0].id].space, inlined + {code[0].id}, id, i);
      }
    } else {
      BodyIn(p, current, offset, labels, code[1..], space, inlined, id, i);
    }
  }

  /** What the pass tested of each method it inlined. */
  lemma {:induction false} Tested(p: Program, current: MethodId, labels: set<int>, code: seq<Instr>, space: nat, inlined: set<MethodId>,
                                  id: MethodId)
    requires current in p && id in InlinedIds(p, current, labels, code, space, inlined)
    ensures id in p && id != current && id !in inlined && MTHD_CALL(id) in code && p[id].cls == p[current].cls
    ensures '$' !in p[id].clsName && !Contains(p[id].name, ":New:") && !Contains(p[current].name, ":Main:o.System.String*,")
    ensures space + p[id].space <= LOCL_INLINE_MEM_MAX && |p[id].code| >= 2 && BodyInlinable(p[id].code, labels, false)
  {
    if code[0].MTHD_CALL? && CanInlineMethod(p, current, code[0].id, space, inlined, labels) {
      if id != code[0].id {
        Tested(p, current, labels, code[1..], space + 8 + p[code[0].id].space, inlined + {code[0].id}, id);
      }
    } else {
      Tested(p, current, labels, code[1..], space, inlined, id);
    }
  }

  lemma {:induction false} SpaceOf(p: Program, ids: seq<MethodId>, id: MethodId)
    requires id in ids && id in p
    ensures InlinedSpace(p, ids) >= 8 + p[id].space
  {
    if id != ids[0] { SpaceOf(p, ids[1..], id); }
  }

  lemma {:induction false} EndsInReturn(p: Program, current: MethodId, offset: nat, labels: set<int>, code: seq<Instr>, space: nat,
                                        inlined: set<MethodId>)
    requires current in p && code != [] && Last(code) == RTRN
    ensures InlineCalls(p, current, offset, labels, code, space, inlined) != []
    ensures Last(InlineCalls(p, current, offset, labels, code, space, inlined)) == RTRN
  {
    if |code| == 1 {
      assert code[1..] == [];
      return;
    }
    assert Last(code[1..]) == Last(code);
    hide CanInlineMethod;
    if code[0].MTHD_CALL? && CanInlineMethod(p, current, code[0].id, space, inlined, labels) {
      EndsInReturn(p, current, offset, labels, code[1..], space + 8 + p[code[0].id].space, inlined + {code[0].id});
    } else {
      EndsInReturn(p, current, offset, labels, code[1..], space, inlined);
    }
  }

  // ----- Methods that can be inlined, and stay so -----

  lemma {:induction false} NamedIn(code: seq<Instr>, i: Instr)
    requires i in code
    ensures Named(i) <= Locals(code)
  {
    if i != code[0] { NamedIn(code[1..], i); }
  }

  lemma {:induction false} NamedBy(code: seq<Instr>, x: int) returns (i: Instr)
    requires x in Locals(code)
    ensures i in code && x in Named(i)
  {
    i := code[0];
    if x !in Named(i) { i := NamedBy(code[1..], x); }
  }

  /** Three words of locals to every eight declared bytes, and one more: what inlining leaves of four bytes a word. */
  predicate Covered(m: Method) {
    forall x <- Locals(m.code) :: 0 <= x && 8 * (x + 1) <= 3 * m.space + 8
  }

  predicate Constructor(m: Method) {
    Contains(m.name, ":New:")
  }

  predicate Tidy(m: Method) {
    (!Constructor(m) ==> m.code != [] && Last(m.code) == RTRN) && Closed(m.code) && Covered(m)
  }

  /** Function variables are not moved with the other locals, so there are none. */
  predicate NoLocalFunctions(code: seq<Instr>) {
    forall i <- code :: IsFunctionVariable(i) ==> i.ctx != LOCL
  }

  /** All that inlining asks of a callee, and that the passes have to keep. */
  ghost predicate Fit(m: Method) {
    Tidy(m) && NoLocalFunctions(m.code) && WritesBeforeReads(m.code)
  }

  lemma LastLocalCovered(m: Method)
    requires Covered(m)
    ensures 8 * (LastLocalOffset(m.code) + 1) <= 3 * m.space + 8
  {
    LastLocalNamed(m.code);
    if LastLocalOffset(m.code) > 0 {
      var i :| i in m.code && IsVariable(i) && i.ctx == LOCL && LastLocalOffset(m.code) in SlotsOf(i);
      NamedIn(m.code, i);
    }
  }

  lemma SlotsCovered(m: Method, offset: nat, i: Instr)
    requires Covered(m) && NoLocalFunctions(m.code) && i in m.code && 8 * (offset + 1) + 3 * m.space + 8 <= 8 * LOCAL_WORDS
    ensures SlotsFit(offset, i)
  {
    NamedIn(m.code, i);
    if IsVariable(i) && i.ctx == LOCL {
      forall x | x in SlotsOf(i) ensures 0 <= x && offset + 1 + x < LOCAL_WORDS { assert x in Named(i); }
    }
  }

  lemma FitReady(m: Method, offset: nat)
    requires Fit(m) && !Constructor(m) && 8 * (offset + 1) + 3 * m.space + 8 <= 8 * LOCAL_WORDS
    ensures CalleeReady(offset, m.code)
  {
    forall i | i in m.code ensures SlotsFit(offset, i) { SlotsCovered(m, offset, i); }
  }

  /** A method stays tidy, and fit, when its block is optimized. */
  lemma FitOptimized(h: Host, p: Program, level: int, m: Method)
    requires Tidy(m) && BlockReady(h, p, level, m.code) && OptimizeBlock(h, p, level, m.code).Some?
    ensures var n := m.(code := OptimizeBlock(h, p, level, m.code).value); Tidy(n) && (Fit(m) ==> Fit(n))
  {
    var after := OptimizeBlock(h, p, level, m.code).value;
    OptimizeBlockKeeps(h, p, level, m.code);
    hide OptimizeBlock, BlockReady;
    KeepsClosed(m.code, after);
    if Fit(m) {
      var at :| WrittenFirst(m.code, at, Some({}));
      assert WrittenFirst(after, at, Some({}));
    }
  }

  lemma {:induction false} MarksIn(code: seq<Instr>, l: int)
    ensures l in MarksOf(code) <==> LBL(l) in code
  {
    if code != [] { MarksIn(code[1..], l); }
  }

  /** Jumps that land still land. */
  lemma KeepsClosed(x: seq<Instr>, y: seq<Instr>)
    requires Keeps(x, y) && Closed(x)
    ensures Closed(y)
  {
    forall i | i in y && i.JMP? ensures LBL(i.target) in y {
      MarksIn(x, i.target);
      MarksIn(y, i.target);
    }
  }

  /** The locals of the inlined block are the caller's, the kept instance's and the moved ones of the callees. */
  lemma InlinedNames(p: Program, current: MethodId, offset: nat, labels: set<int>, code: seq<Instr>, space: nat, inlined: set<MethodId>,
                     x: int) returns (id: MethodId)
    requires current in p && x in Locals(InlineCalls(p, current, offset, labels, code, space, inlined))
    requires forall id <- InlinedIds(p, current, labels, code, space, inlined) :: NoLocalFunctions(p[id].code)
    ensures x in Locals(code) || (id in InlinedIds(p, current, labels, code, space, inlined)
                                  && (x == offset || x - offset - 1 in Locals(p[id].code)))
  {
    var i := NamedBy(InlineCalls(p, current, offset, labels, code, space, inlined), x);
    id := FromWhere(p, current, offset, labels, code, space, inlined, i);
    if i in code { NamedIn(code, i); } else { BodyNames(offset, p[id].code, i, x); }
  }

  lemma BodyNames(offset: nat, code: seq<Instr>, i: Instr, x: int)
    requires code != [] && NoLocalFunctions(code) && i in InlinedBody(offset, code) && x in Named(i)
    ensures x == offset || x - offset - 1 in Locals(code)
  {
    if i != STOR_INT_VAR(offset, LOCL) {
      var k :| 0 <= k < |code| - 1 && i == Relocate(offset, Front(code)[k]);
      var j := Front(code)[k];
      assert j in code;
      NamedIn(code, j);
      MovedNames(j, offset, x);
    }
  }

  lemma MovedNames(i: Instr, offset: nat, x: int)
    requires (IsFunctionVariable(i) ==> i.ctx != LOCL) && x in Named(Relocate(offset, i))
    ensures x == offset || x - offset - 1 in Named(i)
  {
  }

  lemma BodyPlain(offset: nat, code: seq<Instr>, i: Instr, scaling: R.Scaling)
    requires code != [] && R.AllPlain(code, scaling) && i in InlinedBody(offset, code)
    requires forall x <- Named(i) :: 0 <= x < LOCAL_WORDS
    ensures R.Plain(i, scaling)
  {
    if i != STOR_INT_VAR(offset, LOCL) {
      var k :| 0 <= k < |code| - 1 && i == Relocate(offset, Front(code)[k]);
      var j := Front(code)[k];
      assert j in code && R.Plain(j, scaling);
    }
    if (i.LOAD_INT_VAR? || i.STOR_INT_VAR? || i.COPY_INT_VAR?) && i.ctx == LOCL { assert i.slot in Named(i); }
  }

  /** The callees an inlining pass takes are fit, and name no label twice among them. */
  ghost predicate CalleesFit(p: Program, id: MethodId, reserved: int)
    requires id in p
  {
    var ids := InlinedIds(p, id, LabelsOf(p[id].code) + {reserved}, p[id].code, p[id].space, {});
    LabelsApart(p, ids) && forall c <- ids :: Fit(p[c])
  }

  lemma CalleeSpace(p: Program, id: MethodId, reserved: int, c: MethodId)
    requires id in p && Covered(p[id])
    requires c in InlinedIds(p, id, LabelsOf(p[id].code) + {reserved}, p[id].code, p[id].space, {})
    ensures c in p && !Constructor(p[c]) && p[c].cls == p[id].cls
    ensures var offset := LastLocalOffset(p[id].code) + 2;
      8 * (offset + 1) + 3 * p[c].space + 8 <= 8 * LOCAL_WORDS
      && InlineInto(p, id, reserved).space >= p[id].space + 8 + p[c].space
  {
    var labels := LabelsOf(p[id].code) + {reserved};
    Tested(p, id, labels, p[id].code, p[id].space, {}, c);
    LastLocalCovered(p[id]);
    SpaceOf(p, InlinedIds(p, id, labels, p[id].code, p[id].space, {}), c);
  }

  /** Inlining keeps to three words for every eight bytes. */
  lemma InlinedCovered(p: Program, id: MethodId, reserved: int)
    requires id in p && Tidy(p[id]) && CalleesFit(p, id, reserved)
    ensures Covered(InlineInto(p, id, reserved))
  {
    var n := InlineInto(p, id, reserved);
    hide InlineInto, Tidy, CalleesFit, Locals;
    forall x | x in Locals(n.code) ensures 0 <= x && 8 * (x + 1) <= 3 * n.space + 8 {
      InlinedName(p, id, reserved, x);
    }
  }

  lemma InlinedName(p: Program, id: MethodId, reserved: int, x: int)
    requires id in p && Covered(p[id]) && CalleesFit(p, id, reserved) && x in Locals(InlineInto(p, id, reserved).code)
    ensures 0 <= x && 8 * (x + 1) <= 3 * InlineInto(p, id, reserved).space + 8
  {
    hide Covered, Locals, NoLocalFunctions, CalleesFit, LastLocalOffset, LabelsOf, InlineCalls, InlinedIds, Constructor;
    var m, labels := p[id], LabelsOf(p[id].code) + {reserved};
    CalleesCovered(p, id, reserved);
    var c := InlinedNames(p, id, LastLocalOffset(m.code) + 2, labels, m.code, m.space, {}, x);
    if x in Locals(m.code) { LocalCovered(m, x); } else {
      CalleeSpace(p, id, reserved, c);
      MovedCovered(m, p[c], x, InlineInto(p, id, reserved).space);
    }
  }

  lemma LocalCovered(m: Method, x: int)
    requires Covered(m) && x in Locals(m.code)
    ensures 0 <= x && 8 * (x + 1) <= 3 * m.space + 8
  {
  }

  lemma MovedCovered(m: Method, c: Method, x: int, space: int)
    requires Covered(m) && Covered(c) && space >= m.space + 8 + c.space
    requires x == LastLocalOffset(m.code) + 2 || x - LastLocalOffset(m.code) - 3 in Locals(c.code)
    ensures 0 <= x && 8 * (x + 1) <= 3 * space + 8
  {
    LastLocalCovered(m);
    hide LastLocalOffset, Locals;
  }

  lemma CalleesCovered(p: Program, id: MethodId, reserved: int)
    requires id in p && CalleesFit(p, id, reserved)
    ensures forall c <- InlinedIds(p, id, LabelsOf(p[id].code) + {reserved}, p[id].code, p[id].space, {}) ::
      Covered(p[c]) && NoLocalFunctions(p[c].code)
  {
    hide LabelsApart, WritesBeforeReads, Covered, NoLocalFunctions, InlinedIds, LabelsOf, Closed, Last, Contains;
  }

  lemma InlinedPlain(p: Program, id: MethodId, reserved: int, scaling: R.Scaling)
    requires id in p && Tidy(p[id]) && CalleesFit(p, id, reserved) && R.PlainProgram(p, scaling)
    ensures R.AllPlain(InlineInto(p, id, reserved).code, scaling)
  {
    var m, n, labels := p[id], InlineInto(p, id, reserved), LabelsOf(p[id].code) + {reserved};
    var offset := LastLocalOffset(m.code) + 2;
    forall i | i in n.code ensures R.Plain(i, scaling) {
      var c := FromWhere(p, id, offset, labels, m.code, m.space, {}, i);
      if i !in m.code {
        CalleeSpace(p, id, reserved, c);
        forall x | x in Named(i) ensures 0 <= x < LOCAL_WORDS { BodyNames(offset, p[c].code, i, x); }
        BodyPlain(offset, p[c].code, i, scaling);
      } else {
        assert R.AllPlain(m.code, scaling);
      }
    }
  }

  lemma InlinedFunctions(p: Program, id: MethodId, reserved: int)
    requires id in p && Covered(p[id]) && NoLocalFunctions(p[id].code) && CalleesFit(p, id, reserved)
    ensures NoLocalFunctions(InlineInto(p, id, reserved).code)
  {
    var m, n, labels := p[id], InlineInto(p, id, reserved), LabelsOf(p[id].code) + {reserved};
    var offset := LastLocalOffset(m.code) + 2;
    CalleesCovered(p, id, reserved);
    hide LabelsOf, InlineCalls, InlinedIds, Covered, CalleesFit;
    forall i | i in n.code && IsFunctionVariable(i) ensures i.ctx != LOCL {
      var c := FromWhere(p, id, offset, labels, m.code, m.space, {}, i);
      if i !in m.code { BodyFunction(offset, p[c].code, i); }
    }
  }

  lemma BodyFunction(offset: nat, code: seq<Instr>, i: Instr)
    requires code != [] && i in InlinedBody(offset, code) && IsFunctionVariable(i)
    ensures i in code
  {
    var k :| 0 <= k < |code| - 1 && i == Relocate(offset, Front(code)[k]);
    assert Front(code)[k] in code;
  }

  lemma InlinedClosed(p: Program, id: MethodId, reserved: int)
    requires id in p && Tidy(p[id]) && CalleesFit(p, id, reserved)
    ensures Closed(InlineInto(p, id, reserved).code)
  {
    var m, n, labels := p[id], InlineInto(p, id, reserved), LabelsOf(p[id].code) + {reserved};
    var offset := LastLocalOffset(m.code) + 2;
    forall i | i in n.code && i.JMP? ensures LBL(i.target) in n.code {
      var c := FromWhere(p, id, offset, labels, m.code, m.space, {}, i);
      if i in m.code {
        StaysIn(p, id, offset, labels, m.code, m.space, {}, LBL(i.target));
      } else {
        CalleeSpace(p, id, reserved, c);
        BodyLands(offset, p[c].code, i);
        BodyIn(p, id, offset, labels, m.code, m.space, {}, c, LBL(i.target));
      }
    }
  }

  lemma BodyLands(offset: nat, code: seq<Instr>, i: Instr)
    requires code != [] && Last(code) == RTRN && Closed(code) && i in InlinedBody(offset, code) && i.JMP?
    ensures LBL(i.target) in InlinedBody(offset, code)
  {
    var k :| 0 <= k < |code| - 1 && i == Relocate(offset, Front(code)[k]);
    assert Front(code)[k] == i && i in code;
    assert LBL(i.target) in Front(code);
    RelocateLabels(offset, Front(code), i.target);
  }

  lemma InlinedWrites(p: Program, id: MethodId, reserved: int)
    requires id in p && Fit(p[id]) && CalleesFit(p, id, reserved)
    ensures WritesBeforeReads(InlineInto(p, id, reserved).code)
  {
    var m, labels := p[id], LabelsOf(p[id].code) + {reserved};
    var offset := LastLocalOffset(m.code) + 2;
    var at :| WrittenFirst(m.code, at, Some({}));
    Restricted(m.code, at, Some({}), LabelsOf(m.code));
    hide WrittenFirst, NoLocalFunctions, Closed, Covered, Constructor, InlineCalls, InlinedIds, LabelsOf, LastLocalOffset, Last, CalleeReady, LabelsApart, Only;
    forall c | c in InlinedIds(p, id, labels, m.code, m.space, {}) ensures CalleeReady(offset, p[c].code) {
      CalleeSpace(p, id, reserved, c);
      FitReady(p[c], offset);
    }
    var at' := CallsFlow(p, id, offset, labels, m.code, m.space, {}, Only(at, LabelsOf(m.code)), Some({}));
  }

  lemma InlinedReturns(p: Program, id: MethodId, reserved: int)
    requires id in p && Tidy(p[id])
    ensures var n := InlineInto(p, id, reserved); !Constructor(n) ==> n.code != [] && Last(n.code) == RTRN
  {
    hide Closed, Covered, InlineCalls, InlinedIds, Contains, LabelsOf, LastLocalOffset;
    var m := p[id];
    if !Constructor(m) {
      EndsInReturn(p, id, LastLocalOffset(m.code) + 2, LabelsOf(m.code) + {reserved}, m.code, m.space, {});
    }
  }

  /** A method stays tidy, and fit, when fit methods are inlined in it. */
  lemma FitInlined(p: Program, id: MethodId, reserved: int)
    requires id in p && Tidy(p[id]) && CalleesFit(p, id, reserved)
    ensures Tidy(InlineInto(p, id, reserved)) && (Fit(p[id]) ==> Fit(InlineInto(p, id, reserved)))
    ensures NoLocalFunctions(p[id].code) ==> NoLocalFunctions(InlineInto(p, id, reserved).code)
  {
    hide NoLocalFunctions, Closed, Covered, WritesBeforeReads, InlineInto, Constructor, Last, CalleesFit;
    InlinedCovered(p, id, reserved);
    InlinedClosed(p, id, reserved);
    InlinedReturns(p, id, reserved);
    if NoLocalFunctions(p[id].code) { InlinedFunctions(p, id, reserved); }
    if Fit(p[id]) { InlinedWrites(p, id, reserved); }
  }
}
