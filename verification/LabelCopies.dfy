// Whose labels a method holds once its callees were inlined, counted: a label stays unique exactly as long as
// the method that placed it comes to a caller only once.

module LabelCopies {
  import opened Wrappers
  import opened Words
  import opened Bytecode
  import opened Simulation
  import opened Passes
  import opened Accessors
  import opened Inlining
  import opened InlineMethod
  import opened Pipeline
  import opened Shape
  import opened InlineShape
  import opened Stages

  // ----- No pass over a block touches its labels -----

  predicate SameMarks(x: seq<Instr>, y: seq<Instr>) {
    MarksOf(y) == MarksOf(x) && (x != [] && Last(x) == RTRN ==> y != [] && Last(y) == RTRN)
  }

  lemma {:induction false} MarksJoin(x: seq<Instr>, y: seq<Instr>)
    ensures MarksOf(x + y) == MarksOf(x) + MarksOf(y)
  {
    if x == [] {
      assert x + y == y;
    } else {
      assert x + y == [x[0]] + (x[1..] + y) && x == [x[0]] + x[1..];
      MarksStep(x[0], x[1..] + y);
      MarksStep(x[0], x[1..]);
      MarksJoin(x[1..], y);
    }
  }

  lemma {:induction false} NoMarks(ws: seq<Instr>)
    requires forall i <- ws :: !i.LBL?
    ensures MarksOf(ws) == []
  {
    if ws != [] { NoMarks(ws[1..]); }
  }

  /** Held-back stores, the next instruction, and what becomes of the rest. */
  lemma PutMarks(ws: seq<Instr>, i: Instr, rest: seq<Instr>, after: seq<Instr>)
    requires (forall j <- ws :: !j.LBL?) && SameMarks(rest, after) && (rest == [] ==> after == [])
    ensures SameMarks([i] + rest, ws + [i] + after)
  {
    hide MarksOf;
    NoMarks(ws);
    MarksJoin(ws, [i]);
    MarksJoin(ws + [i], after);
    MarksJoin([i], rest);
    LastJoin([i], rest);
    LastJoin(ws + [i], after);
  }

  lemma LastJoin(x: seq<Instr>, y: seq<Instr>)
    requires x != []
    ensures x + y != [] && Last(x + y) == if y == [] then Last(x) else Last(y)
  {
  }

  lemma {:induction false} ReplaceStoresMarks(ws: seq<Instr>, rest: seq<Instr>)
    requires forall i <- ws :: Stores(i)
    ensures rest == [] ==> ReplaceStores(ws, rest) == ws
    ensures rest != [] ==> SameMarks(rest, ReplaceStores(ws, rest))
    decreases |rest|
  {
    if rest == [] { return; }
    var i, tail := rest[0], rest[1..];
    assert [i] + tail == rest;
    hide SameMarks;
    if (i.LOAD_INT_VAR? || i.LOAD_FLOAT_VAR?) && ws != [] && CopyFor(Last(ws), i).Some? {
      assert forall j <- Front(ws) :: j in ws;
      ReplaceStoresMarks(Front(ws), tail);
      CopyMarks(ws, i, tail, ReplaceStores(Front(ws), tail));
    } else if Stores(i) && !(ws != [] && Last(ws).STOR_INT_VAR?) {
      ReplaceStoresMarks(ws + [i], tail);
      HeldMarks(ws, i, tail, ReplaceStores(ws + [i], tail));
    } else {
      ReplaceStoresMarks([], tail);
      EmptyMarks(tail, ReplaceStores([], tail));
      PutMarks(ws, i, tail, ReplaceStores([], tail));
    }
  }

  lemma EmptyMarks(x: seq<Instr>, y: seq<Instr>)
    requires if x == [] then y == [] else SameMarks(x, y)
    ensures SameMarks(x, y)
  {
  }

  lemma CopyMarks(ws: seq<Instr>, load: Instr, rest: seq<Instr>, after: seq<Instr>)
    requires ws != [] && (forall i <- ws :: Stores(i)) && CopyFor(Last(ws), load).Some?
    requires if rest == [] then after == Front(ws) else SameMarks(rest, after)
    ensures SameMarks([load] + rest, [CopyFor(Last(ws), load).value] + after)
  {
    var copy := CopyFor(Last(ws), load).value;
    assert forall i <- Front(ws) :: i in ws;
    NoMarks(Front(ws));
    assert !load.LBL? && !copy.LBL? && load != RTRN;
    assert Front(ws) != [] ==> Last(Front(ws)) in ws;
    hide Stores, CopyFor;
    SwappedMarks(load, copy, rest, after);
  }

  lemma SwappedMarks(i: Instr, j: Instr, rest: seq<Instr>, after: seq<Instr>)
    requires !i.LBL? && !j.LBL? && i != RTRN && MarksOf(after) == MarksOf(rest) && (rest != [] ==> SameMarks(rest, after))
    ensures SameMarks([i] + rest, [j] + after)
  {
    MarksStep(i, rest);
    MarksStep(j, after);
    if rest != [] { assert Last([i] + rest) == Last(rest); }
    if after != [] { assert Last([j] + after) == Last(after); }
  }

  lemma HeldMarks(ws: seq<Instr>, store: Instr, rest: seq<Instr>, after: seq<Instr>)
    requires Stores(store) && forall i <- ws :: Stores(i)
    requires if rest == [] then after == ws + [store] else SameMarks(rest, after)
    ensures SameMarks([store] + rest, after)
  {
    NoMarks(ws + [store]);
    MarksStep(store, rest);
    if rest != [] { assert Last([store] + rest) == Last(rest); }
  }

  lemma ReplacedMarks(code: seq<Instr>)
    ensures SameMarks(code, ReplaceInstructions(code))
  {
    var n := PrologueLength(code);
    var tail := code[n..];
    assert code[..n] + tail == code;
    ReplaceStoresMarks([], tail);
    EmptyMarks(tail, ReplaceStores([], tail));
    hide ReplaceStores, PrologueLength;
    MarksJoin(code[..n], tail);
    MarksJoin(code[..n], ReplaceStores([], tail));
    if tail != [] { assert Last(tail) == Last(code); }
    if ReplaceStores([], tail) != [] { assert Last(code[..n] + ReplaceStores([], tail)) == Last(ReplaceStores([], tail)); }
  }

  /** An optimized block places the same labels in the same order. */
  lemma OptimizedMarks(h: Host, p: Program, level: int, code: seq<Instr>)
    requires EndsFlushed(code) && OptimizeBlock(h, p, level, code).Some?
    ensures SameMarks(code, OptimizeBlock(h, p, level, code).value)
  {
    if level <= 0 { CleanedKeeps(code); return; }
    FoldedKeeps(h, p, code);
    if level == 1 { return; }
    var folded := Folded(h, p, code).value;
    var reduced := ReduceStrength([], folded);
    assert [] + folded == folded;
    ReduceStrengthKeeps([], folded);
    if level > 2 { ReplacedMarks(reduced); }
  }

  // ----- Counting labels -----

  type Bodies = map<MethodId, seq<MethodId>>

  /** How often the bodies place each label. */
  function Tally(o: Program, bodies: seq<MethodId>): multiset<int> {
    if bodies == [] then multiset{} else (if bodies[0] in o then multiset(MarksOf(o[bodies[0]].code)) else multiset{}) + Tally(o, bodies[1..])
  }

  lemma {:induction false} TallyJoin(o: Program, x: seq<MethodId>, y: seq<MethodId>)
    ensures Tally(o, x + y) == Tally(o, x) + Tally(o, y)
  {
    if x == [] {
      assert x + y == y;
    } else {
      assert (x + y)[0] == x[0] && (x + y)[1..] == x[1..] + y;
      TallyJoin(o, x[1..], y);
    }
  }

  function Gather(bodies: Bodies, ids: seq<MethodId>): seq<MethodId> {
    if ids == [] then [] else (if ids[0] in bodies then bodies[ids[0]] else []) + Gather(bodies, ids[1..])
  }

  /** The original bodies in each method after a pass. */
  function Grown(p: Program, level: int, reserved: int, bodies: Bodies, pass: Pass): Bodies {
    if pass.Inline? && level > 2 && pass.id in p && pass.id in bodies
    then bodies[pass.id := bodies[pass.id] + Gather(bodies, Taking(p, pass.id, reserved))]
    else bodies
  }

  /** The original bodies in each method after all passes. */
  function BodiesAfter(h: Host, p: Program, level: int, reserved: int, passes: seq<Pass>, bodies: Bodies): Bodies {
    if passes == [] then bodies else
    var q := RunPass(h, p, level, reserved, passes[0]);
    if q.None? then bodies
    else BodiesAfter(h, q.value, level, reserved, passes[1..], Grown(p, level, reserved, bodies, passes[0]))
  }

  lemma MarksInlined(offset: nat, code: seq<Instr>)
    requires code != [] && Last(code) == RTRN
    ensures MarksOf(InlinedBody(offset, code)) == MarksOf(code)
  {
    var front := Front(code);
    assert code == front + [RTRN];
    MarksJoin(front, [RTRN]);
    assert MarksOf([RTRN]) == [] by { MarksStep(RTRN, []); assert [RTRN] + [] == [RTRN]; }
    MarksRelocated(offset, front);
    MarksStep(STOR_INT_VAR(offset, LOCL), RelocateAll(offset, front));
  }

  lemma {:induction false} MarksRelocated(offset: nat, code: seq<Instr>)
    ensures MarksOf(RelocateAll(offset, code)) == MarksOf(code)
  {
    if code != [] {
      MarksRelocated(offset, code[1..]);
      MarksStep(Relocate(offset, code[0]), RelocateAll(offset, code[1..]));
      assert RelocateAll(offset, code) == [Relocate(offset, code[0])] + RelocateAll(offset, code[1..]);
    }
  }

  /** Methods that may be inlined end in a return. */
  predicate Returning(p: Program) {
    forall id :: id in p && !Constructor(p[id]) && p[id].code != [] ==> Last(p[id].code) == RTRN
  }

  /** What the inlined bodies add. */
  lemma {:induction false} CallsTally(o: Program, p: Program, bodies: Bodies, current: MethodId, offset: nat, labels: set<int>,
                                      code: seq<Instr>, space: nat, inlined: set<MethodId>)
    requires current in p && Returning(p) && (forall id :: id in p ==> id in bodies && Accounted(o, p[id], bodies[id]))
    ensures multiset(MarksOf(InlineCalls(p, current, offset, labels, code, space, inlined))) ==
      multiset(MarksOf(code)) + Tally(o, Gather(bodies, InlinedIds(p, current, labels, code, space, inlined)))
    decreases |code|
  {
    if code == [] { return; }
    var i, tail := code[0], code[1..];
    assert code == [i] + tail;
    if i.MTHD_CALL? && CanInlineMethod(p, current, i.id, space, inlined, labels) {
      var id := i.id;
      var more := space + 8 + p[id].space;
      assert Accounted(o, p[id], bodies[id]) && p[id].code != [] && Last(p[id].code) == RTRN;
      hide *;
      CallsTally(o, p, bodies, current, offset, labels, tail, more, inlined + {id});
      TakenTally(o, p, bodies, current, offset, labels, id, tail, space, inlined);
    } else {
      KeptStep(p, current, offset, labels, i, tail, space, inlined);
      hide *;
      CallsTally(o, p, bodies, current, offset, labels, tail, space, inlined);
      MarksStep(i, tail);
      MarksStep(i, InlineCalls(p, current, offset, labels, tail, space, inlined));
      OneMore(i, MarksOf(tail), MarksOf(InlineCalls(p, current, offset, labels, tail, space, inlined)),
              Tally(o, Gather(bodies, InlinedIds(p, current, labels, tail, space, inlined))));
    }
  }

  lemma KeptStep(p: Program, current: MethodId, offset: nat, labels: set<int>, i: Instr, rest: seq<Instr>, space: nat,
                 inlined: set<MethodId>)
    requires current in p && !(i.MTHD_CALL? && CanInlineMethod(p, current, i.id, space, inlined, labels))
    ensures InlineCalls(p, current, offset, labels, [i] + rest, space, inlined) ==
      [i] + InlineCalls(p, current, offset, labels, rest, space, inlined)
    ensures InlinedIds(p, current, labels, [i] + rest, space, inlined) == InlinedIds(p, current, labels, rest, space, inlined)
  {
    hide CanInlineMethod;
    assert ([i] + rest)[1..] == rest;
  }

  lemma TakenStep(p: Program, current: MethodId, offset: nat, labels: set<int>, id: MethodId, rest: seq<Instr>, space: nat,
                  inlined: set<MethodId>)
    requires current in p && CanInlineMethod(p, current, id, space, inlined, labels)
    ensures InlineCalls(p, current, offset, labels, [MTHD_CALL(id)] + rest, space, inlined) ==
      InlinedBody(offset, p[id].code) + InlineCalls(p, current, offset, labels, rest, space + 8 + p[id].space, inlined + {id})
    ensures InlinedIds(p, current, labels, [MTHD_CALL(id)] + rest, space, inlined) ==
      [id] + InlinedIds(p, current, labels, rest, space + 8 + p[id].space, inlined + {id})
  {
    hide CanInlineMethod;
    assert ([MTHD_CALL(id)] + rest)[1..] == rest;
  }

  lemma TakenTally(o: Program, p: Program, bodies: Bodies, current: MethodId, offset: nat, labels: set<int>, id: MethodId,
                   rest: seq<Instr>, space: nat, inlined: set<MethodId>)
    requires current in p && CanInlineMethod(p, current, id, space, inlined, labels) && id in p && id in bodies
    requires Accounted(o, p[id], bodies[id]) && p[id].code != [] && Last(p[id].code) == RTRN
    requires var more := space + 8 + p[id].space;
      multiset(MarksOf(InlineCalls(p, current, offset, labels, rest, more, inlined + {id}))) ==
        multiset(MarksOf(rest)) + Tally(o, Gather(bodies, InlinedIds(p, current, labels, rest, more, inlined + {id})))
    ensures multiset(MarksOf(InlineCalls(p, current, offset, labels, [MTHD_CALL(id)] + rest, space, inlined))) ==
      multiset(MarksOf([MTHD_CALL(id)] + rest))
      + Tally(o, Gather(bodies, InlinedIds(p, current, labels, [MTHD_CALL(id)] + rest, space, inlined)))
  {
    hide *;
    var more := space + 8 + p[id].space;
    var after := InlineCalls(p, current, offset, labels, rest, more, inlined + {id});
    var ids := InlinedIds(p, current, labels, rest, more, inlined + {id});
    TakenStep(p, current, offset, labels, id, rest, space, inlined);
    MarksInlined(offset, p[id].code);
    MarksJoin(InlinedBody(offset, p[id].code), after);
    CallMarks(id, rest);
    GatherStep(bodies, id, ids);
    TallyJoin(o, bodies[id], Gather(bodies, ids));
    AccountedMarks(o, p[id], bodies[id]);
    Sums(MarksOf(p[id].code), MarksOf(after), multiset(MarksOf(rest)), Tally(o, bodies[id]), Tally(o, Gather(bodies, ids)));
  }

  lemma AccountedMarks(o: Program, m: Method, bodies: seq<MethodId>)
    requires Accounted(o, m, bodies)
    ensures multiset(MarksOf(m.code)) == Tally(o, bodies)
  {
  }

  lemma Sums(x: seq<int>, y: seq<int>, z: multiset<int>, s: multiset<int>, t: multiset<int>)
    requires multiset(x) == s && multiset(y) == z + t
    ensures multiset(x + y) == z + (s + t)
  {
  }

  lemma CallMarks(id: MethodId, rest: seq<Instr>)
    ensures MarksOf([MTHD_CALL(id)] + rest) == MarksOf(rest)
  {
    MarksStep(MTHD_CALL(id), rest);
    assert [] + MarksOf(rest) == MarksOf(rest);
  }

  lemma GatherStep(bodies: Bodies, id: MethodId, ids: seq<MethodId>)
    requires id in bodies
    ensures Gather(bodies, [id] + ids) == bodies[id] + Gather(bodies, ids)
  {
    assert ([id] + ids)[1..] == ids;
  }

  lemma OneMore(i: Instr, x: seq<int>, y: seq<int>, more: multiset<int>)
    requires multiset(y) == multiset(x) + more
    ensures multiset((if i.LBL? then [i.mark] else []) + y) == multiset((if i.LBL? then [i.mark] else []) + x) + more
  {
    if !i.LBL? { assert [] + x == x && [] + y == y; }
  }

  /** The method places the labels of the bodies, each as often as they do. */
  predicate Accounted(o: Program, m: Method, bodies: seq<MethodId>) {
    (forall b <- bodies :: b in o) && multiset(MarksOf(m.code)) == Tally(o, bodies)
  }

  // ----- All passes -----

  /** No label is placed by two of the methods, nor twice by one. */
  predicate MarksDisjoint(o: Program) {
    && (forall b :: b in o ==> UniqueLabels(o[b].code))
    && forall b, c, l :: b in o && c in o && b != c && l in MarksOf(o[b].code) ==> l !in MarksOf(o[c].code)
  }

  predicate Accounts(o: Program, p: Program, bodies: Bodies, passes: seq<Pass>) {
    p.Keys == o.Keys && Returning(p) && Scheduled(o, passes) && AllAccounted(o, p, bodies) && Pending(o, p, passes)
  }

  predicate AllAccounted(o: Program, p: Program, bodies: Bodies) {
    forall id :: id in p ==> id in bodies && Accounted(o, p[id], bodies[id])
  }

  /** Methods still to be optimized are as they were. */
  predicate Pending(o: Program, p: Program, passes: seq<Pass>)
    requires Scheduled(o, passes) && p.Keys == o.Keys
  {
    forall pass <- passes :: pass.Optimize? ==> p[pass.id] == o[pass.id]
  }

  /** The first pass replaces its method by m. */
  lemma AccountsStep(o: Program, p: Program, m: Method, bodies: Bodies, mine: seq<MethodId>, passes: seq<Pass>)
    requires Accounts(o, p, bodies, passes) && passes != [] && passes[0].id in p
    requires Accounted(o, m, mine) && (!Constructor(m) && m.code != [] ==> Last(m.code) == RTRN)
    ensures Accounts(o, p[passes[0].id := m], bodies[passes[0].id := mine], passes[1..])
  {
    var id := passes[0].id;
    PassesShift(o, passes);
    ReturningStep(p, id, m);
    AccountedStep(o, p, m, bodies, mine, id);
    PendingStep(o, p, m, passes);
    hide Accounted, Scheduled, Constructor, Returning, AllAccounted, Pending;
  }

  lemma AccountedStep(o: Program, p: Program, m: Method, bodies: Bodies, mine: seq<MethodId>, id: MethodId)
    requires AllAccounted(o, p, bodies) && Accounted(o, m, mine)
    ensures AllAccounted(o, p[id := m], bodies[id := mine])
  {
    hide Accounted;
  }

  lemma PendingStep(o: Program, p: Program, m: Method, passes: seq<Pass>)
    requires passes != [] && Scheduled(o, passes) && p.Keys == o.Keys && Pending(o, p, passes)
    ensures Scheduled(o, passes[1..]) && passes[0].id in p && Pending(o, p[passes[0].id := m], passes[1..])
  {
    PassesShift(o, passes);
    hide Scheduled;
    var q := p[passes[0].id := m];
    forall pass | pass in passes[1..] && pass.Optimize? ensures q[pass.id] == o[pass.id] { assert pass in passes; }
  }

  lemma ReturningStep(p: Program, id: MethodId, m: Method)
    requires Returning(p) && (!Constructor(m) && m.code != [] ==> Last(m.code) == RTRN)
    ensures Returning(p[id := m])
  {
    hide Constructor;
  }

  lemma OptimizeAccounts(h: Host, o: Program, p: Program, level: int, bodies: Bodies, passes: seq<Pass>)
    requires Accounts(o, p, bodies, passes) && passes != [] && passes[0].Optimize? && passes[0].id in o
    requires EndsFlushed(o[passes[0].id].code) && OptimizeBlock(h, p, level, p[passes[0].id].code).Some?
    ensures var id := passes[0].id;
      Accounts(o, p[id := p[id].(code := OptimizeBlock(h, p, level, p[id].code).value)], bodies, passes[1..])
  {
    var id := passes[0].id;
    var m := p[id];
    assert passes[0] in passes && m == o[id] && id in bodies && Accounted(o, m, bodies[id]);
    assert !Constructor(m) && m.code != [] ==> Last(m.code) == RTRN;
    var after := OptimizeBlock(h, p, level, m.code).value;
    hide OptimizeBlock, EndsFlushed, Accounts, Constructor, Contains, Tally;
    OptimizedMarks(h, p, level, m.code);
    OptimizedEmpty(h, p, level);
    assert bodies[id := bodies[id]] == bodies;
    AccountsStep(o, p, m.(code := after), bodies, bodies[id], passes);
  }

  lemma OptimizedEmpty(h: Host, p: Program, level: int)
    ensures OptimizeBlock(h, p, level, []) == Some([])
  {
    assert Folded(h, p, []) == Some([]);
  }

  lemma InlineAccounts(o: Program, p: Program, level: int, reserved: int, bodies: Bodies, passes: seq<Pass>)
    requires Accounts(o, p, bodies, passes) && passes != [] && passes[0].Inline? && passes[0].id in o && level > 2
    ensures var id := passes[0].id;
      Accounts(o, p[id := InlineInto(p, id, reserved)], Grown(p, level, reserved, bodies, passes[0]), passes[1..])
  {
    var id := passes[0].id;
    var mine := bodies[id] + Gather(bodies, Taking(p, id, reserved));
    InlinedAccounted(o, p, bodies, id, reserved);
    InlinedReturning(p, id, reserved);
    assert Grown(p, level, reserved, bodies, passes[0]) == bodies[id := mine];
    hide *;
    AccountsStep(o, p, InlineInto(p, id, reserved), bodies, mine, passes);
  }

  lemma InlinedAccounted(o: Program, p: Program, bodies: Bodies, id: MethodId, reserved: int)
    requires id in p && Returning(p) && (forall c :: c in p ==> c in bodies && Accounted(o, p[c], bodies[c]))
    ensures Accounted(o, InlineInto(p, id, reserved), bodies[id] + Gather(bodies, Taking(p, id, reserved)))
  {
    var m, more := p[id], Gather(bodies, Taking(p, id, reserved));
    InlinedTally(o, p, bodies, id, reserved);
    GatheredIn(o, p, bodies, Taking(p, id, reserved));
    hide MarksOf, Tally, Gather, Taking, InlineInto, Returning;
    TallyJoin(o, bodies[id], more);
    assert Accounted(o, m, bodies[id]);
  }

  lemma InlinedTally(o: Program, p: Program, bodies: Bodies, id: MethodId, reserved: int)
    requires id in p && Returning(p) && (forall c :: c in p ==> c in bodies && Accounted(o, p[c], bodies[c]))
    ensures multiset(MarksOf(InlineInto(p, id, reserved).code)) ==
      multiset(MarksOf(p[id].code)) + Tally(o, Gather(bodies, Taking(p, id, reserved)))
  {
    hide MarksOf, Tally, Gather, LabelsOf, LastLocalOffset, Returning, Accounted, InlineCalls, InlinedIds, InlinedSpace;
    CallsTally(o, p, bodies, id, LastLocalOffset(p[id].code) + 2, LabelsOf(p[id].code) + {reserved}, p[id].code, p[id].space, {});
  }

  lemma InlinedReturning(p: Program, id: MethodId, reserved: int)
    requires id in p && Returning(p)
    ensures var m := InlineInto(p, id, reserved); !Constructor(m) && m.code != [] ==> Last(m.code) == RTRN
  {
    var m := p[id];
    if !Constructor(m) && m.code != [] {
      EndsInReturn(p, id, LastLocalOffset(m.code) + 2, LabelsOf(m.code) + {reserved}, m.code, m.space, {});
    }
  }

  lemma {:induction false} GatheredIn(o: Program, p: Program, bodies: Bodies, ids: seq<MethodId>)
    requires forall id :: id in p ==> id in bodies && Accounted(o, p[id], bodies[id])
    requires forall id <- ids :: id in p
    ensures forall b <- Gather(bodies, ids) :: b in o
  {
    if ids != [] {
      assert Accounted(o, p[ids[0]], bodies[ids[0]]);
      GatheredIn(o, p, bodies, ids[1..]);
    }
  }

  lemma {:induction false} AccountsAfter(h: Host, o: Program, p: Program, level: int, reserved: int, bodies: Bodies, passes: seq<Pass>)
    requires Accounts(o, p, bodies, passes) && (forall id :: id in o ==> EndsFlushed(o[id].code))
    requires RunPasses(h, p, level, reserved, passes).Some?
    ensures Accounts(o, RunPasses(h, p, level, reserved, passes).value, BodiesAfter(h, p, level, reserved, passes, bodies), [])
    decreases |passes|
  {
    if passes == [] { return; }
    var now := Grown(p, level, reserved, bodies, passes[0]);
    RunsOn(h, p, level, reserved, passes, bodies);
    var q := RunPass(h, p, level, reserved, passes[0]).value;
    assert passes[0] in passes && passes[0].id in o && passes[0].id in p && EndsFlushed(o[passes[0].id].code);
    RunOf(h, p, level, reserved, passes[0]);
    assert passes[0].Optimize? || level <= 2 ==> now == bodies;
    hide RunPass, RunPasses, BodiesAfter, Accounts, EndsFlushed, Scheduled, Grown, OptimizeBlock, InlineInto;
    if passes[0].Optimize? {
      OptimizeAccounts(h, o, p, level, bodies, passes);
    } else if level > 2 {
      InlineAccounts(o, p, level, reserved, bodies, passes);
    } else {
      SkippedAccounts(o, p, bodies, passes);
    }
    AccountsAfter(h, o, q, level, reserved, now, passes[1..]);
  }

  lemma RunsOn(h: Host, p: Program, level: int, reserved: int, passes: seq<Pass>, bodies: Bodies)
    requires passes != [] && RunPasses(h, p, level, reserved, passes).Some?
    ensures var q := RunPass(h, p, level, reserved, passes[0]);
      && q.Some? && RunPasses(h, p, level, reserved, passes) == RunPasses(h, q.value, level, reserved, passes[1..])
      && BodiesAfter(h, p, level, reserved, passes, bodies) ==
           BodiesAfter(h, q.value, level, reserved, passes[1..], Grown(p, level, reserved, bodies, passes[0]))
  {
    hide RunPass, Grown;
  }

  lemma SkippedAccounts(o: Program, p: Program, bodies: Bodies, passes: seq<Pass>)
    requires Accounts(o, p, bodies, passes) && passes != []
    ensures Accounts(o, p, bodies, passes[1..])
  {
    PassesShift(o, passes);
    assert forall pass <- passes[1..] :: pass in passes;
  }

  // ----- Unique, exactly -----

  lemma {:induction false} UniqueCount(code: seq<Instr>)
    ensures UniqueLabels(code) <==> forall l :: multiset(MarksOf(code))[l] <= 1
  {
    if code == [] { return; }
    var i, rest := code[0], code[1..];
    assert code == [i] + rest;
    UniqueCount(rest);
    MarksStep(i, rest);
    UniqueStep(i, rest);
    if i.LBL? {
      MarksIn(rest, i.mark);
      assert forall l :: multiset([i.mark] + MarksOf(rest))[l] == multiset(MarksOf(rest))[l] + if l == i.mark then 1 else 0;
    } else {
      assert [] + MarksOf(rest) == MarksOf(rest);
    }
  }

  lemma UniqueStep(i: Instr, rest: seq<Instr>)
    ensures UniqueLabels([i] + rest) <==> UniqueLabels(rest) && (i.LBL? ==> i !in rest)
  {
    var code := [i] + rest;
    if UniqueLabels(code) {
      forall j, k | 0 <= j < k < |rest| && rest[j].LBL? && rest[k].LBL? ensures rest[j].mark != rest[k].mark {
        assert code[j + 1] == rest[j] && code[k + 1] == rest[k];
      }
      if i.LBL? {
        forall k | 0 <= k < |rest| ensures rest[k] != i { assert code[0] == i && code[k + 1] == rest[k]; }
      }
    }
  }

  lemma {:induction false} TallyAt(o: Program, bodies: seq<MethodId>, k: nat, l: int)
    requires k < |bodies| && bodies[k] in o && l in MarksOf(o[bodies[k]].code)
    ensures l in Tally(o, bodies)
  {
    if k > 0 { TallyAt(o, bodies[1..], k - 1, l); }
  }

  /** A method with a label is there twice. */
  predicate Repeats(o: Program, bodies: seq<MethodId>) {
    exists j, k :: 0 <= j < k < |bodies| && bodies[j] == bodies[k] && bodies[j] in o && MarksOf(o[bodies[j]].code) != []
  }

  lemma {:induction false} TallyTwice(o: Program, bodies: seq<MethodId>, j: nat, k: nat, l: int)
    requires j < k < |bodies| && bodies[j] == bodies[k] && bodies[j] in o && l in MarksOf(o[bodies[j]].code)
    ensures Tally(o, bodies)[l] >= 2
  {
    var first := if bodies[0] in o then multiset(MarksOf(o[bodies[0]].code)) else multiset{};
    assert Tally(o, bodies) == first + Tally(o, bodies[1..]);
    if j > 0 {
      TallyTwice(o, bodies[1..], j - 1, k - 1, l);
    } else {
      TallyAt(o, bodies[1..], k - 1, l);
      assert first[l] >= 1;
    }
  }

  lemma {:induction false} TallyOnce(o: Program, bodies: seq<MethodId>, l: int)
    requires MarksDisjoint(o) && !Repeats(o, bodies) && forall b <- bodies :: b in o
    ensures Tally(o, bodies)[l] <= 1
  {
    if bodies == [] { return; }
    var rest, b := bodies[1..], bodies[0];
    RestRepeats(o, bodies);
    TallyOnce(o, rest, l);
    assert b in bodies && b in o;
    UniqueCount(o[b].code);
    assert multiset(MarksOf(o[b].code))[l] <= 1;
    if l in MarksOf(o[b].code) { NotAgain(o, bodies, l); }
  }

  lemma NotAgain(o: Program, bodies: seq<MethodId>, l: int)
    requires MarksDisjoint(o) && bodies != [] && !Repeats(o, bodies) && (forall b <- bodies :: b in o) && l in MarksOf(o[bodies[0]].code)
    ensures l !in Tally(o, bodies[1..])
  {
    var rest := bodies[1..];
    forall k | 0 <= k < |rest| ensures l !in MarksOf(o[rest[k]].code) {
      assert bodies[k + 1] == rest[k] && bodies[0] != rest[k];
    }
    NotTallied(o, rest, l);
  }

  lemma {:induction false} NotTallied(o: Program, bodies: seq<MethodId>, l: int)
    requires forall k :: 0 <= k < |bodies| ==> bodies[k] in o && l !in MarksOf(o[bodies[k]].code)
    ensures l !in Tally(o, bodies)
  {
    if bodies != [] { NotTallied(o, bodies[1..], l); }
  }

  lemma RestRepeats(o: Program, bodies: seq<MethodId>)
    requires bodies != [] && !Repeats(o, bodies)
    ensures !Repeats(o, bodies[1..])
  {
    var rest := bodies[1..];
    forall j, k | 0 <= j < k < |rest| && rest[j] == rest[k] && rest[j] in o ensures MarksOf(o[rest[j]].code) == [] {
      assert bodies[j + 1] == rest[j] && bodies[k + 1] == rest[k];
    }
  }

  lemma TallyUnique(o: Program, m: Method, bodies: seq<MethodId>)
    requires MarksDisjoint(o) && Accounted(o, m, bodies)
    ensures UniqueLabels(m.code) <==> !Repeats(o, bodies)
  {
    UniqueCount(m.code);
    if Repeats(o, bodies) {
      var j, k :| 0 <= j < k < |bodies| && bodies[j] == bodies[k] && bodies[j] in o && MarksOf(o[bodies[j]].code) != [];
      TallyTwice(o, bodies, j, k, MarksOf(o[bodies[j]].code)[0]);
    } else {
      forall l ensures multiset(MarksOf(m.code))[l] <= 1 { TallyOnce(o, bodies, l); }
    }
  }

  function Own(o: Program): Bodies {
    map id | id in o :: [id]
  }

  /** After the optimizer the labels of a method are unique if and only if no method with a label came to it twice. */
  lemma UniqueExactly(h: Host, o: Program, level: int, reserved: int, passes: seq<Pass>, id: MethodId)
    requires MarksDisjoint(o) && Returning(o) && Scheduled(o, passes) && (forall b :: b in o ==> EndsFlushed(o[b].code))
    requires RunPasses(h, o, level, reserved, passes).Some? && id in o
    ensures var q, bodies := RunPasses(h, o, level, reserved, passes).value, BodiesAfter(h, o, level, reserved, passes, Own(o));
      id in q && id in bodies && (UniqueLabels(q[id].code) <==> !Repeats(o, bodies[id]))
  {
    forall c | c in o ensures c in Own(o) && Accounted(o, o[c], Own(o)[c]) { TallyOne(o, c); }
    assert Accounts(o, o, Own(o), passes);
    AccountsAfter(h, o, o, level, reserved, Own(o), passes);
    var q, bodies := RunPasses(h, o, level, reserved, passes).value, BodiesAfter(h, o, level, reserved, passes, Own(o));
    TallyUnique(o, q[id], bodies[id]);
  }

  lemma TallyOne(o: Program, id: MethodId)
    requires id in o
    ensures Accounted(o, o[id], [id])
  {
    assert [id][1..] == [];
    assert Tally(o, [id]) == multiset(MarksOf(o[id].code)) + Tally(o, []);
  }
}
