// The optimizer over a whole program with calls: from conditions on the program it is given to the readiness
// of every pass, whatever was optimized and inlined before.

module Stages {
  import opened Wrappers
  import opened Words
  import opened Bytecode
  import opened Simulation
  import opened Passes
  import opened Accessors
  import opened Inlining
  import opened InlineMethod
  import opened Programs
  import opened Pipeline
  import opened Quotients
  import opened Shape
  import opened InlineShape
  import R = Ready

  // ----- Which labels come where -----

  /** The methods a method calls and the inlining test may accept, sizes and labels aside. */
  function Callees(o: Program, id: MethodId): set<MethodId>
    requires id in o
  {
    set c | c in o && c != id && MTHD_CALL(c) in o[id].code && o[c].cls == o[id].cls
      && '$' !in o[c].clsName && !Contains(o[c].name, ":New:") && !Contains(o[id].name, ":Main:o.System.String*,")
  }

  /** The methods whose instructions a method may hold once calls were inlined into the methods of done, in that order. */
  function Held(o: Program, done: seq<MethodId>, id: MethodId): set<MethodId>
    requires id in o
    decreases |done|
  {
    if done == [] then {id} else
    var before := done[..|done| - 1];
    if id != done[|done| - 1] then Held(o, before, id)
    else Held(o, before, id) + set c, b | c in Callees(o, id) && b in Held(o, before, c) :: b
  }

  function LabelsHeld(o: Program, held: set<MethodId>): set<int> {
    set b, l | b in held && b in o && l in LabelsOf(o[b].code) :: l
  }

  /** No method with a label comes to id through two of its callees. */
  predicate NoneTwice(o: Program, done: seq<MethodId>, id: MethodId)
    requires id in o
  {
    forall c, d :: c in Callees(o, id) && d in Callees(o, id) && c != d ==>
      forall b :: b in Held(o, done, c) && b in Held(o, done, d) && b in o ==> LabelsOf(o[b].code) == {}
  }

  /** No method with a label reaches a method twice when calls are inlined in the given order. */
  predicate NoLabelTwice(o: Program, done: seq<MethodId>, order: seq<MethodId>)
    decreases |order|
  {
    order == [] || (order[0] in o && NoneTwice(o, done, order[0]) && NoLabelTwice(o, done + [order[0]], order[1..]))
  }

  /** The methods calls are inlined into, in order. */
  function Inlines(passes: seq<Pass>): seq<MethodId> {
    if passes == [] then [] else (if passes[0].Inline? then [passes[0].id] else []) + Inlines(passes[1..])
  }

  /** No label is named by two methods. */
  predicate LabelsDisjoint(o: Program) {
    forall b, c :: b in o && c in o && b != c ==> LabelsOf(o[b].code) !! LabelsOf(o[c].code)
  }

  // ----- What the program has to be like -----

  /** A block as the emitter makes it. */
  predicate Proper(m: Method) {
    Tidy(m) && UniqueLabels(m.code) && NoBranchToNext(m.code) && EndsFlushed(m.code) && SlotsInFrame(m.code)
  }

  /** Another method may take this one in. */
  predicate Taken(o: Program, level: int, id: MethodId) {
    level > 2 && exists c :: c in o && id in Callees(o, c)
  }

  /** Calls are inlined into this method, or it may be taken into another one. */
  predicate Mixed(o: Program, level: int, id: MethodId)
    requires id in o
  {
    Taken(o, level, id) || (level > 2 && Callees(o, id) != {})
  }

  /** What is plain of all of o is plain of the code. */
  predicate PlainAs(o: Program, code: seq<Instr>) {
    forall scaling: R.Scaling :: R.PlainProgram(o, scaling) ==> R.AllPlain(code, scaling)
  }

  /** What the program around a method can become. */
  predicate Around(o: Program, q: Program) {
    q.Keys == o.Keys && WellLinked(q) && forall id :: id in q ==> PlainAs(o, q[id].code)
  }

  lemma PlainAround(o: Program, q: Program, scaling: R.Scaling)
    requires Around(o, q) && R.PlainProgram(o, scaling)
    ensures R.PlainProgram(q, scaling)
  {
    forall id | id in q ensures R.AllPlain(q[id].code, scaling) { assert PlainAs(o, q[id].code); }
  }

  /** What the program is after some of the passes. */
  ghost predicate Reached(h: Host, o: Program, level: int, reserved: int, passes: seq<Pass>, q: Program) {
    exists n: nat :: n <= |passes| && RunPasses(h, o, level, reserved, passes[..n]) == Some(q)
  }

  /** From level 2 on: whatever the passes have made of the program around it, the shifts put into the block are right. */
  ghost predicate ShiftsRight(h: Host, o: Program, level: int, reserved: int, passes: seq<Pass>, code: seq<Instr>) {
    level >= 2 ==> forall q: Program :: Around(o, q) && Reached(h, o, level, reserved, passes, q) ==> QuotientsSafe(h, q, level, code)
  }

  /** At level 3: whatever the passes have made of the program around it, its stores and loads pair up as copies need it. */
  ghost predicate CopiesRight(h: Host, o: Program, level: int, reserved: int, passes: seq<Pass>, code: seq<Instr>) {
    level >= 3 ==> forall q: Program :: Around(o, q) && Reached(h, o, level, reserved, passes, q) ==> CopiesSafe(h, q, level, code)
  }

  /** Every block is rewritten rightly when its turn comes. */
  ghost predicate RightInTurn(h: Host, o: Program, level: int, reserved: int, passes: seq<Pass>) {
    forall id :: id in o && o[id].code != [] ==>
      ShiftsRight(h, o, level, reserved, passes, o[id].code) && CopiesRight(h, o, level, reserved, passes, o[id].code)
  }

  /** Methods of one class share their class memory. */
  predicate OneMemory(o: Program) {
    forall b, c :: b in o && c in o && o[b].cls == o[c].cls ==> o[b].clsMem == o[c].clsMem
  }

  ghost predicate ProperProgram(o: Program, level: int) {
    && WellLinked(o) && LabelsDisjoint(o)
    && OneMemory(o)
    && (forall id :: id in o && o[id].code != [] ==> Proper(o[id]))
    && (forall id :: id in o && Mixed(o, level, id) ==> NoLocalFunctions(o[id].code))
    && forall id :: id in o && Taken(o, level, id) ==> WritesBeforeReads(o[id].code)
  }

  /** Every method is optimized at most once, and inlined into at most once and after that. */
  predicate Scheduled(o: Program, passes: seq<Pass>) {
    && (forall pass <- passes :: pass.id in o)
    && forall j, k :: 0 <= j < k < |passes| && passes[j].id == passes[k].id ==> passes[j].Optimize? && passes[k].Inline?
  }

  /** p is what o has become when the methods of done have been inlined into and passes are still to run. */
  ghost predicate Stage(o: Program, level: int, p: Program, done: seq<MethodId>, passes: seq<Pass>) {
    && p.Keys == o.Keys && Scheduled(o, passes)
    && (forall id :: id in o ==> MethodStage(o, level, p, done, id))
    && (forall pass <- passes :: if pass.Optimize? then p[pass.id] == o[pass.id] else pass.id !in done)
  }

  ghost predicate MethodStage(o: Program, level: int, p: Program, done: seq<MethodId>, id: MethodId)
    requires id in o && id in p
  {
    && p[id] == o[id].(code := p[id].code, space := p[id].space)
    && (if o[id].code == [] then p[id].code == [] else Tidy(p[id]))
    && PlainAs(o, p[id].code)
    && (Mixed(o, level, id) ==> NoLocalFunctions(p[id].code))
    && (Taken(o, level, id) ==> WritesBeforeReads(p[id].code))
    && LabelsOf(p[id].code) <= LabelsHeld(o, Held(o, done, id))
    && (id !in done ==> forall i <- p[id].code :: i.MTHD_CALL? ==> i in o[id].code)
  }

  lemma StageAround(o: Program, level: int, p: Program, done: seq<MethodId>, passes: seq<Pass>)
    requires Stage(o, level, p, done, passes) && WellLinked(o)
    ensures Around(o, p)
  {
    forall id | id in p
      ensures PlainAs(o, p[id].code)
      ensures p[id].virtual ==> p[id].code == []
    {
      assert MethodStage(o, level, p, done, id);
    }
  }

  // ----- Optimizing a block -----

  lemma {:induction false} LabelIn(code: seq<Instr>, l: int)
    ensures l in LabelsOf(code) <==> exists i <- code :: LabelOf(i) == Some(l)
  {
    if code != [] {
      LabelIn(code[1..], l);
      if l in LabelsOf(code) {
        if LabelOf(code[0]) != Some(l) {
          var i :| i in code[1..] && LabelOf(i) == Some(l);
          assert i in code;
        }
      }
    }
  }

  lemma KeepsLabels(x: seq<Instr>, y: seq<Instr>)
    requires Keeps(x, y)
    ensures LabelsOf(y) <= LabelsOf(x)
  {
    forall l | l in LabelsOf(y) ensures l in LabelsOf(x) {
      LabelIn(x, l);
      LabelIn(y, l);
      MarksIn(x, l);
      MarksIn(y, l);
      var i :| i in y && LabelOf(i) == Some(l);
      if i.LBL? { assert LabelOf(LBL(l)) == Some(l); }
    }
  }

  lemma OptimizeReady(h: Host, o: Program, p: Program, level: int, done: seq<MethodId>, passes: seq<Pass>, reserved: int, all: seq<Pass>)
    requires ProperProgram(o, level) && Stage(o, level, p, done, passes) && passes != [] && passes[0].Optimize?
    requires RightInTurn(h, o, level, reserved, all) && Reached(h, o, level, reserved, all, p)
    ensures var id := passes[0].id; id in p && BlockReady(h, p, level, p[id].code) && QuotientsSafe(h, p, level, p[id].code)
  {
    var id := passes[0].id;
    assert passes[0] in passes && p[id] == o[id];
    StageAround(o, level, p, done, passes);
    if o[id].code == [] {
      EmptyReady(h, p, level);
    } else {
      assert Proper(o[id]);
      assert ShiftsRight(h, o, level, reserved, all, o[id].code) && CopiesRight(h, o, level, reserved, all, o[id].code);
      hide UniqueLabels, NoBranchToNext, SlotsInFrame, Tidy, Around, Reached;
      if level < 2 { assert QuotientsSafe(h, p, level, p[id].code); }
    }
  }

  lemma EmptyReady(h: Host, p: Program, level: int)
    ensures BlockReady(h, p, level, []) && QuotientsSafe(h, p, level, [])
  {
    assert Folded(h, p, []) == Some([]);
    ProductsReduceSafely(h, p, []);
  }

  lemma PassesShift(o: Program, passes: seq<Pass>)
    requires passes != [] && Scheduled(o, passes)
    ensures Scheduled(o, passes[1..]) && passes[0].id in o && forall pass <- passes[1..] :: pass in passes
    ensures forall pass <- passes[1..] :: pass.id == passes[0].id ==> passes[0].Optimize? && pass.Inline?
  {
    var rest := passes[1..];
    assert passes[0] in passes;
    forall k | 0 <= k < |rest| ensures rest[k] in passes && (rest[k].id == passes[0].id ==> passes[0].Optimize? && rest[k].Inline?) {
      assert rest[k] == passes[k + 1];
    }
  }

  lemma OptimizeStage(h: Host, o: Program, p: Program, level: int, done: seq<MethodId>, passes: seq<Pass>, reserved: int, all: seq<Pass>)
    requires ProperProgram(o, level) && Stage(o, level, p, done, passes) && passes != [] && passes[0].Optimize?
    requires RightInTurn(h, o, level, reserved, all) && Reached(h, o, level, reserved, all, p)
    requires OptimizeBlock(h, p, level, p[passes[0].id].code).Some?
    ensures var id := passes[0].id;
      Stage(o, level, p[id := p[id].(code := OptimizeBlock(h, p, level, p[id].code).value)], done, passes[1..])
  {
    var id := passes[0].id;
    assert WellLinked(o) && (o[id].code != [] ==> Proper(o[id]));
    StageHead(o, level, p, done, passes);
    var after := OptimizeBlock(h, p, level, p[id].code).value;
    assert o[id].code != [] ==> Tidy(p[id]);
    hide *;
    OptimizeReady(h, o, p, level, done, passes, reserved, all);
    StageAround(o, level, p, done, passes);
    OptimizeBlockKeeps(h, p, level, p[id].code);
    if o[id].code != [] { FitOptimized(h, p, level, p[id]); }
    PlainAfter(h, o, p, level, id);
    KeptStage(o, level, p, done, id, after);
    OneMoved(o, level, p, p[id].(code := after), done, done, passes);
  }

  lemma PlainAfter(h: Host, o: Program, p: Program, level: int, id: MethodId)
    requires Around(o, p) && id in p && OptimizeBlock(h, p, level, p[id].code).Some?
    ensures PlainAs(o, OptimizeBlock(h, p, level, p[id].code).value)
  {
    hide OptimizeBlock, Around, R.AllPlain;
    forall scaling: R.Scaling | R.PlainProgram(o, scaling)
      ensures R.AllPlain(OptimizeBlock(h, p, level, p[id].code).value, scaling)
    {
      PlainAround(o, p, scaling);
      R.OptimizedPlain(h, p, level, p[id].code, scaling);
    }
  }

  /** The first pass changes its method and no other. */
  lemma OneMoved(o: Program, level: int, p: Program, m: Method, done: seq<MethodId>, done': seq<MethodId>, passes: seq<Pass>)
    requires Stage(o, level, p, done, passes) && passes != [] && passes[0].id in o && passes[0].id in p
    requires MethodStage(o, level, p[passes[0].id := m], done', passes[0].id)
    requires done' == if passes[0].Inline? then done + [passes[0].id] else done
    ensures Stage(o, level, p[passes[0].id := m], done', passes[1..])
  {
    var id, q := passes[0].id, p[passes[0].id := m];
    PassesShift(o, passes);
    hide Held, LabelsHeld, Callees, Tidy, Taken, Mixed, PlainAs, Scheduled, LabelsOf;
    forall c | c in o && c != id ensures MethodStage(o, level, q, done', c) {
      assert MethodStage(o, level, p, done, c) && q[c] == p[c];
      if passes[0].Inline? { HeldBefore(o, done, id, c); }
    }
    forall pass | pass in passes[1..]
      ensures pass.id in o && if pass.Optimize? then q[pass.id] == o[pass.id] else pass.id !in done'
    {
      assert pass in passes;
    }
  }

  lemma HeldBefore(o: Program, done: seq<MethodId>, id: MethodId, c: MethodId)
    requires c in o && c != id
    ensures Held(o, done + [id], c) == Held(o, done, c)
  {
    assert (done + [id])[..|done|] == done;
  }

  /** A method whose block is rewritten and kept. */
  lemma KeptStage(o: Program, level: int, p: Program, done: seq<MethodId>, id: MethodId, after: seq<Instr>)
    requires id in o && id in p && MethodStage(o, level, p, done, id) && Keeps(p[id].code, after)
    requires o[id].code != [] ==> Tidy(p[id].(code := after))
    requires PlainAs(o, after)
    ensures MethodStage(o, level, p[id := p[id].(code := after)], done, id)
  {
    hide Held, LabelsHeld, Callees, Tidy, Mixed, Taken, PlainAs;
    KeepsLabels(p[id].code, after);
    WritesKept(p[id].code, after);
    FunctionsKept(p[id].code, after);
  }

  lemma FunctionsKept(x: seq<Instr>, y: seq<Instr>)
    requires Keeps(x, y)
    ensures NoLocalFunctions(x) ==> NoLocalFunctions(y)
  {
  }

  lemma WritesKept(x: seq<Instr>, y: seq<Instr>)
    requires Keeps(x, y)
    ensures WritesBeforeReads(x) ==> WritesBeforeReads(y)
  {
    if WritesBeforeReads(x) {
      var at :| WrittenFirst(x, at, Some({}));
      assert WrittenFirst(y, at, Some({}));
    }
  }

  // ----- Inlining into a block -----

  predicate Distinct(ids: seq<MethodId>) {
    forall j, k :: 0 <= j < k < |ids| ==> ids[j] != ids[k]
  }

  lemma {:induction false} IdsDistinct(p: Program, current: MethodId, labels: set<int>, code: seq<Instr>, space: nat, inlined: set<MethodId>)
    requires current in p
    ensures Distinct(InlinedIds(p, current, labels, code, space, inlined))
  {
    if code == [] { return; }
    if code[0].MTHD_CALL? && CanInlineMethod(p, current, code[0].id, space, inlined, labels) {
      var id := code[0].id;
      var more := space + 8 + p[id].space;
      var rest := InlinedIds(p, current, labels, code[1..], more, inlined + {id});
      IdsDistinct(p, current, labels, code[1..], more, inlined + {id});
      var ids := InlinedIds(p, current, labels, code, space, inlined);
      assert ids == [id] + rest;
      forall j, k | 0 <= j < k < |ids| ensures ids[j] != ids[k] {
        assert ids[k] == rest[k - 1];
        if j == 0 { Tested(p, current, labels, code[1..], more, inlined + {id}, ids[k]); } else { assert ids[j] == rest[j - 1]; }
      }
    } else {
      IdsDistinct(p, current, labels, code[1..], space, inlined);
    }
  }

  lemma {:induction false} LabelFrom(p: Program, ids: seq<MethodId>, l: int) returns (k: nat)
    requires (forall id <- ids :: id in p) && l in LabelsIn(p, ids)
    ensures k < |ids| && l in LabelsOf(p[ids[k]].code)
  {
    k := 0;
    if l !in LabelsOf(p[ids[0]].code) {
      k := LabelFrom(p, ids[1..], l);
      k := k + 1;
    }
  }

  lemma {:induction false} ApartPairwise(p: Program, ids: seq<MethodId>)
    requires forall id <- ids :: id in p
    requires forall j, k :: 0 <= j < k < |ids| ==> LabelsOf(p[ids[j]].code) !! LabelsOf(p[ids[k]].code)
    ensures LabelsApart(p, ids)
  {
    if ids != [] {
      ApartPairwise(p, ids[1..]);
      forall l | l in LabelsIn(p, ids[1..]) ensures l !in LabelsOf(p[ids[0]].code) {
        var k := LabelFrom(p, ids[1..], l);
        assert ids[1..][k] == ids[k + 1];
      }
    }
  }

  lemma {:induction false} PairwiseApart(p: Program, ids: seq<MethodId>, j: nat, k: nat)
    requires (forall id <- ids :: id in p) && LabelsApart(p, ids) && j < k < |ids|
    ensures LabelsOf(p[ids[j]].code) !! LabelsOf(p[ids[k]].code)
  {
    if j > 0 { PairwiseApart(p, ids[1..], j - 1, k - 1); }
    else { LabelsAmong(p, ids[1..], k - 1); }
  }

  lemma {:induction false} LabelsAmong(p: Program, ids: seq<MethodId>, k: nat)
    requires (forall id <- ids :: id in p) && k < |ids|
    ensures LabelsOf(p[ids[k]].code) <= LabelsIn(p, ids)
  {
    if k > 0 { LabelsAmong(p, ids[1..], k - 1); }
  }

  /** What the next inlining pass is about to take in. */
  function Taking(p: Program, id: MethodId, reserved: int): (ids: seq<MethodId>)
    requires id in p
    ensures forall c <- ids :: c in p
  {
    InlinedIds(p, id, LabelsOf(p[id].code) + {reserved}, p[id].code, p[id].space, {})
  }

  /** It is a callee of the original method, and fit. */
  lemma TakenFit(o: Program, level: int, p: Program, done: seq<MethodId>, passes: seq<Pass>, id: MethodId, reserved: int, c: MethodId)
    requires Stage(o, level, p, done, passes) && level > 2 && id in o && id !in done && c in Taking(p, id, reserved)
    ensures c in o && c in Callees(o, id) && Fit(p[c]) && !Constructor(p[c])
    ensures LabelsOf(p[c].code) <= LabelsHeld(o, Held(o, done, c))
  {
    Tested(p, id, LabelsOf(p[id].code) + {reserved}, p[id].code, p[id].space, {}, c);
    assert MethodStage(o, level, p, done, id) && MethodStage(o, level, p, done, c);
    hide Held, LabelsHeld, Tidy, BodyInlinable, Contains;
    assert c in Callees(o, id);
    assert Taken(o, level, c);
  }

  lemma TakingDistinct(p: Program, id: MethodId, reserved: int)
    requires id in p
    ensures forall j, k :: 0 <= j < k < |Taking(p, id, reserved)| ==> Taking(p, id, reserved)[j] != Taking(p, id, reserved)[k]
  {
    IdsDistinct(p, id, LabelsOf(p[id].code) + {reserved}, p[id].code, p[id].space, {});
  }

  lemma TakenApart(o: Program, p: Program, level: int, done: seq<MethodId>, passes: seq<Pass>, id: MethodId, reserved: int)
    requires ProperProgram(o, level) && Stage(o, level, p, done, passes) && level > 2 && id in o && id !in done
    requires NoneTwice(o, done, id)
    ensures LabelsApart(p, Taking(p, id, reserved))
  {
    var ids := Taking(p, id, reserved);
    TakingDistinct(p, id, reserved);
    assert LabelsDisjoint(o);
    hide *;
    forall j, k | 0 <= j < k < |ids| ensures LabelsOf(p[ids[j]].code) !! LabelsOf(p[ids[k]].code) {
      assert ids[j] in ids && ids[k] in ids;
      TakenFit(o, level, p, done, passes, id, reserved, ids[j]);
      TakenFit(o, level, p, done, passes, id, reserved, ids[k]);
      HeldApart(o, done, id, ids[j], ids[k]);
      StillApart(LabelsOf(p[ids[j]].code), LabelsOf(p[ids[k]].code), LabelsHeld(o, Held(o, done, ids[j])),
                 LabelsHeld(o, Held(o, done, ids[k])));
    }
    ApartPairwise(p, ids);
  }

  lemma StillApart(x: set<int>, y: set<int>, x': set<int>, y': set<int>)
    requires x <= x' && y <= y' && x' !! y'
    ensures x !! y
  {
  }

  lemma HeldApart(o: Program, done: seq<MethodId>, id: MethodId, c: MethodId, d: MethodId)
    requires LabelsDisjoint(o) && id in o && c in o && d in o
    requires NoneTwice(o, done, id) && c in Callees(o, id) && d in Callees(o, id) && c != d
    ensures LabelsHeld(o, Held(o, done, c)) !! LabelsHeld(o, Held(o, done, d))
  {
    hide LabelsOf, Callees, Held;
    forall l, a, b | a in Held(o, done, c) && b in Held(o, done, d) && a in o && b in o && l in LabelsOf(o[a].code)
      ensures l !in LabelsOf(o[b].code)
    {
      if a != b { assert LabelsOf(o[a].code) !! LabelsOf(o[b].code); }
    }
  }

  lemma CalleesAllFit(o: Program, p: Program, level: int, done: seq<MethodId>, passes: seq<Pass>, id: MethodId, reserved: int)
    requires ProperProgram(o, level) && Stage(o, level, p, done, passes) && level > 2 && id in o && id !in done
    requires NoneTwice(o, done, id)
    ensures CalleesFit(p, id, reserved)
  {
    TakenApart(o, p, level, done, passes, id, reserved);
    forall c | c in Taking(p, id, reserved) ensures Fit(p[c]) { TakenFit(o, level, p, done, passes, id, reserved, c); }
  }

  /** An inlining pass meets what it asks for. */
  lemma InlinePassReady(h: Host, o: Program, p: Program, level: int, done: seq<MethodId>, passes: seq<Pass>, reserved: int)
    requires ProperProgram(o, level) && Stage(o, level, p, done, passes) && passes != [] && passes[0].Inline?
    requires level > 2 ==> passes[0].id in o && NoneTwice(o, done, passes[0].id)
    ensures PassReady(h, p, level, reserved, passes[0])
  {
    hide *;
    StageHead(o, level, p, done, passes);
    ProperLinked(o, level);
    StageAround(o, level, p, done, passes);
    AroundLinked(o, p);
    if level > 2 && Taking(p, passes[0].id, reserved) != [] {
      TakingSafe(o, p, level, done, passes, passes[0].id, reserved);
      SafePass(h, p, level, reserved, passes[0].id);
    } else {
      IdlePass(h, p, level, reserved, passes[0].id);
    }
  }

  lemma TakingSafe(o: Program, p: Program, level: int, done: seq<MethodId>, passes: seq<Pass>, id: MethodId, reserved: int)
    requires ProperProgram(o, level) && Stage(o, level, p, done, passes) && level > 2 && id in o && id in p && id !in done
    requires NoneTwice(o, done, id) && Taking(p, id, reserved) != [] && WellLinked(p)
    ensures InlineSafe(p, id, LastLocalOffset(p[id].code) + 2, Taking(p, id, reserved))
    ensures FunctionsBelow(p[id].code, LastLocalOffset(p[id].code) + 2)
  {
    hide *;
    CalleesAllFit(o, p, level, done, passes, id, reserved);
    TakerTidy(o, level, p, done, passes, id, reserved);
    TakerMixed(o, level, p, done, passes, id, reserved);
    SameMemory(o, level, p, done, passes);
    FitSafe(p, id, reserved);
    FunctionsFree(p[id].code, LastLocalOffset(p[id].code) + 2);
  }

  lemma AroundLinked(o: Program, q: Program)
    requires Around(o, q)
    ensures WellLinked(q)
  {
  }

  lemma ProperLinked(o: Program, level: int)
    requires ProperProgram(o, level)
    ensures WellLinked(o)
  {
  }

  lemma SafePass(h: Host, p: Program, level: int, reserved: int, id: MethodId)
    requires WellLinked(p) && id in p
    requires InlineSafe(p, id, LastLocalOffset(p[id].code) + 2, Taking(p, id, reserved))
    requires FunctionsBelow(p[id].code, LastLocalOffset(p[id].code) + 2)
    ensures PassReady(h, p, level, reserved, Pass.Inline(id))
  {
    hide InlineSafe, FunctionsBelow, InlinedIds, LabelsOf, LastLocalOffset;
  }

  lemma IdlePass(h: Host, p: Program, level: int, reserved: int, id: MethodId)
    requires WellLinked(p) && id in p && (level <= 2 || Taking(p, id, reserved) == [])
    ensures PassReady(h, p, level, reserved, Pass.Inline(id))
  {
    hide InlineSafe, FunctionsBelow, InlinedIds, LabelsOf, LastLocalOffset;
  }

  lemma StageHead(o: Program, level: int, p: Program, done: seq<MethodId>, passes: seq<Pass>)
    requires Stage(o, level, p, done, passes) && passes != []
    ensures var id := passes[0].id;
      id in o && id in p && MethodStage(o, level, p, done, id) && if passes[0].Optimize? then p[id] == o[id] else id !in done
  {
    assert passes[0] in passes;
  }

  lemma TakerTidy(o: Program, level: int, p: Program, done: seq<MethodId>, passes: seq<Pass>, id: MethodId, reserved: int)
    requires Stage(o, level, p, done, passes) && id in o && Taking(p, id, reserved) != []
    ensures Tidy(p[id])
  {
    assert MethodStage(o, level, p, done, id);
    assert p[id].code != [];
  }

  /** A method something is inlined into has callees. */
  lemma TakerMixed(o: Program, level: int, p: Program, done: seq<MethodId>, passes: seq<Pass>, id: MethodId, reserved: int)
    requires Stage(o, level, p, done, passes) && level > 2 && id in o && id !in done && Taking(p, id, reserved) != []
    ensures NoLocalFunctions(p[id].code)
  {
    var c := Taking(p, id, reserved)[0];
    assert MethodStage(o, level, p, done, id);
    hide *;
    TakenFit(o, level, p, done, passes, id, reserved, c);
    CallsMix(o, level, id, c);
    MixedStage(o, level, p, done, id);
  }

  lemma CallsMix(o: Program, level: int, id: MethodId, c: MethodId)
    requires id in o && c in Callees(o, id) && level > 2
    ensures Mixed(o, level, id)
  {
  }

  lemma MixedStage(o: Program, level: int, p: Program, done: seq<MethodId>, id: MethodId)
    requires id in o && id in p && MethodStage(o, level, p, done, id) && Mixed(o, level, id)
    ensures NoLocalFunctions(p[id].code)
  {
  }

  lemma TakingSpace(p: Program, id: MethodId, reserved: int, c: MethodId)
    requires id in p && Tidy(p[id]) && CalleesFit(p, id, reserved) && c in Taking(p, id, reserved)
    ensures c in p && !Constructor(p[c]) && Fit(p[c])
    ensures var offset := LastLocalOffset(p[id].code) + 2;
      offset < LOCAL_WORDS && 8 * (offset + 1) + 3 * p[c].space + 8 <= 8 * LOCAL_WORDS
  {
    hide InlineInto, LabelsApart, WritesBeforeReads;
    CalleeSpace(p, id, reserved, c);
  }

  /** Fit callees without common labels are what inlining asks for. */
  lemma FitSafe(p: Program, id: MethodId, reserved: int)
    requires id in p && Tidy(p[id]) && CalleesFit(p, id, reserved) && Taking(p, id, reserved) != [] && WellLinked(p)
    requires OneMemory(p)
    ensures InlineSafe(p, id, LastLocalOffset(p[id].code) + 2, Taking(p, id, reserved))
  {
    var offset, ids := LastLocalOffset(p[id].code) + 2, Taking(p, id, reserved);
    hide Fit, CalleeReady, Tidy, CalleesFit, ShareNoLabel, Taking, LastLocalOffset;
    FitLabels(p, id, reserved);
    forall c | c in ids ensures offset < LOCAL_WORDS && c in p && CalleeReady(offset, p[c].code) { TakenReady(p, id, reserved, c); }
    assert ids[0] in ids;
  }

  lemma TakenReady(p: Program, id: MethodId, reserved: int, c: MethodId)
    requires id in p && Tidy(p[id]) && CalleesFit(p, id, reserved) && c in Taking(p, id, reserved)
    ensures var offset := LastLocalOffset(p[id].code) + 2; offset < LOCAL_WORDS && c in p && CalleeReady(offset, p[c].code)
  {
    hide *;
    TakingSpace(p, id, reserved, c);
    FitReady(p[c], LastLocalOffset(p[id].code) + 2);
  }

  lemma FitLabels(p: Program, id: MethodId, reserved: int)
    requires id in p && CalleesFit(p, id, reserved)
    ensures var ids := Taking(p, id, reserved);
      forall j, k :: 0 <= j < k < |ids| ==> ids[j] in p && ids[k] in p && ShareNoLabel(p[ids[k]].code, p[ids[j]].code)
  {
    var ids := Taking(p, id, reserved);
    assert LabelsApart(p, ids);
    hide *;
    forall j, k | 0 <= j < k < |ids| ensures ids[j] in p && ids[k] in p && ShareNoLabel(p[ids[k]].code, p[ids[j]].code) {
      assert ids[j] in ids && ids[k] in ids;
      PairwiseApart(p, ids, j, k);
      ApartShares(p[ids[k]].code, p[ids[j]].code);
    }
  }

  lemma ApartShares(x: seq<Instr>, y: seq<Instr>)
    requires LabelsOf(x) !! LabelsOf(y)
    ensures ShareNoLabel(x, y)
  {
    forall i | i in x && i.LBL? ensures i !in y {
      assert LabelOf(i) == Some(i.mark);
      LabelIn(x, i.mark);
      LabelIn(y, i.mark);
    }
  }

  lemma SameMemory(o: Program, level: int, p: Program, done: seq<MethodId>, passes: seq<Pass>)
    requires ProperProgram(o, level) && Stage(o, level, p, done, passes)
    ensures OneMemory(p)
  {
    forall b | b in p ensures p[b].cls == o[b].cls && p[b].clsMem == o[b].clsMem && p[b].virtual == o[b].virtual {
      assert MethodStage(o, level, p, done, b);
    }
  }

  lemma FunctionsFree(code: seq<Instr>, offset: nat)
    requires NoLocalFunctions(code)
    ensures FunctionsBelow(code, offset)
  {
  }

  lemma InlinedLabel(p: Program, id: MethodId, reserved: int, l: int) returns (c: MethodId)
    requires id in p && l in LabelsOf(InlineInto(p, id, reserved).code)
    ensures l in LabelsOf(p[id].code) || (c in Taking(p, id, reserved) && l in LabelsOf(p[c].code))
  {
    var m, after := p[id], InlineInto(p, id, reserved).code;
    LabelIn(after, l);
    var i :| i in after && LabelOf(i) == Some(l);
    c := FromWhere(p, id, LastLocalOffset(m.code) + 2, LabelsOf(m.code) + {reserved}, m.code, m.space, {}, i);
    LabelIn(m.code, l);
    if i !in m.code { BodyLabel(LastLocalOffset(m.code) + 2, p[c].code, i, l); }
  }

  lemma BodyLabel(offset: nat, code: seq<Instr>, i: Instr, l: int)
    requires code != [] && i in InlinedBody(offset, code) && LabelOf(i) == Some(l)
    ensures l in LabelsOf(code)
  {
    var k :| 0 <= k < |code| - 1 && i == Relocate(offset, Front(code)[k]);
    assert Front(code)[k] in code && LabelOf(Front(code)[k]) == Some(l);
    LabelIn(code, l);
  }

  /** A method that took callees in holds what it held and what they held. */
  lemma HeldNow(o: Program, done: seq<MethodId>, id: MethodId)
    requires id in o
    ensures Held(o, done, id) <= Held(o, done + [id], id)
    ensures forall c <- Callees(o, id) :: c in o && Held(o, done, c) <= Held(o, done + [id], id)
  {
    var now := done + [id];
    assert now[..|now| - 1] == done && now[|now| - 1] == id;
  }

  lemma HeldGrows(o: Program, held: set<MethodId>, more: set<MethodId>)
    requires held <= more
    ensures LabelsHeld(o, held) <= LabelsHeld(o, more)
  {
  }

  lemma InlinedLabels(o: Program, level: int, p: Program, done: seq<MethodId>, passes: seq<Pass>, id: MethodId, reserved: int)
    requires Stage(o, level, p, done, passes) && level > 2 && id in o && id !in done
    ensures LabelsOf(InlineInto(p, id, reserved).code) <= LabelsHeld(o, Held(o, done + [id], id))
  {
    var labels := LabelsHeld(o, Held(o, done + [id], id));
    assert MethodStage(o, level, p, done, id);
    assert LabelsOf(p[id].code) <= LabelsHeld(o, Held(o, done, id));
    HeldNow(o, done, id);
    hide *;
    HeldGrows(o, Held(o, done, id), Held(o, done + [id], id));
    forall l | l in LabelsOf(InlineInto(p, id, reserved).code) ensures l in labels {
      var c := InlinedLabel(p, id, reserved, l);
      if l !in LabelsOf(p[id].code) {
        TakenFit(o, level, p, done, passes, id, reserved, c);
        HeldGrows(o, Held(o, done, c), Held(o, done + [id], id));
      }
    }
  }

  lemma InlineStage(o: Program, p: Program, level: int, done: seq<MethodId>, passes: seq<Pass>, reserved: int)
    requires ProperProgram(o, level) && Stage(o, level, p, done, passes) && passes != [] && passes[0].Inline? && level > 2
    requires passes[0].id in o && NoneTwice(o, done, passes[0].id)
    ensures var id := passes[0].id; id in p && Stage(o, level, p[id := InlineInto(p, id, reserved)], done + [id], passes[1..])
  {
    var id := passes[0].id;
    StageHead(o, level, p, done, passes);
    hide *;
    CalleesAllFit(o, p, level, done, passes, id, reserved);
    InlinedLabels(o, level, p, done, passes, id, reserved);
    ProperLinked(o, level);
    StageAround(o, level, p, done, passes);
    PlainInto(o, p, id, reserved);
    InlinedStage(o, level, p, done, id, reserved);
    OneMoved(o, level, p, InlineInto(p, id, reserved), done, done + [id], passes);
  }

  lemma PlainInto(o: Program, p: Program, id: MethodId, reserved: int)
    requires Around(o, p) && id in p && (p[id].code != [] ==> Tidy(p[id])) && CalleesFit(p, id, reserved)
    ensures PlainAs(o, InlineInto(p, id, reserved).code)
  {
    hide InlineInto, Around, R.AllPlain, Tidy, CalleesFit;
    forall scaling: R.Scaling | R.PlainProgram(o, scaling) ensures R.AllPlain(InlineInto(p, id, reserved).code, scaling) {
      PlainAround(o, p, scaling);
      if p[id].code != [] { InlinedPlain(p, id, reserved, scaling); } else { EmptyPlain(p, id, reserved, scaling); }
    }
  }

  lemma EmptyPlain(p: Program, id: MethodId, reserved: int, scaling: R.Scaling)
    requires id in p && p[id].code == []
    ensures R.AllPlain(InlineInto(p, id, reserved).code, scaling)
  {
  }

  lemma InlinedStage(o: Program, level: int, p: Program, done: seq<MethodId>, id: MethodId, reserved: int)
    requires id in o && id in p && MethodStage(o, level, p, done, id) && CalleesFit(p, id, reserved)
    requires LabelsOf(InlineInto(p, id, reserved).code) <= LabelsHeld(o, Held(o, done + [id], id))
    requires PlainAs(o, InlineInto(p, id, reserved).code)
    requires Taken(o, level, id) ==> Mixed(o, level, id)
    ensures MethodStage(o, level, p[id := InlineInto(p, id, reserved)], done + [id], id)
  {
    hide Held, LabelsHeld, Callees, Tidy, Taken, Mixed, LabelsOf, CalleesFit, InlineCalls, InlinedIds, LastLocalOffset, WritesBeforeReads,
      NoLocalFunctions, PlainAs;
    if o[id].code != [] { FitInlined(p, id, reserved); } else { EmptyInto(p, id, reserved); }
  }

  lemma EmptyInto(p: Program, id: MethodId, reserved: int)
    requires id in p && p[id].code == []
    ensures InlineInto(p, id, reserved).code == []
  {
  }

  // ----- All passes -----

  lemma SkippedStage(o: Program, level: int, p: Program, done: seq<MethodId>, passes: seq<Pass>)
    requires Stage(o, level, p, done, passes) && passes != []
    ensures Stage(o, level, p, done, passes[1..])
  {
    PassesShift(o, passes);
    hide MethodStage, Scheduled;
    forall pass | pass in passes[1..]
      ensures if pass.Optimize? then p[pass.id] == o[pass.id] else pass.id !in done
    {
      assert pass in passes;
    }
  }

  lemma {:induction false} RunLast(h: Host, p: Program, level: int, reserved: int, passes: seq<Pass>, pass: Pass)
    ensures var q := RunPasses(h, p, level, reserved, passes);
      RunPasses(h, p, level, reserved, passes + [pass]) == if q.None? then None else RunPass(h, q.value, level, reserved, pass)
    decreases |passes|
  {
    hide RunPass;
    if passes == [] {
      assert [pass][1..] == [];
    } else {
      assert (passes + [pass])[1..] == passes[1..] + [pass];
      var q := RunPass(h, p, level, reserved, passes[0]);
      if q.Some? { RunLast(h, q.value, level, reserved, passes[1..], pass); }
    }
  }

  lemma ReachedNext(h: Host, o: Program, level: int, reserved: int, all: seq<Pass>, n: nat, p: Program, q: Program)
    requires n < |all| && RunPasses(h, o, level, reserved, all[..n]) == Some(p) && RunPass(h, p, level, reserved, all[n]) == Some(q)
    ensures RunPasses(h, o, level, reserved, all[..n + 1]) == Some(q)
  {
    assert all[..n + 1] == all[..n] + [all[n]];
    RunLast(h, o, level, reserved, all[..n], all[n]);
  }

  lemma {:induction false} StagesReady(h: Host, o: Program, p: Program, level: int, done: seq<MethodId>, all: seq<Pass>, n: nat,
                                       reserved: int)
    requires n <= |all| && ProperProgram(o, level) && Stage(o, level, p, done, all[n..])
    requires RightInTurn(h, o, level, reserved, all) && RunPasses(h, o, level, reserved, all[..n]) == Some(p)
    requires level > 2 ==> NoLabelTwice(o, done, Inlines(all[n..]))
    ensures PassesReady(h, p, level, reserved, all[n..])
    decreases |all| - n
  {
    if n == |all| { return; }
    var passes, rest := all[n..], all[n + 1..];
    assert rest == passes[1..] && passes[0] == all[n];
    StageHead(o, level, p, done, passes);
    var id := passes[0].id;
    NextInlines(o, level, done, passes);
    assert Reached(h, o, level, reserved, all, p);
    hide *;
    RunOf(h, p, level, reserved, passes[0]);
    if passes[0].Optimize? {
      OptimizePassReady(h, o, p, level, done, passes, reserved, all);
      if OptimizeBlock(h, p, level, p[id].code).Some? {
        var q := p[id := p[id].(code := OptimizeBlock(h, p, level, p[id].code).value)];
        OptimizeStage(h, o, p, level, done, passes, reserved, all);
        ReachedNext(h, o, level, reserved, all, n, p, q);
        StagesReady(h, o, q, level, done, all, n + 1, reserved);
      }
    } else {
      InlinePassReady(h, o, p, level, done, passes, reserved);
      if level > 2 {
        var q := p[id := InlineInto(p, id, reserved)];
        InlineStage(o, p, level, done, passes, reserved);
        ReachedNext(h, o, level, reserved, all, n, p, q);
        StagesReady(h, o, q, level, done + [id], all, n + 1, reserved);
      } else {
        SkippedStage(o, level, p, done, passes);
        ReachedNext(h, o, level, reserved, all, n, p, p);
        StagesReady(h, o, p, level, done, all, n + 1, reserved);
      }
    }
    ReadyOn(h, p, level, reserved, passes);
  }

  lemma RunOf(h: Host, p: Program, level: int, reserved: int, pass: Pass)
    requires pass.id in p
    ensures RunPass(h, p, level, reserved, pass) ==
      if pass.Inline? then Some(if level <= 2 then p else p[pass.id := InlineInto(p, pass.id, reserved)])
      else (var code := OptimizeBlock(h, p, level, p[pass.id].code);
            if code.None? then None else Some(p[pass.id := p[pass.id].(code := code.value)]))
  {
    hide OptimizeBlock, InlineInto;
  }

  lemma ReadyOn(h: Host, p: Program, level: int, reserved: int, passes: seq<Pass>)
    requires passes != [] && PassReady(h, p, level, reserved, passes[0])
    requires var q := RunPass(h, p, level, reserved, passes[0]); q.Some? ==> PassesReady(h, q.value, level, reserved, passes[1..])
    ensures PassesReady(h, p, level, reserved, passes)
  {
    hide PassReady, RunPass;
  }

  lemma NextInlines(o: Program, level: int, done: seq<MethodId>, passes: seq<Pass>)
    requires passes != [] && (level > 2 ==> NoLabelTwice(o, done, Inlines(passes)))
    ensures passes[0].Optimize? && level > 2 ==> NoLabelTwice(o, done, Inlines(passes[1..]))
    ensures passes[0].Inline? && level > 2 ==> passes[0].id in o && NoneTwice(o, done, passes[0].id)
                                               && NoLabelTwice(o, done + [passes[0].id], Inlines(passes[1..]))
  {
    hide NoneTwice;
    if passes[0].Inline? { InlinesNext(passes); }
    else { assert Inlines(passes) == Inlines(passes[1..]); }
  }

  lemma InlinesNext(passes: seq<Pass>)
    requires passes != [] && passes[0].Inline?
    ensures Inlines(passes) != [] && Inlines(passes)[0] == passes[0].id && Inlines(passes)[1..] == Inlines(passes[1..])
  {
  }

  lemma OptimizePassReady(h: Host, o: Program, p: Program, level: int, done: seq<MethodId>, passes: seq<Pass>, reserved: int,
                          all: seq<Pass>)
    requires ProperProgram(o, level) && Stage(o, level, p, done, passes) && passes != [] && passes[0].Optimize?
    requires RightInTurn(h, o, level, reserved, all) && Reached(h, o, level, reserved, all, p)
    ensures PassReady(h, p, level, reserved, passes[0])
  {
    OptimizeReady(h, o, p, level, done, passes, reserved, all);
    StageAround(o, level, p, done, passes);
    hide Stage, ProperProgram, BlockReady, QuotientsSafe, RightInTurn, Reached;
  }

  lemma HoldsItself(o: Program, id: MethodId)
    requires id in o
    ensures LabelsOf(o[id].code) <= LabelsHeld(o, Held(o, [], id))
  {
    hide LabelsOf;
    assert id in Held(o, [], id);
    forall l | l in LabelsOf(o[id].code) ensures l in LabelsHeld(o, Held(o, [], id)) {
      assert id in Held(o, [], id) && id in o && l in LabelsOf(o[id].code);
    }
  }

  lemma FirstStage(o: Program, level: int, passes: seq<Pass>)
    requires ProperProgram(o, level) && Scheduled(o, passes)
    ensures Stage(o, level, o, [], passes)
  {
    forall id | id in o ensures MethodStage(o, level, o, [], id) {
      hide Tidy, LabelsOf, WritesBeforeReads, Callees, LabelsHeld;
      HoldsItself(o, id);
    }
  }

  /** The optimizer changes no program that is proper to begin with, whose blocks are rewritten rightly in turn, and in
      which no method with a label comes to another one twice: every call reaches the outcome it reached before. */
  lemma ProperCoTerminates(h: Host, o: Program, level: int, reserved: int, passes: seq<Pass>)
    requires ProperProgram(o, level) && RightInTurn(h, o, level, reserved, passes) && Scheduled(o, passes)
    requires level > 2 ==> NoLabelTwice(o, [], Inlines(passes))
    requires RunPasses(h, o, level, reserved, passes).Some?
    ensures CoTerminate(h, o, RunPasses(h, o, level, reserved, passes).value)
  {
    assert passes[0..] == passes && RunPasses(h, o, level, reserved, passes[..0]) == Some(o);
    hide *;
    FirstStage(o, level, passes);
    StagesReady(h, o, o, level, [], passes, 0, reserved);
    OptimizerCoTerminates(h, o, level, reserved, passes);
  }
}
