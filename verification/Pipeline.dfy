// The optimizer as a whole: the pass pipeline of a block at each level, and the order in which
// the methods of a program are optimized and inlined.

module Pipeline {
  import opened Wrappers
  import opened Words
  import opened Bytecode
  import opened Simulation
  import opened Passes
  import opened Accessors
  import opened Inlining
  import opened InlineMethod
  import opened Programs
  import opened Quotients

  function Cleaned(code: seq<Instr>): seq<Instr> {
    RemoveUseless([], CleanJumps([], code))
  }

  function Folded(h: Host, p: Program, code: seq<Instr>): Option<seq<Instr>> {
    var ints := FoldInts([], InlineSettersGetters(p, Cleaned(code)));
    if ints.None? then None else Some(FoldFloats(h, [], ints.value))
  }

  /** What OptimizeMethod makes of a block; None when constant folding makes the compiler fault. */
  function OptimizeBlock(h: Host, p: Program, level: int, code: seq<Instr>): Option<seq<Instr>> {
    if level <= 0 then Some(Cleaned(code)) else
    var folded := Folded(h, p, code);
    if level == 1 || folded.None? then folded else
    var reduced := ReduceStrength([], folded.value);
    if level == 2 then Some(reduced) else Some(ReplaceInstructions(reduced))
  }

  /** The last instruction, a return in every block the emitter completes, makes the passes let go
      of what they hold back. */
  predicate EndsFlushed(code: seq<Instr>) {
    code != [] ==> !Last(code).JMP? && !Last(code).LOAD_INT_VAR? && !Last(code).STOR_INT_VAR?
  }

  /** What a block must satisfy for its level, its quotients aside. */
  predicate BlockReady(h: Host, p: Program, level: int, code: seq<Instr>) {
    UniqueLabels(code) && NoBranchToNext(code) && SlotsInFrame(code) && EndsFlushed(code) && CopiesSafe(h, p, level, code)
  }

  /** At level 3: behind the parameters' stores no store meets its own load but to a local, and none follows a float's. */
  predicate CopiesSafe(h: Host, p: Program, level: int, code: seq<Instr>) {
    level >= 3 && Folded(h, p, code).Some? ==>
      var reduced := ReduceStrength([], Folded(h, p, code).value);
      CopiesCleanly(reduced[PrologueLength(reduced)..])
  }

  /** From level 2 on: whatever the block computes, the shifts that replace its products and quotients are right. */
  ghost predicate QuotientsSafe(h: Host, p: Program, level: int, code: seq<Instr>) {
    level >= 2 && Folded(h, p, code).Some? ==> ReducesSafely(h, p, Folded(h, p, code).value)
  }

  lemma {:induction false} CleanJumpsKeeps(ws: seq<Instr>, rest: seq<Instr>)
    ensures forall i <- CleanJumps(ws, rest) :: i in ws || i in rest
    ensures rest != [] && !Last(rest).JMP? ==> CleanJumps(ws, rest) != [] && Last(CleanJumps(ws, rest)) == Last(rest)
    decreases |rest|
  {
    if rest == [] { return; }
    if |rest| > 1 { assert Last(rest[1..]) == Last(rest); }
    if rest[0].JMP? { CleanJumpsKeeps(ws + [rest[0]], rest[1..]); }
    else { CleanJumpsKeeps([], rest[1..]); }
  }

  /** A block that ends flushed leaves nothing held back. */
  lemma {:induction false} EndFlushes(ws: seq<Instr>, rest: seq<Instr>)
    requires rest != [] && EndsFlushed(rest)
    ensures Leftover(ws, rest) == []
    decreases |rest|
  {
    if |rest| > 1 {
      assert Last(rest[1..]) == Last(rest);
      var i := rest[0];
      if i.LOAD_INT_VAR? && i.ctx == LOCL { EndFlushes(ws + [i], rest[1..]); }
      else if Undoes(ws, i) { EndFlushes(Front(ws), rest[1..]); }
      else { EndFlushes([], rest[1..]); }
    }
  }

  /** Load/store removal refines code exactly up to the loads it forgets to emit at the end. */
  lemma RemoveUselessRefines(h: Host, p: Program, code: seq<Instr>)
    requires SlotsInFrame(code)
    ensures Refines(h, p, code, RemoveUseless([], code) + Leftover([], code), 0)
  {
    EmptyEffect(h);
    var cs := RemoveUselessChunks(h, p, [], [], code);
    MissingFlush([], code);
    assert [] + code == code;
    RewrittenRefines(h, p, cs, code, RemoveUselessFlushed([], code));
  }

  lemma CleanedRefines(h: Host, p: Program, code: seq<Instr>)
    requires UniqueLabels(code) && NoBranchToNext(code) && SlotsInFrame(code) && EndsFlushed(code)
    ensures Refines(h, p, code, Cleaned(code), 0)
  {
    var jumps := CleanJumps([], code);
    CleanJumpsRefines(h, p, code);
    CleanJumpsKeeps([], code);
    RemoveUselessRefines(h, p, jumps);
    if code != [] { EndFlushes([], jumps); }
    assert RemoveUseless([], jumps) + [] == Cleaned(code);
    RefinesTransitive(h, p, code, jumps, Cleaned(code), 0, 0);
  }

  lemma FoldedRefines(h: Host, p: Program, code: seq<Instr>)
    requires WellLinked(p) && Folded(h, p, code).Some?
    ensures Refines(h, p, Cleaned(code), Folded(h, p, code).value, 1)
  {
    var clean := Cleaned(code);
    var accessors := InlineSettersGetters(p, clean);
    var ints := FoldInts([], accessors).value;
    var floats := FoldFloats(h, [], ints);
    InlineSettersGettersRefines(h, p, clean);
    EmptyEffect(h);
    assert [] + accessors == accessors && [] + ints == ints;
    var cs := FoldIntsChunks(h, p, [], [], accessors);
    RewrittenRefines(h, p, cs, accessors, ints);
    var ds := FoldFloatsChunks(h, p, [], [], ints);
    RewrittenRefines(h, p, ds, ints, floats);
    RefinesTransitive(h, p, clean, accessors, ints, 1, 0);
    RefinesTransitive(h, p, clean, ints, floats, 1, 0);
  }

  /** The leading stores come out as they went in; the rest is rewritten. */
  lemma ReplacedRefines(h: Host, p: Program, code: seq<Instr>)
    requires CopiesCleanly(code[PrologueLength(code)..])
    ensures Refines(h, p, code, ReplaceInstructions(code), 0)
  {
    var n := PrologueLength(code);
    var body, after := code[n..], ReplaceStores([], code[n..]);
    EmptyEffect(h);
    PrologueSimple(h, code);
    Rejoin(code, n);
    hide SameEffect, RewrittenTo, Refines, ReplaceStores, CopiesCleanly, PrologueLength;
    var ds := ReplaceStoresChunks(h, p, [], [], body);
    var cs := PrependRewrite(h, p, code[..n], code[..n], ds, body, after);
    RewrittenRefines(h, p, cs, code, code[..n] + after);
  }

  lemma Rejoin<T>(s: seq<T>, n: nat)
    requires n <= |s|
    ensures s[..n] + s[n..] == s && [] + s[n..] == s[n..]
  {
  }

  lemma PrologueSimple(h: Host, code: seq<Instr>)
    ensures SameEffect(h, code[..PrologueLength(code)], code[..PrologueLength(code)])
  {
    Unchanged(h, code[..PrologueLength(code)]);
  }

  /** Whatever the level, the optimized block returns what the block returned. */
  lemma OptimizeBlockRefines(h: Host, p: Program, level: int, code: seq<Instr>)
    requires WellLinked(p) && BlockReady(h, p, level, code) && QuotientsSafe(h, p, level, code)
    requires OptimizeBlock(h, p, level, code).Some?
    ensures Refines(h, p, code, OptimizeBlock(h, p, level, code).value, 1)
  {
    var clean := Cleaned(code);
    CleanedRefines(h, p, code);
    if level <= 0 {
      RefinesReflexive(h, p, clean);
      RefinesLoosen(h, p, code, clean);
      return;
    }
    FoldedRefines(h, p, code);
    var folded := Folded(h, p, code).value;
    RefinesTransitive(h, p, code, clean, folded, 0, 1);
    if level == 1 { return; }
    var reduced := ReduceStrength([], folded);
    ReducedRefines(h, p, folded);
    RefinesTransitive(h, p, code, folded, reduced, 1, 0);
    if level == 2 { return; }
    ReplacedRefines(h, p, reduced);
    RefinesTransitive(h, p, code, reduced, ReplaceInstructions(reduced), 1, 0);
  }

  /** The same for a single run, under what this run meets: if the shift is right wherever the run comes to a
      rewritten product or quotient, the optimized block ends as the block does. */
  lemma OptimizeBlockRuns(h: Host, p: Program, level: int, code: seq<Instr>, m: Machine, fuel: nat, d: nat)
    requires WellLinked(p) && BlockReady(h, p, level, code) && OptimizeBlock(h, p, level, code).Some? && Sized(m)
    requires level >= 2 ==> var folded := Folded(h, p, code).value; MeetsGood(Activation(h, p, folded, d), folded, m, fuel)
    ensures var o := RunBody(h, p, OptimizeBlock(h, p, level, code).value, m, fuel, d);
      && (!RunBody(h, p, code, m, fuel, d).Timeout? ==> o == RunBody(h, p, code, m, fuel, d))
      && (!o.Timeout? ==> RunBody(h, p, code, m, fuel, d + 1) == o)
  {
    if level < 2 {
      OptimizeBlockRefines(h, p, level, code);
      RunsOf(h, p, code, OptimizeBlock(h, p, level, code).value, m, fuel, d);
      return;
    }
    var folded := Folded(h, p, code).value;
    var reduced := ReduceStrength([], folded);
    OptimizeBlockRefines(h, p, 1, code);
    ReducedRuns(h, p, folded, m, fuel, d);
    hide Folded, MeetsGood, ReduceStrength, WellLinked;
    RunsOf(h, p, code, folded, m, fuel, d);
    if level > 2 {
      ReplacedRefines(h, p, reduced);
      RunsTogether(h, p, reduced, ReplaceInstructions(reduced), m, fuel, d);
    }
  }

  lemma RunsTogether(h: Host, p: Program, before: seq<Instr>, after: seq<Instr>, m: Machine, fuel: nat, d: nat)
    requires Refines(h, p, before, after, 0) && Sized(m)
    ensures var r, s := RunBody(h, p, before, m, fuel, d), RunBody(h, p, after, m, fuel, d);
      !r.Timeout? || !s.Timeout? ==> s == r
  {
  }

  lemma RunsOf(h: Host, p: Program, before: seq<Instr>, after: seq<Instr>, m: Machine, fuel: nat, d: nat)
    requires Refines(h, p, before, after, 1) && Sized(m)
    ensures var r, s := RunBody(h, p, before, m, fuel, d), RunBody(h, p, after, m, fuel, d);
      && (!r.Timeout? ==> s == r) && (!s.Timeout? ==> RunBody(h, p, before, m, fuel, d + 1) == s)
  {
    var _ := RunBody(h, p, before, m, fuel, d + 1);
  }

  lemma RefinesLoosen(h: Host, p: Program, a: seq<Instr>, b: seq<Instr>)
    requires Refines(h, p, a, b, 0)
    ensures Refines(h, p, a, b, 1)
  {
  }

  // ----- The program -----

  datatype Pass = Optimize(id: MethodId) | Inline(id: MethodId)

  function OptimizeEach(ids: seq<MethodId>): seq<Pass> {
    if ids == [] then [] else [Pass.Optimize(ids[0])] + OptimizeEach(ids[1..])
  }

  function InlineEach(ids: seq<MethodId>): seq<Pass> {
    if ids == [] then [] else [Pass.Inline(ids[0])] + InlineEach(ids[1..])
  }

  /** Class by class: first every method's own block, then the calls in every block. */
  function Schedule(classes: seq<seq<MethodId>>): seq<Pass> {
    if classes == [] then []
    else OptimizeEach(classes[0]) + (InlineEach(classes[0]) + Schedule(classes[1..]))
  }

  function LabelsOf(code: seq<Instr>): (labels: set<int>)
    ensures CollectsLabels(labels, code)
  {
    if code == [] then {}
    else (if LabelOf(code[0]).Some? then {LabelOf(code[0]).value} else {}) + LabelsOf(code[1..])
  }

  function InlinedSpace(p: Program, ids: seq<MethodId>): nat {
    if ids == [] then 0 else 8 + (if ids[0] in p then p[ids[0]].space else 0) + InlinedSpace(p, ids[1..])
  }

  /** The method after InlineMethod; reserved is the one the pass reserves for itself. */
  function InlineInto(p: Program, id: MethodId, reserved: int): Method
    requires id in p
  {
    var m := p[id];
    var labels := LabelsOf(m.code) + {reserved};
    m.(code := InlineCalls(p, id, LastLocalOffset(m.code) + 2, labels, m.code, m.space, {}),
       space := m.space + InlinedSpace(p, InlinedIds(p, id, labels, m.code, m.space, {})))
  }

  function RunPass(h: Host, p: Program, level: int, reserved: int, pass: Pass): Option<Program> {
    if pass.id !in p then None else
    match pass
    case Optimize(id) =>
      var code := OptimizeBlock(h, p, level, p[id].code);
      if code.None? then None else Some(p[id := p[id].(code := code.value)])
    case Inline(id) => Some(if level <= 2 then p else p[id := InlineInto(p, id, reserved)])
  }

  function RunPasses(h: Host, p: Program, level: int, reserved: int, passes: seq<Pass>): Option<Program> {
    if passes == [] then Some(p) else
    var q := RunPass(h, p, level, reserved, passes[0]);
    if q.None? then None else RunPasses(h, q.value, level, reserved, passes[1..])
  }

  ghost predicate PassReady(h: Host, p: Program, level: int, reserved: int, pass: Pass) {
    && WellLinked(p)
    && pass.id in p
    && match pass
       case Optimize(id) => BlockReady(h, p, level, p[id].code) && QuotientsSafe(h, p, level, p[id].code)
       case Inline(id) =>
         var code := p[id].code;
         var ids := InlinedIds(p, id, LabelsOf(code) + {reserved}, code, p[id].space, {});
         level > 2 && ids != [] ==>
           InlineSafe(p, id, LastLocalOffset(code) + 2, ids) && FunctionsBelow(code, LastLocalOffset(code) + 2)
  }

  /** Every pass finds the program it meets ready for it. */
  ghost predicate PassesReady(h: Host, p: Program, level: int, reserved: int, passes: seq<Pass>) {
    passes == [] ||
    (PassReady(h, p, level, reserved, passes[0]) &&
     var q := RunPass(h, p, level, reserved, passes[0]);
     q.Some? ==> PassesReady(h, q.value, level, reserved, passes[1..]))
  }

  lemma RefinesVisibly(h: Host, p: Program, clsMem: int, before: seq<Instr>, after: seq<Instr>)
    requires Refines(h, p, before, after, 1)
    ensures RefinesMethod(h, p, clsMem, before, after, 1)
  {
  }

  /** A block into which nothing is inlined stays as it is. */
  lemma {:induction false} NothingInlined(p: Program, current: MethodId, offset: nat, labels: set<int>, code: seq<Instr>, space: nat,
                                          inlined: set<MethodId>)
    requires current in p && InlinedIds(p, current, labels, code, space, inlined) == []
    ensures InlineCalls(p, current, offset, labels, code, space, inlined) == code
  {
    if code != [] {
      NothingInlined(p, current, offset, labels, code[1..], space, inlined);
      assert code == [code[0]] + code[1..];
    }
  }

  lemma NothingInlinedInto(p: Program, id: MethodId, reserved: int)
    requires id in p
    requires var code := p[id].code; InlinedIds(p, id, LabelsOf(code) + {reserved}, code, p[id].space, {}) == []
    ensures p[id := InlineInto(p, id, reserved)] == p
  {
    var code := p[id].code;
    NothingInlined(p, id, LastLocalOffset(code) + 2, LabelsOf(code) + {reserved}, code, p[id].space, {});
  }

  lemma PassCoTerminates(h: Host, p: Program, level: int, reserved: int, pass: Pass)
    requires PassReady(h, p, level, reserved, pass) && RunPass(h, p, level, reserved, pass).Some?
    ensures CoTerminate(h, p, RunPass(h, p, level, reserved, pass).value)
  {
    hide OptimizeBlock, BlockReady, Refines, RefinesMethod, InlineSafe, InlineCalls, WellLinked, LabelsOf, InlinedIds;
    var q, id := RunPass(h, p, level, reserved, pass).value, pass.id;
    if pass.Inline? && level <= 2 { return; }
    if pass.Optimize? {
      OptimizeBlockRefines(h, p, level, p[id].code);
      RefinesVisibly(h, p, p[id].clsMem, p[id].code, q[id].code);
    } else if InlinedIds(p, id, LabelsOf(p[id].code) + {reserved}, p[id].code, p[id].space, {}) == [] {
      NothingInlinedInto(p, id, reserved);
      return;
    } else {
      InlineCallsRefines(h, p, id, LabelsOf(p[id].code) + {reserved}, p[id].code, p[id].space);
    }
    ReplacedCoTerminate(h, p, q, id);
  }

  /** The optimizer changes no program: every call reaches the outcome it reached before. */
  lemma {:induction false} OptimizerCoTerminates(h: Host, p: Program, level: int, reserved: int, passes: seq<Pass>)
    requires PassesReady(h, p, level, reserved, passes) && RunPasses(h, p, level, reserved, passes).Some?
    ensures CoTerminate(h, p, RunPasses(h, p, level, reserved, passes).value)
  {
    if passes != [] {
      PassCoTerminates(h, p, level, reserved, passes[0]);
      var q := RunPass(h, p, level, reserved, passes[0]).value;
      OptimizerCoTerminates(h, q, level, reserved, passes[1..]);
      CoTerminateTransitive(h, p, q, RunPasses(h, p, level, reserved, passes).value);
    }
  }
}
