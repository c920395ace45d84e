// From the source to the optimized program: a program whose methods were just emitted, calls between them
// included, meets everything the optimizer's passes ask for, and still does what its source does.

module CompiledProgram {
  import opened Wrappers
  import opened Words
  import opened Bytecode
  import opened Simulation
  import opened Passes
  import opened Accessors
  import opened Inlining
  import opened InlineMethod
  import opened Programs
  import opened Pipeline
  import opened Quotients
  import opened Source
  import opened Emission
  import opened Discipline
  import opened Compiler
  import opened Assigned
  import opened Stages
  import opened WellCalled
  import N = InlineShape
  import R = Ready
  import E = ExprMeaning

  const START := Labels(-1, UNCONDITIONAL_BASE - 1)

  /** The methods in the order they are emitted in; virtual ones are not. */
  function RoutinesOf(methods: map<MethodId, Option<Routine>>, ids: seq<MethodId>): (r: seq<Routine>)
    requires forall id <- ids :: id in methods && methods[id].Some?
    ensures |r| == |ids| && forall i :: 0 <= i < |ids| ==> r[i] == methods[ids[i]].value
  {
    seq(|ids|, i requires 0 <= i < |ids| => assert ids[i] in ids; methods[ids[i]].value)
  }

  /** What the emitter and the analyzer know of a method: its name tells a constructor, and each of its locals has
      a word in the declared space. */
  predicate Declared(m: Method, r: Routine) {
    !m.virtual && (r.constructs ==> N.Constructor(m)) && SpaceCovers(m)
  }

  ghost predicate EmittedHere(m: Method, r: Routine, n: Labels) {
    Declared(m, r) && m.code == RoutineCode(r, n) && exists base: nat :: GoodRoutine(r, base)
  }

  /** ids lists every method that is not virtual, once. */
  predicate Lists(methods: map<MethodId, Option<Routine>>, ids: seq<MethodId>) {
    && (forall id <- ids :: id in methods && methods[id].Some?)
    && (forall id :: id in methods && methods[id].Some? ==> id in ids)
    && (forall i, j :: 0 <= i < j < |ids| ==> ids[i] != ids[j])
  }

  /** The blocks in order, the label counters running on from one to the next. */
  ghost predicate EmittedBlocks(p: Program, methods: map<MethodId, Option<Routine>>, ids: seq<MethodId>)
    requires p.Keys == methods.Keys && Lists(methods, ids)
  {
    var routines := RoutinesOf(methods, ids);
    && Apart(START, LabelsAt(routines, START, |routines|))
    && forall i :: 0 <= i < |ids| ==> EmittedHere(p[ids[i]], routines[i], LabelsAt(routines, START, i))
  }

  /** The program holds the emitted block of every method and an empty block for every virtual one. */
  ghost predicate EmittedProgram(p: Program, methods: map<MethodId, Option<Routine>>, ids: seq<MethodId>) {
    && p.Keys == methods.Keys && OneMemory(p) && Lists(methods, ids) && EmittedBlocks(p, methods, ids)
    && (forall id :: id in p && methods[id].None? ==> p[id].virtual && p[id].code == [])
  }

  lemma PlaceOf(p: Program, methods: map<MethodId, Option<Routine>>, ids: seq<MethodId>, id: MethodId) returns (i: nat, n: Labels)
    requires EmittedProgram(p, methods, ids) && id in p && methods[id].Some?
    ensures i < |ids| && ids[i] == id && n == LabelsAt(RoutinesOf(methods, ids), START, i)
    ensures EmittedHere(p[id], methods[id].value, n) && Apart(n, AfterStmts(methods[id].value.body, n))
  {
    hide EmittedHere, OneMemory, Apart, LabelsAt;
    assert id in ids;
    i :| 0 <= i < |ids| && ids[i] == id;
    n := LabelsAt(RoutinesOf(methods, ids), START, i);
    assert EmittedHere(p[ids[i]], RoutinesOf(methods, ids)[i], n);
    ApartAt(RoutinesOf(methods, ids), i);
  }

  lemma ApartAt(routines: seq<Routine>, i: nat)
    requires i < |routines| && Apart(START, LabelsAt(routines, START, |routines|))
    ensures var n := LabelsAt(routines, START, i); Apart(n, AfterStmts(routines[i].body, n))
  {
    LabelsGrow(routines, START, 0, i);
    LabelsGrow(routines, START, i, i + 1);
    LabelsGrow(routines, START, i + 1, |routines|);
  }

  // ----- Emitted methods are proper -----

  lemma {:induction false} MarkPlaced(code: seq<Instr>, l: int)
    requires l in Marks(code)
    ensures LBL(l) in code
  {
    if code[0] != LBL(l) { MarkPlaced(code[1..], l); }
  }

  lemma {:induction false} TargetIn(code: seq<Instr>, i: Instr)
    requires i in code && i.JMP?
    ensures i.target in Targets(code)
  {
    if i != code[0] { TargetIn(code[1..], i); }
  }

  lemma {:induction false} MarkOf(code: seq<Instr>, l: int)
    requires LBL(l) in code
    ensures l in Marks(code)
  {
    if code[0] != LBL(l) { MarkOf(code[1..], l); }
  }

  lemma ClosedCode(code: seq<Instr>)
    requires Targets(code) <= Marks(code)
    ensures Closed(code) && LabelsOf(code) <= Marks(code)
  {
    forall i | i in code && i.JMP? ensures LBL(i.target) in code {
      TargetIn(code, i);
      MarkPlaced(code, i.target);
    }
    forall l | l in LabelsOf(code) ensures l in Marks(code) {
      LabelIn(code, l);
      var i :| i in code && Inlining.LabelOf(i) == Some(l);
      if i.JMP? { TargetIn(code, i); } else { MarkOf(code, l); }
    }
  }

  lemma CoveredCode(m: Method)
    requires SpaceCovers(m) && R.AllPlain(m.code, R.Anything)
    ensures N.Covered(m)
  {
    forall x | x in Shape.Locals(m.code) ensures 0 <= x && 8 * (x + 1) <= 3 * m.space + 8 {
      var i := N.NamedBy(m.code, x);
      assert R.Plain(i, R.Anything);
    }
  }

  lemma EmittedProper(m: Method, r: Routine, n: Labels)
    requires EmittedHere(m, r, n) && Apart(n, AfterStmts(r.body, n))
    ensures Proper(m) && m.code != [] && R.Emits(m.code, R.Anything)
    ensures SureRoutine(r) ==> WritesBeforeReads(m.code)
    ensures LabelsOf(m.code) <= Marks(m.code)
  {
    var base: nat :| GoodRoutine(r, base);
    RoutineDisciplined(r, n, base);
    FineUnique(m.code);
    ClosedCode(m.code);
    R.RoutinePlain(r, n, base, R.Anything);
    R.PlainSlots(m.code);
    R.RoutineFlushed(r, n);
    if !r.constructs { R.RoutineReturns(r, n); }
    CoveredCode(m);
    if SureRoutine(r) { RoutineWrites(r, n, base); }
  }

  /** A method that returns a variable of its instance, and one that sets it, are emitted as the optimizer knows them. */
  lemma AccessorsRecognized(get: Method, set': Method, x: int, n: Labels, n': Labels)
    requires get.numParams == 0 && get.code == RoutineCode(Routine([], Cons(Stmt.Return(Some(Field(x))), Nil), false, true), n)
    requires set'.numParams == 1 && set'.code == RoutineCode(Routine([0], Cons(SetField(x, Variable(0)), Nil), false, false), n')
    ensures CanInlineSetterGetter(get) == 0 && AccessorBody(get) == [LOAD_INT_VAR(x, INST)]
    ensures CanInlineSetterGetter(set') == 3 && AccessorBody(set') == [STOR_INT_VAR(x, INST)]
  {
    assert get.code == [LOAD_INST_MEM, LOAD_INT_VAR(x, INST), RTRN] by { GetterCode(x, n); }
    assert set'.code == [STOR_INT_VAR(0, LOCL), LOAD_INT_VAR(0, LOCL), LOAD_INST_MEM, STOR_INT_VAR(x, INST), RTRN] by { SetterCode(x, n'); }
  }

  lemma GetterCode(x: int, n: Labels)
    ensures RoutineCode(Routine([], Cons(Stmt.Return(Some(Field(x))), Nil), false, true), n) == [LOAD_INST_MEM, LOAD_INT_VAR(x, INST), RTRN]
  {
    var s, body := Stmt.Return(Some(Field(x))), Cons(Stmt.Return(Some(Field(x))), Nil);
    assert Epilogue(Routine([], body, false, true)) == [];
    assert StmtsCode(Nil, AfterStmt(s, n), 0, []) == [];
    assert ExprCode(Field(x), n, [RTRN] + []) == [LOAD_INST_MEM, LOAD_INT_VAR(x, INST)] + ([RTRN] + []);
    assert StmtCode(s, n, 0, []) == [LOAD_INST_MEM, LOAD_INT_VAR(x, INST), RTRN];
    assert StmtsCode(body, n, 0, []) == StmtCode(s, n, 0, []);
  }

  lemma SetterCode(x: int, n: Labels)
    ensures RoutineCode(Routine([0], Cons(SetField(x, Variable(0)), Nil), false, false), n) ==
      [STOR_INT_VAR(0, LOCL), LOAD_INT_VAR(0, LOCL), LOAD_INST_MEM, STOR_INT_VAR(x, INST), RTRN]
  {
    var s, body := SetField(x, Variable(0)), Cons(SetField(x, Variable(0)), Nil);
    var k: seq<Instr> := [RTRN];
    assert Epilogue(Routine([0], body, false, false)) == [] + k == k;
    assert StmtsCode(Nil, AfterStmt(s, n), 0, k) == k;
    assert ExprCode(Variable(0), n, FieldStore(x) + k) == [LOAD_INT_VAR(0, LOCL)] + (FieldStore(x) + k);
    assert StmtCode(s, n, 0, k) == [LOAD_INT_VAR(0, LOCL), LOAD_INST_MEM, STOR_INT_VAR(x, INST), RTRN];
    var code := StmtsCode(body, n, 0, k);
    assert code == StmtCode(s, n, 0, k);
    assert [0][..0] == [] && Prologue([], code) == code;
    assert Prologue([0], code) == [STOR_INT_VAR(0, LOCL)] + Prologue([0][..0], code);
  }

  // ----- The program is proper -----

  lemma EmittedApart(p: Program, methods: map<MethodId, Option<Routine>>, ids: seq<MethodId>, b: MethodId, c: MethodId)
    requires EmittedProgram(p, methods, ids) && b in p && c in p && b != c
    ensures LabelsOf(p[b].code) !! LabelsOf(p[c].code)
  {
    hide OneMemory, EmittedBlocks, Lists, LabelsOf;
    NoLabels();
    if methods[b].Some? && methods[c].Some? {
      PlacedApart(p, methods, ids, b, c);
    }
  }

  lemma NoLabels()
    ensures LabelsOf([]) == {}
  {
  }

  lemma PlacedApart(p: Program, methods: map<MethodId, Option<Routine>>, ids: seq<MethodId>, b: MethodId, c: MethodId)
    requires EmittedProgram(p, methods, ids) && b in p && c in p && b != c && methods[b].Some? && methods[c].Some?
    ensures LabelsOf(p[b].code) !! LabelsOf(p[c].code)
  {
    hide EmittedProgram, EmittedBlocks, Marks, LabelsOf;
    var i := PlacedMarks(p, methods, ids, b);
    var j := PlacedMarks(p, methods, ids, c);
    if i < j { BlocksApart(p, methods, ids, i, j); } else { BlocksApart(p, methods, ids, j, i); }
    StillDisjoint(LabelsOf(p[b].code), Marks(p[b].code), LabelsOf(p[c].code), Marks(p[c].code));
  }

  lemma StillDisjoint(x: set<int>, x': set<int>, y: set<int>, y': set<int>)
    requires x <= x' && y <= y' && x' !! y'
    ensures x !! y
  {
  }

  lemma PlacedMarks(p: Program, methods: map<MethodId, Option<Routine>>, ids: seq<MethodId>, id: MethodId) returns (i: nat)
    requires EmittedProgram(p, methods, ids) && id in p && methods[id].Some?
    ensures i < |ids| && ids[i] == id && LabelsOf(p[id].code) <= Marks(p[id].code)
  {
    var n: Labels;
    i, n := PlaceOf(p, methods, ids, id);
    EmittedProper(p[id], methods[id].value, n);
    hide EmittedProgram, Marks, LabelsOf, Proper;
  }

  lemma BlocksApart(p: Program, methods: map<MethodId, Option<Routine>>, ids: seq<MethodId>, i: nat, j: nat)
    requires EmittedProgram(p, methods, ids) && i < j < |ids|
    ensures Marks(p[ids[i]].code) !! Marks(p[ids[j]].code)
  {
    var routines := RoutinesOf(methods, ids);
    assert EmittedHere(p[ids[i]], routines[i], LabelsAt(routines, START, i));
    assert EmittedHere(p[ids[j]], routines[j], LabelsAt(routines, START, j));
    var base: nat :| GoodRoutine(routines[i], base);
    var base': nat :| GoodRoutine(routines[j], base');
    hide GoodRoutine, Marks, RoutineCode, OneMemory, LabelsAt, Apart, Declared;
    ProgramLabels(routines, START, i, j, base, base');
  }

  /** What the source has to promise: methods that may be taken into another one assign their variables first. */
  predicate Assigning(p: Program, methods: map<MethodId, Option<Routine>>, level: int) {
    forall id :: id in p && id in methods && methods[id].Some? && Taken(p, level, id) ==> SureRoutine(methods[id].value)
  }

  /** Each time the passes come to a method, the shifts put into it are right. */
  ghost predicate QuotientsRight(h: Host, p: Program, level: int, reserved: int, passes: seq<Pass>) {
    forall id :: id in p ==> ShiftsRight(h, p, level, reserved, passes, p[id].code)
  }

  /** Programs whose source divides nowhere, and has no fields or no products, meet it. */
  lemma UndividedRight(h: Host, p: Program, methods: map<MethodId, Option<Routine>>, ids: seq<MethodId>, level: int,
                       reserved: int, passes: seq<Pass>, scaling: R.Scaling)
    requires EmittedProgram(p, methods, ids) && !scaling.Anything?
    requires forall id :: id in methods && methods[id].Some? ==> R.StmtsScale(methods[id].value.body, scaling)
    ensures QuotientsRight(h, p, level, reserved, passes)
  {
    hide EmittedBlocks, Lists, OneMemory, ShiftsRight, EmittedHere;
    EmittedPlain(p, methods, ids, scaling);
    forall id | id in p ensures ShiftsRight(h, p, level, reserved, passes, p[id].code) {
      if methods[id].Some? {
        var i, n := PlaceOf(p, methods, ids, id);
        UndividedShifts(h, p, p[id], methods[id].value, n, level, reserved, passes, scaling);
      } else {
        EmptyShifts(h, p, level, reserved, passes);
      }
    }
  }

  lemma UndividedShifts(h: Host, p: Program, m: Method, r: Routine, n: Labels, level: int, reserved: int, passes: seq<Pass>,
                        scaling: R.Scaling)
    requires EmittedHere(m, r, n) && R.StmtsScale(r.body, scaling) && R.PlainProgram(p, scaling) && !scaling.Anything?
    ensures ShiftsRight(h, p, level, reserved, passes, m.code)
  {
    var base: nat :| GoodRoutine(r, base);
    hide R.PlainProgram, WellLinked, GoodRoutine, RoutineCode, ReducesSafely, Folded, ProductsOnly, Around, Reached;
    forall q: Program | level >= 2 && Around(p, q) && Reached(h, p, level, reserved, passes, q) ensures QuotientsSafe(h, q, level, m.code) {
      PlainAround(p, q, scaling);
      if Folded(h, q, m.code).Some? {
        R.WithoutDivision(h, q, r, n, base, scaling);
        ProductsReduceSafely(h, q, Folded(h, q, m.code).value);
      }
    }
  }

  lemma EmptyShifts(h: Host, p: Program, level: int, reserved: int, passes: seq<Pass>)
    ensures ShiftsRight(h, p, level, reserved, passes, [])
  {
    forall q: Program | level >= 2 && Around(p, q) && Reached(h, p, level, reserved, passes, q) ensures QuotientsSafe(h, q, level, []) {
      EmptyReady(h, q, level);
    }
  }

  /** Integers pair up with their stores whatever accessors are put in place of calls. */
  lemma PlainCopiesRight(h: Host, p: Program, level: int, reserved: int, passes: seq<Pass>, m: Method)
    requires R.PlainProgram(p, R.Anything) && R.Emits(m.code, R.Anything) && Proper(m)
    ensures CopiesRight(h, p, level, reserved, passes, m.code)
  {
    forall q: Program | level >= 3 && Around(p, q) && Reached(h, p, level, reserved, passes, q) ensures CopiesSafe(h, q, level, m.code) {
      PlainAround(p, q, R.Anything);
      R.PlainReady(h, q, level, m.code);
    }
  }

  lemma PlainWithoutFunctions(code: seq<Instr>)
    requires R.AllPlain(code, R.Anything)
    ensures N.NoLocalFunctions(code)
  {
    forall i | i in code ensures !IsFunctionVariable(i) { assert R.Plain(i, R.Anything); }
  }

  lemma EmittedPlain(p: Program, methods: map<MethodId, Option<Routine>>, ids: seq<MethodId>, scaling: R.Scaling)
    requires EmittedProgram(p, methods, ids)
    requires forall id :: id in methods && methods[id].Some? ==> R.StmtsScale(methods[id].value.body, scaling)
    ensures R.PlainProgram(p, scaling)
  {
    hide EmittedBlocks, Lists, OneMemory, EmittedHere, R.AllPlain;
    EmptyPlain(scaling);
    forall id | id in p ensures R.AllPlain(p[id].code, scaling) {
      if methods[id].Some? {
        var i, n := PlaceOf(p, methods, ids, id);
        RoutineHere(p[id], methods[id].value, n, scaling);
      }
    }
  }

  lemma RoutineHere(m: Method, r: Routine, n: Labels, scaling: R.Scaling)
    requires EmittedHere(m, r, n) && R.StmtsScale(r.body, scaling)
    ensures R.Emits(m.code, scaling)
  {
    var base: nat :| GoodRoutine(r, base);
    R.RoutinePlain(r, n, base, scaling);
  }

  lemma EmptyPlain(scaling: R.Scaling)
    ensures R.AllPlain([], scaling)
  {
  }

  lemma EmptyWrites()
    ensures WritesBeforeReads([])
  {
    assert WrittenFirst([], map[], Some({}));
  }

  lemma EmittedProgramProper(h: Host, p: Program, methods: map<MethodId, Option<Routine>>, ids: seq<MethodId>, level: int,
                             reserved: int, passes: seq<Pass>)
    requires EmittedProgram(p, methods, ids) && Assigning(p, methods, level) && QuotientsRight(h, p, level, reserved, passes)
    ensures ProperProgram(p, level) && RightInTurn(h, p, level, reserved, passes)
  {
    hide EmittedProgram, EmittedBlocks, Proper, Taken, Mixed, ShiftsRight, CopiesRight, LabelsOf, WritesBeforeReads, SureRoutine,
      R.PlainProgram, R.AllPlain, R.Emits, N.NoLocalFunctions;
    EmittedPlain(p, methods, ids, R.Anything);
    forall id | id in p
      ensures p[id].virtual ==> p[id].code == []
      ensures p[id].code != [] ==> Proper(p[id]) && CopiesRight(h, p, level, reserved, passes, p[id].code)
      ensures Taken(p, level, id) ==> WritesBeforeReads(p[id].code)
      ensures N.NoLocalFunctions(p[id].code)
    {
      EachProper(p, methods, ids, level, id);
      PlainAt(p, id, R.Anything);
      if p[id].code != [] { PlainCopiesRight(h, p, level, reserved, passes, p[id]); }
      PlainWithoutFunctions(p[id].code);
    }
    forall b, c | b in p && c in p && b != c ensures LabelsOf(p[b].code) !! LabelsOf(p[c].code) {
      EmittedApart(p, methods, ids, b, c);
    }
    SharedMemory(p, methods, ids);
  }

  lemma PlainAt(p: Program, id: MethodId, scaling: R.Scaling)
    requires R.PlainProgram(p, scaling) && id in p
    ensures R.AllPlain(p[id].code, scaling)
  {
  }

  lemma SharedMemory(p: Program, methods: map<MethodId, Option<Routine>>, ids: seq<MethodId>)
    requires EmittedProgram(p, methods, ids)
    ensures OneMemory(p)
  {
  }

  lemma EachProper(p: Program, methods: map<MethodId, Option<Routine>>, ids: seq<MethodId>, level: int, id: MethodId)
    requires EmittedProgram(p, methods, ids) && Assigning(p, methods, level) && id in p
    ensures p[id].virtual ==> p[id].code == []
    ensures p[id].code != [] ==> Proper(p[id]) && R.Emits(p[id].code, R.Anything)
    ensures Taken(p, level, id) ==> WritesBeforeReads(p[id].code)
  {
    EmptyWrites();
    assert methods[id].None? ==> p[id].code == [];
    hide EmittedBlocks, Lists, OneMemory, Proper, Taken, WritesBeforeReads, SureRoutine;
    if methods[id].Some? {
      var i, n := PlaceOf(p, methods, ids, id);
      EmittedProper(p[id], methods[id].value, n);
    }
  }

  // ----- The schedule -----

  /** Every method of the program is in one class, once. */
  predicate ListedOnce(classes: seq<seq<MethodId>>) {
    && (forall c, j, k :: 0 <= c < |classes| && 0 <= j < k < |classes[c]| ==> classes[c][j] != classes[c][k])
    && (forall b, c, j, k :: 0 <= b < c < |classes| && 0 <= j < |classes[b]| && 0 <= k < |classes[c]| ==>
          classes[b][j] != classes[c][k])
  }

  function Listed(classes: seq<seq<MethodId>>): set<MethodId> {
    set c, k | 0 <= c < |classes| && 0 <= k < |classes[c]| :: classes[c][k]
  }

  lemma {:induction false} EachPass(ids: seq<MethodId>)
    ensures |OptimizeEach(ids)| == |ids| == |InlineEach(ids)|
    ensures forall k :: 0 <= k < |ids| ==> OptimizeEach(ids)[k] == Pass.Optimize(ids[k]) && InlineEach(ids)[k] == Pass.Inline(ids[k])
  {
    if ids != [] { EachPass(ids[1..]); }
  }

  /** No method comes twice, but first to be optimized and then to be inlined into. */
  predicate Ordered2(passes: seq<Pass>) {
    forall j, k :: 0 <= j < k < |passes| && passes[j].id == passes[k].id ==> passes[j].Optimize? && passes[k].Inline?
  }

  /** The schedule optimizes each listed method once and no other, and inlines into it afterwards. */
  lemma {:induction false} ScheduledOnce(classes: seq<seq<MethodId>>)
    requires ListedOnce(classes)
    ensures Ordered2(Schedule(classes)) && forall pass <- Schedule(classes) :: pass.id in Listed(classes)
    decreases |classes|
  {
    if classes != [] {
      var x, y, z := OptimizeEach(classes[0]), InlineEach(classes[0]), Schedule(classes[1..]);
      EachPass(classes[0]);
      RestListed(classes);
      ScheduledOnce(classes[1..]);
      hide Listed, ListedOnce;
      forall pass: Pass | pass in x + (y + z) ensures pass.id in Listed(classes) {
        if pass in x || pass in y { assert pass.id in classes[0]; }
      }
      JoinedOnce(classes[0], x, y, z);
    }
  }

  lemma RestListed(classes: seq<seq<MethodId>>)
    requires classes != [] && ListedOnce(classes)
    ensures ListedOnce(classes[1..]) && Listed(classes[1..]) <= Listed(classes)
    ensures forall id <- classes[0] :: id in Listed(classes) && id !in Listed(classes[1..])
    ensures forall j, k :: 0 <= j < k < |classes[0]| ==> classes[0][j] != classes[0][k]
  {
    var rest := classes[1..];
    forall id | id in Listed(rest) ensures id in Listed(classes) {
      var c, k :| 0 <= c < |rest| && 0 <= k < |rest[c]| && rest[c][k] == id;
      assert classes[c + 1][k] == id;
    }
    forall id | id in classes[0] ensures id in Listed(classes) && id !in Listed(rest) {
      var j :| 0 <= j < |classes[0]| && classes[0][j] == id;
      forall c, k | 0 <= c < |rest| && 0 <= k < |rest[c]| ensures rest[c][k] != id {
        assert classes[c + 1][k] == rest[c][k];
      }
    }
  }

  lemma JoinedOnce(ids: seq<MethodId>, x: seq<Pass>, y: seq<Pass>, z: seq<Pass>)
    requires |x| == |y| == |ids| && forall j, k :: 0 <= j < k < |ids| ==> ids[j] != ids[k]
    requires forall k :: 0 <= k < |ids| ==> x[k] == Pass.Optimize(ids[k]) && y[k] == Pass.Inline(ids[k])
    requires Ordered2(z) && forall b <- z :: b.id !in ids
    ensures Ordered2(x + (y + z))
  {
    var s, n := x + (y + z), |ids|;
    assert forall i :: 0 <= i < |s| ==> s[i] == if i < n then x[i] else if i < 2 * n then y[i - n] else z[i - 2 * n];
    assert forall i :: 0 <= i < 2 * n ==> s[i].id in ids;
    assert forall i :: 2 * n <= i < |s| ==> s[i] in z && s[i].id !in ids;
  }

  lemma ScheduleRuns(p: Program, classes: seq<seq<MethodId>>)
    requires ListedOnce(classes) && Listed(classes) <= p.Keys
    ensures Scheduled(p, Schedule(classes))
  {
    ScheduledOnce(classes);
    hide ListedOnce, Schedule, Listed;
  }

  // ----- The theorems -----

  /** A freshly emitted program, optimized and inlined class by class at any level, reaches the outcomes it reached
      before, if on the way no method with a label can come to another one twice. */
  lemma CompiledProgramCoTerminates(h: Host, p: Program, methods: map<MethodId, Option<Routine>>, ids: seq<MethodId>, level: int,
                                    reserved: int, classes: seq<seq<MethodId>>)
    requires EmittedProgram(p, methods, ids) && Assigning(p, methods, level)
    requires QuotientsRight(h, p, level, reserved, Schedule(classes))
    requires ListedOnce(classes) && Listed(classes) <= p.Keys
    requires level > 2 ==> NoLabelTwice(p, [], Inlines(Schedule(classes)))
    requires RunPasses(h, p, level, reserved, Schedule(classes)).Some?
    ensures CoTerminate(h, p, RunPasses(h, p, level, reserved, Schedule(classes)).value)
  {
    hide *;
    EmittedProgramProper(h, p, methods, ids, level, reserved, Schedule(classes));
    ScheduleRuns(p, classes);
    ProperCoTerminates(h, p, level, reserved, Schedule(classes));
  }

  lemma EmittedImplements(p: Program, methods: map<MethodId, Option<Routine>>, ids: seq<MethodId>)
    requires EmittedProgram(p, methods, ids)
    ensures Implements(p, methods)
  {
    forall id | id in p
      ensures (p[id].virtual <==> methods[id].None?) && (methods[id].Some? ==> EmittedOf(p[id].code, methods[id].value))
    {
      if methods[id].Some? {
        var i, n := PlaceOf(p, methods, ids, id);
        var base: nat :| GoodRoutine(methods[id].value, base);
        assert EmittedFrom(p[id].code, methods[id].value, n, base);
      }
    }
  }

  /** What a call comes to, told by the source method: the values it returns on top of rest, and the memory it leaves. */
  ghost predicate Answers(r: Result, o: Outcome, m: Machine, rest: seq<int>) {
    match r
    case Returned(values, env, f) => o == Done(m.(stack := values + rest, heap := env.heap, ext := env.ext), f)
    case Crash => o.Fault?
    case Out => o.Timeout?
    case _ => false
  }

  /** A machine about to call a method on this instance with these arguments. */
  predicate Calling(m: Machine, inst: int, args: seq<int>, rest: seq<int>) {
    m.stack == [inst] + (E.Reversed(args) + rest)
  }

  /** The source method on these arguments, in a fresh frame and with the memory the callee starts with. */
  function Sourced(h: Host, methods: map<MethodId, Option<Routine>>, id: MethodId, inst: int, args: seq<int>, m: Machine, fuel: nat,
                   depth: nat): Result
    requires id in methods && methods[id].Some? && Takes(methods[id].value, args)
  {
    Invoke(World(h, methods, depth), methods[id].value, args, Env(NewFrame(h, m.ext), inst, m.heap, m.ext), fuel)
  }

  /** Before optimization, at every depth of nesting: the call answers as the source method does. */
  lemma CallAnswers(h: Host, p: Program, methods: map<MethodId, Option<Routine>>, sigs: Signatures, id: MethodId, inst: int,
                    args: seq<int>, rest: seq<int>, m: Machine, fuel: nat, depth: nat)
    requires OneWord(h) && Implements(p, methods) && Checked(h, methods, sigs)
    requires id in p && methods[id].Some? && Takes(methods[id].value, args) && Calling(m, inst, args, rest)
    ensures Answers(Sourced(h, methods, id, inst, args, m, fuel, depth), Simulation.Call(h, p, id, m, fuel, depth), m, rest)
  {
    var e, w := Enter(h, p[id], m), World(h, methods, depth);
    var env := Env(NewFrame(h, m.ext), inst, m.heap, m.ext);
    assert e.stack == E.Reversed(args) + rest && e.inst == inst;
    assert Env(e.locals, e.inst, e.heap, e.ext) == env;
    assert CheckedRoutine(sigs, methods[id].value);
    hide Run, Invoke, Checked, CheckedRoutine;
    ProgramRuns(h, p, w, id, args, rest, e, fuel);
    InvokeAnswers(w, sigs, methods[id].value, args, env, fuel);
  }

  /** Whatever the source method comes to, a call in q comes to, and the other way round; only how deep calls nest may differ. */
  ghost predicate Faithful(h: Host, q: Program, methods: map<MethodId, Option<Routine>>, id: MethodId, inst: int, args: seq<int>,
                           rest: seq<int>, m: Machine, fuel: nat)
    requires id in methods && methods[id].Some? && Takes(methods[id].value, args)
  {
    && (forall depth: nat :: !Sourced(h, methods, id, inst, args, m, fuel, depth).Out? ==>
          exists d: nat :: Answers(Sourced(h, methods, id, inst, args, m, fuel, depth), Simulation.Call(h, q, id, m, fuel, d), m, rest))
    && (forall d: nat :: !Simulation.Call(h, q, id, m, fuel, d).Timeout? ==>
          exists depth: nat :: Answers(Sourced(h, methods, id, inst, args, m, fuel, depth), Simulation.Call(h, q, id, m, fuel, d), m, rest))
  }

  lemma CoTerminatingFaithful(h: Host, p: Program, q: Program, methods: map<MethodId, Option<Routine>>, sigs: Signatures, id: MethodId,
                              inst: int, args: seq<int>, rest: seq<int>, m: Machine, fuel: nat)
    requires OneWord(h) && Implements(p, methods) && Checked(h, methods, sigs) && CoTerminate(h, p, q)
    requires id in p && id in methods && methods[id].Some? && Takes(methods[id].value, args) && Calling(m, inst, args, rest)
    ensures Faithful(h, q, methods, id, inst, args, rest, m, fuel)
  {
    hide Simulation.Call, Sourced, Implements, OneWord, Checked, Takes, Calling;
    forall depth: nat | !Sourced(h, methods, id, inst, args, m, fuel, depth).Out?
      ensures exists d: nat :: Answers(Sourced(h, methods, id, inst, args, m, fuel, depth), Simulation.Call(h, q, id, m, fuel, d), m, rest)
    {
      CallAnswers(h, p, methods, sigs, id, inst, args, rest, m, fuel, depth);
      var o := Simulation.Call(h, p, id, m, fuel, depth);
      assert Reaches(h, p, id, m, fuel, o);
      assert Reaches(h, q, id, m, fuel, o);
      var d: nat :| Simulation.Call(h, q, id, m, fuel, d) == o;
    }
    forall d: nat | !Simulation.Call(h, q, id, m, fuel, d).Timeout?
      ensures exists depth: nat :: Answers(Sourced(h, methods, id, inst, args, m, fuel, depth), Simulation.Call(h, q, id, m, fuel, d), m, rest)
    {
      var o := Simulation.Call(h, q, id, m, fuel, d);
      assert Reaches(h, q, id, m, fuel, o);
      assert Reaches(h, p, id, m, fuel, o);
      var depth: nat :| Simulation.Call(h, p, id, m, fuel, depth) == o;
      CallAnswers(h, p, methods, sigs, id, inst, args, rest, m, fuel, depth);
    }
  }

  /** From the source to the optimized program: in a program the analyzer accepts, every call of what the optimizer made of a
      method comes to what the source method comes to, whatever the arguments, the memory and the number of loop rounds. */
  lemma OptimizedProgramAnswers(h: Host, p: Program, methods: map<MethodId, Option<Routine>>, sigs: Signatures, ids: seq<MethodId>,
                                level: int, reserved: int, classes: seq<seq<MethodId>>, id: MethodId, inst: int, args: seq<int>,
                                rest: seq<int>, m: Machine, fuel: nat)
    requires OneWord(h) && EmittedProgram(p, methods, ids) && Checked(h, methods, sigs)
    requires Assigning(p, methods, level) && QuotientsRight(h, p, level, reserved, Schedule(classes))
    requires ListedOnce(classes) && Listed(classes) <= p.Keys
    requires level > 2 ==> NoLabelTwice(p, [], Inlines(Schedule(classes)))
    requires RunPasses(h, p, level, reserved, Schedule(classes)).Some?
    requires id in methods && methods[id].Some? && Takes(methods[id].value, args) && Calling(m, inst, args, rest)
    ensures Faithful(h, RunPasses(h, p, level, reserved, Schedule(classes)).value, methods, id, inst, args, rest, m, fuel)
  {
    assert id in p;
    hide *;
    CompiledProgramCoTerminates(h, p, methods, ids, level, reserved, classes);
    EmittedImplements(p, methods, ids);
    CoTerminatingFaithful(h, p, RunPasses(h, p, level, reserved, Schedule(classes)).value, methods, sigs, id, inst, args, rest, m, fuel);
  }
}
