// A program with a call and an accessor that meets everything the theorem from source to optimized program asks for.

module SampleProgram {
  import opened Wrappers
  import opened Words
  import opened Bytecode
  import opened Simulation
  import opened Inlining
  import opened InlineMethod
  import opened Pipeline
  import opened Source
  import opened Emission
  import opened Discipline
  import opened Assigned
  import opened Stages
  import opened WellCalled
  import opened CompiledProgram
  import R = Ready
  import S = Faultless

  const GETTER: MethodId := (0, 0)
  const CALLER: MethodId := (0, 1)

  /** Returns variable 3 of its instance. */
  const GET := Routine([], Cons(Stmt.Return(Some(Field(3))), Nil), false, true)

  /** Asks for it, keeps it in a local and returns that. */
  const USE := Routine([], Cons(Stmt.Call(GETTER, [], Into(1)), Cons(Stmt.Return(Some(Variable(1))), Nil)), false, true)

  const GET_CODE := [LOAD_INST_MEM, LOAD_INT_VAR(3, INST), RTRN]
  const USE_CODE := [LOAD_INST_MEM, MTHD_CALL(GETTER), STOR_INT_VAR(1, LOCL), LOAD_INT_VAR(1, LOCL), RTRN]

  function Methods(): map<MethodId, Option<Routine>> {
    map[GETTER := Some(GET), CALLER := Some(USE)]
  }

  function Signs(): Signatures {
    map[GETTER := Signature(0, true), CALLER := Signature(0, true)]
  }

  function Sample(): Program {
    map[GETTER := Method(0, 0, "C", "C:Get:", false, 0, 8, GET_CODE), CALLER := Method(0, 0, "C", "C:Use:", false, 0, 8, USE_CODE)]
  }

  const IDS := [GETTER, CALLER]

  lemma UseCode(n: Labels)
    ensures RoutineCode(USE, n) == USE_CODE
  {
    var s, t := USE.body.head, USE.body.tail.head;
    var k: seq<Instr> := [];
    assert Epilogue(USE) == [];
    assert StmtsCode(Nil, AfterStmt(t, AfterStmt(s, n)), 0, k) == k;
    assert ExprCode(Variable(1), AfterStmt(s, n), [RTRN] + k) == [LOAD_INT_VAR(1, LOCL)] + ([RTRN] + k);
    assert StmtCode(t, AfterStmt(s, n), 0, k) == [LOAD_INT_VAR(1, LOCL), RTRN];
    assert StmtsCode(USE.body.tail, AfterStmt(s, n), 0, k) == [LOAD_INT_VAR(1, LOCL), RTRN];
    assert StmtCode(s, n, 0, [LOAD_INT_VAR(1, LOCL), RTRN]) == USE_CODE;
    assert StmtsCode(USE.body, n, 0, k) == USE_CODE;
    assert Prologue([], USE_CODE) == USE_CODE;
  }

  lemma Goods()
    ensures GoodRoutine(GET, 0) && GoodRoutine(USE, 0)
  {
    assert GoodStmts(USE.body.tail, 0, false);
  }

  lemma NoNewLabels(n: Labels)
    ensures AfterStmts(GET.body, n) == n && AfterStmts(USE.body, n) == n
  {
    assert AfterStmts(USE.body.tail, n) == n;
  }

  lemma SampleEmitted()
    ensures EmittedProgram(Sample(), Methods(), IDS)
  {
    var routines := RoutinesOf(Methods(), IDS);
    NoNewLabels(START);
    assert LabelsAt(routines, START, 0) == LabelsAt(routines, START, 1) == LabelsAt(routines, START, 2) == START;
    HereBoth();
    hide LabelsAt, EmittedHere;
  }

  lemma HereBoth()
    ensures EmittedHere(Sample()[GETTER], GET, START) && EmittedHere(Sample()[CALLER], USE, START)
  {
    hide RoutineCode, GoodRoutine, SpaceCovers;
    GetterCode(3, START);
    UseCode(START);
    Goods();
    Spaces();
  }

  lemma Spaces()
    ensures SpaceCovers(Sample()[GETTER]) && SpaceCovers(Sample()[CALLER])
  {
  }

  lemma SampleChecked(h: Host)
    ensures WellCalled.Checked(h, Methods(), Signs())
  {
    Goods();
    hide GoodRoutine;
    assert CheckedRoutine(Signs(), GET);
    assert CheckedStmts(Signs(), Some(true), USE.body.tail);
    assert CheckedRoutine(Signs(), USE);
  }

  lemma SampleAssigns(level: int)
    ensures Assigning(Sample(), Methods(), level)
  {
    hide Taken;
    SureBoth();
    hide SureRoutine;
  }

  lemma SureBoth()
    ensures SureRoutine(GET) && SureRoutine(USE)
  {
    assert (set x | x in GET.params) == {} && (set x | x in USE.params) == {};
    var known := Known(USE.body.head, {});
    assert 1 in known && SureAll(Nil, Known(USE.body.tail.head, known));
    assert SureAll(USE.body.tail, known) && SureAll(GET.body, {});
  }

  lemma SampleListed()
    ensures ListedOnce([IDS]) && Listed([IDS]) <= Sample().Keys
  {
  }

  lemma NoLabels()
    ensures forall id :: id in Sample() ==> LabelsOf(Sample()[id].code) == {}
  {
    forall id, l | id in Sample() ensures l !in LabelsOf(Sample()[id].code) {
      LabelIn(Sample()[id].code, l);
      assert forall i <- Sample()[id].code :: Inlining.LabelOf(i).None?;
    }
  }

  lemma SampleLabels()
    ensures NoLabelTwice(Sample(), [], Inlines(Schedule([IDS])))
  {
    NoLabels();
    InlinesBoth();
    hide Schedule, Inlines, Held, Callees, LabelsOf;
    assert NoneTwice(Sample(), [], GETTER) && NoneTwice(Sample(), [] + [GETTER], CALLER);
    assert [GETTER, CALLER][1..] == [CALLER] && [CALLER][1..] == [];
    assert NoLabelTwice(Sample(), [] + [GETTER], [CALLER]);
  }

  lemma InlinesBoth()
    ensures Inlines(Schedule([IDS])) == IDS
  {
    var a, b := Pass.Optimize(GETTER), Pass.Optimize(CALLER);
    var c, d := Pass.Inline(GETTER), Pass.Inline(CALLER);
    assert IDS[1..] == [CALLER] && [CALLER][1..] == [];
    assert OptimizeEach([CALLER]) == [b] + OptimizeEach([]) && InlineEach([CALLER]) == [d] + InlineEach([]);
    assert OptimizeEach(IDS) == [a] + OptimizeEach([CALLER]) && InlineEach(IDS) == [c] + InlineEach([CALLER]);
    assert [IDS][1..] == [] && Schedule([]) == [];
    assert Schedule([IDS]) == [a, b, c, d];
    assert [a, b, c, d][1..] == [b, c, d] && [b, c, d][1..] == [c, d] && [c, d][1..] == [d] && [d][1..] == [];
    assert Inlines([d]) == [CALLER] && Inlines([c, d]) == [GETTER, CALLER];
    assert Inlines([b, c, d]) == [GETTER, CALLER];
  }

  lemma SampleRuns(h: Host, level: int, reserved: int)
    ensures RunPasses(h, Sample(), level, reserved, Schedule([IDS])).Some?
  {
    SampleListed();
    ScheduleRuns(Sample(), [IDS]);
    assert S.SafeProgram(Sample());
    hide Schedule, RunPasses, ListedOnce, Listed;
    S.NeverFaults(h, Sample(), level, reserved, Schedule([IDS]));
  }

  lemma SampleQuotients(h: Host, level: int, reserved: int)
    ensures QuotientsRight(h, Sample(), level, reserved, Schedule([IDS]))
  {
    hide *;
    SampleEmitted();
    ScaleBoth();
    UndividedRight(h, Sample(), Methods(), IDS, level, reserved, Schedule([IDS]), R.Neither);
  }

  lemma ScaleBoth()
    ensures forall id :: id in Methods() && Methods()[id].Some? ==> R.StmtsScale(Methods()[id].value.body, R.Neither)
  {
    assert R.StmtsScale(USE.body.tail, R.Neither);
  }

  /** Both methods, however often and on whatever memory they are called, at every level. */
  lemma SampleAnswers(h: Host, level: int, reserved: int, id: MethodId, inst: int, rest: seq<int>, m: Machine, fuel: nat)
    requires OneWord(h) && id in Methods() && Calling(m, inst, [], rest)
    ensures Takes(Methods()[id].value, []) && RunPasses(h, Sample(), level, reserved, Schedule([IDS])).Some?
    ensures Faithful(h, RunPasses(h, Sample(), level, reserved, Schedule([IDS])).value, Methods(), id, inst, [], rest, m, fuel)
  {
    assert Methods()[id].Some? && Takes(Methods()[id].value, []);
    hide *;
    SampleEmitted();
    SampleChecked(h);
    SampleAssigns(level);
    SampleQuotients(h, level, reserved);
    SampleListed();
    SampleLabels();
    SampleRuns(h, level, reserved);
    OptimizedProgramAnswers(h, Sample(), Methods(), Signs(), IDS, level, reserved, [IDS], id, inst, [], rest, m, fuel);
  }
}
