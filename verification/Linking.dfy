// Linking against libraries: which library classes a program needs, and the ids their
// instructions carry once symbolic references are rewritten.

module Linking {
  import opened Wrappers
  import F = FileFormat

  type Name = F.WString

  datatype LibInstr =
    | LIB_NEW_OBJ_INST(cls: Name)
    | LIB_OBJ_INST_CAST(cls: Name)
    | LIB_MTHD_CALL(cls: Name, mthd: Name, native: int)
    | LIB_FUNC_DEF(cls: Name, mthd: Name)
    | NEW_OBJ_INST(clsId: int)
    | OBJ_INST_CAST(clsId: int)
    | MTHD_CALL(clsId: int, mthdId: int, native: int)
    | LOAD_INT_LIT(value: int)
    | PLAIN(number: int)

  datatype LibMethod = LibMethod(name: Name, id: int, instrs: seq<LibInstr>)

  datatype LibClass = LibClass(name: Name, methods: seq<LibMethod>, called: bool, id: int)

  /** The first class of that name; several libraries may have one. */
  function Find(classes: seq<LibClass>, name: Name): (r: Option<nat>)
    ensures r.Some? ==> r.value < |classes| && classes[r.value].name == name
    ensures r.Some? ==> forall i :: 0 <= i < r.value ==> classes[i].name != name
    ensures r.None? ==> forall c <- classes :: c.name != name
  {
    if classes == [] then None
    else if classes[0].name == name then Some(0)
    else
      var r := Find(classes[1..], name);
      if r.None? then None else Some(r.value + 1)
  }

  /** The instructions the closure follows. */
  predicate Follows(i: LibInstr) {
    i.LIB_NEW_OBJ_INST? || i.LIB_OBJ_INST_CAST? || i.LIB_MTHD_CALL?
  }

  predicate MethodRefers(m: LibMethod, name: Name) {
    exists j :: 0 <= j < |m.instrs| && Follows(m.instrs[j]) && m.instrs[j].cls == name
  }

  predicate Refers(c: LibClass, name: Name) {
    exists k :: 0 <= k < |c.methods| && MethodRefers(c.methods[k], name)
  }

  /** Only the marks differ. */
  predicate SameButMarks(cs: seq<LibClass>, ds: seq<LibClass>) {
    |cs| == |ds| && forall i :: 0 <= i < |cs| ==> ds[i] == cs[i].(called := ds[i].called)
  }

  function Called(classes: seq<LibClass>): set<nat> {
    set i: nat | i < |classes| && classes[i].called
  }

  predicate LinkedTo(classes: seq<LibClass>, name: Name, s: set<nat>) {
    var r := Find(classes, name);
    r.Some? && r.value in s
  }

  /** Every class that class i refers to is in s. */
  ghost predicate Leads(classes: seq<LibClass>, i: nat, s: set<nat>)
    requires i < |classes|
  {
    forall name: Name :: Refers(classes[i], name) ==> LinkedTo(classes, name, s)
  }

  ghost predicate ClosedUnder(classes: seq<LibClass>, s: set<nat>) {
    forall i <- s :: i < |classes| && Leads(classes, i, s)
  }

  /** s holds every marked class, unless some closed set that starts from what was marked lacks one. */
  ghost predicate Least(classes: seq<LibClass>, start: set<nat>, marked: set<nat>) {
    forall s: set<nat> :: start <= s && ClosedUnder(classes, s) ==> marked <= s
  }

  lemma {:induction false} FindSame(cs: seq<LibClass>, ds: seq<LibClass>, name: Name)
    requires SameButMarks(cs, ds)
    ensures Find(cs, name) == Find(ds, name)
  {
    if cs != [] { FindSame(cs[1..], ds[1..], name); }
  }

  lemma RefersSame(cs: seq<LibClass>, ds: seq<LibClass>, i: nat, name: Name)
    requires SameButMarks(cs, ds) && i < |cs|
    ensures Refers(cs[i], name) == Refers(ds[i], name)
  {
  }

  lemma LeadsSame(cs: seq<LibClass>, ds: seq<LibClass>, i: nat, s: set<nat>, t: set<nat>)
    requires SameButMarks(cs, ds) && i < |cs| && Leads(cs, i, s) && s <= t
    ensures Leads(ds, i, t)
  {
    forall name: Name | Refers(ds[i], name) ensures LinkedTo(ds, name, t) {
      FindSame(cs, ds, name);
      RefersSame(cs, ds, i, name);
      assert LinkedTo(cs, name, s);
    }
  }

  lemma ClosedSame(cs: seq<LibClass>, ds: seq<LibClass>, s: set<nat>)
    requires SameButMarks(cs, ds) && ClosedUnder(cs, s)
    ensures ClosedUnder(ds, s)
  {
    forall i | i in s ensures i < |ds| && Leads(ds, i, s) { LeadsSame(cs, ds, i, s, s); }
  }

  /** What following the references of class i has done: everything newly marked leads to marked
      classes only, and nothing is marked without need. */
  ghost predicate Marked(was: seq<LibClass>, now: seq<LibClass>, i: nat) {
    && SameButMarks(was, now) && Called(was) <= Called(now)
    && (forall c <- Called(now) - Called(was) :: Leads(now, c, Called(now)))
    && Least(was, Called(was) + {i}, Called(now))
  }

  function Mark(classes: seq<LibClass>, t: nat): (r: seq<LibClass>)
    requires t < |classes|
    ensures SameButMarks(classes, r) && Called(r) == Called(classes) + {t}
  {
    classes[t := classes[t].(called := true)]
  }

  /** Marking one more class that i refers to, and all it leads to. */
  lemma MarkStep(was: seq<LibClass>, mid: seq<LibClass>, now: seq<LibClass>, i: nat, t: nat, name: Name)
    requires Marked(was, mid, i) && i < |was| && Refers(was[i], name) && Find(was, name) == Some(t)
    requires t < |mid| && Marked(Mark(mid, t), now, t) && Leads(now, t, Called(now))
    ensures Marked(was, now, i) && t in Called(now)
  {
    var marks := Mark(mid, t);
    forall c | c in Called(now) - Called(was) ensures Leads(now, c, Called(now)) {
      if c in Called(mid) { LeadsSame(mid, now, c, Called(mid), Called(now)); }
    }
    forall s: set<nat> | Called(was) + {i} <= s && ClosedUnder(was, s) ensures Called(now) <= s {
      assert Called(mid) <= s;
      assert Leads(was, i, s) && LinkedTo(was, name, s);
      ClosedSame(was, marks, s);
    }
  }

  /** References of i found so far lead to marked classes; more marks keep that. */
  lemma StillLinked(cs: seq<LibClass>, ds: seq<LibClass>, name: Name)
    requires SameButMarks(cs, ds) && Called(cs) <= Called(ds) && LinkedTo(cs, name, Called(cs))
    ensures LinkedTo(ds, name, Called(ds))
  {
    FindSame(cs, ds, name);
  }

  /** The first k methods lead to marked classes. */
  ghost predicate MethodsLead(classes: seq<LibClass>, methods: seq<LibMethod>, k: nat)
    requires k <= |methods|
  {
    forall n, name: Name :: 0 <= n < k && MethodRefers(methods[n], name) ==> LinkedTo(classes, name, Called(classes))
  }

  ghost predicate InstrsLead(classes: seq<LibClass>, instrs: seq<LibInstr>, j: nat)
    requires j <= |instrs|
  {
    forall n :: 0 <= n < j && Follows(instrs[n]) ==> LinkedTo(classes, instrs[n].cls, Called(classes))
  }

  lemma AllStillLead(cs: seq<LibClass>, ds: seq<LibClass>, methods: seq<LibMethod>, k: nat, j: nat)
    requires SameButMarks(cs, ds) && Called(cs) <= Called(ds)
    requires k < |methods| && j <= |methods[k].instrs| && MethodsLead(cs, methods, k) && InstrsLead(cs, methods[k].instrs, j)
    ensures MethodsLead(ds, methods, k) && InstrsLead(ds, methods[k].instrs, j)
  {
    forall n, name: Name | 0 <= n < k && MethodRefers(methods[n], name) ensures LinkedTo(ds, name, Called(ds)) {
      StillLinked(cs, ds, name);
    }
    forall n | 0 <= n < j && Follows(methods[k].instrs[n]) ensures LinkedTo(ds, methods[k].instrs[n].cls, Called(ds)) {
      StillLinked(cs, ds, methods[k].instrs[n].cls);
    }
  }

  lemma NothingMarked(classes: seq<LibClass>, i: nat)
    ensures Marked(classes, classes, i)
  {
  }

  /** A reference to a class no library has: no closed set holds class i. */
  ghost predicate Unresolvable(classes: seq<LibClass>, start: set<nat>) {
    forall s: set<nat> :: start <= s ==> !ClosedUnder(classes, s)
  }

  // ----- Ids and rewriting -----

  /** Called classes among the first i. */
  function Rank(classes: seq<LibClass>, i: nat): (r: nat)
    requires i <= |classes|
    ensures r <= i
  {
    if i == 0 then 0 else Rank(classes, i - 1) + if classes[i - 1].called then 1 else 0
  }

  /** The library classes that become part of the program, in order. */
  function Emitted(classes: seq<LibClass>): seq<LibClass> {
    if classes == [] then []
    else Emitted(classes[..|classes| - 1]) + if classes[|classes| - 1].called then [classes[|classes| - 1]] else []
  }

  predicate IdsAssigned(classes: seq<LibClass>) {
    forall i :: 0 <= i < |classes| && classes[i].called ==> classes[i].id == Rank(classes, i)
  }

  predicate SameButIds(cs: seq<LibClass>, ds: seq<LibClass>) {
    |cs| == |ds| && forall i :: 0 <= i < |cs| ==> ds[i] == cs[i].(id := ds[i].id)
  }

  lemma {:induction false} RankSame(cs: seq<LibClass>, ds: seq<LibClass>, i: nat)
    requires i <= |cs| && i <= |ds| && forall j :: 0 <= j < i ==> ds[j].called == cs[j].called
    ensures Rank(cs, i) == Rank(ds, i)
  {
    if i > 0 { RankSame(cs, ds, i - 1); }
  }

  /** The id of a called class is its place among the emitted ones. */
  lemma {:induction false} EmittedAt(classes: seq<LibClass>, i: nat)
    requires i < |classes| && classes[i].called
    ensures |Emitted(classes)| == Rank(classes, |classes|)
    ensures Rank(classes, i) < |Emitted(classes)| && Emitted(classes)[Rank(classes, i)] == classes[i]
    decreases |classes|
  {
    var last := |classes| - 1;
    var front := classes[..last];
    EmittedLength(front);
    RankSame(classes, front, last);
    if i < last {
      EmittedAt(front, i);
      RankSame(classes, front, i);
      assert front[i] == classes[i];
    }
  }

  lemma {:induction false} EmittedLength(classes: seq<LibClass>)
    ensures |Emitted(classes)| == Rank(classes, |classes|)
    decreases |classes|
  {
    if classes != [] {
      EmittedLength(classes[..|classes| - 1]);
      RankSame(classes, classes[..|classes| - 1], |classes| - 1);
    }
  }

  function FindMethod(methods: seq<LibMethod>, name: Name): (r: Option<nat>)
    ensures r.Some? ==> r.value < |methods| && methods[r.value].name == name
    ensures r.None? ==> forall m <- methods :: m.name != name
  {
    if methods == [] then None
    else if methods[0].name == name then Some(0)
    else
      var r := FindMethod(methods[1..], name);
      if r.None? then None else Some(r.value + 1)
  }

  /** The loader leaves a placeholder behind every function reference. */
  predicate Placeheld(instrs: seq<LibInstr>) {
    forall j :: 0 <= j < |instrs| && instrs[j].LIB_FUNC_DEF? ==> j + 1 < |instrs| && instrs[j + 1].LOAD_INT_LIT?
  }

  function Then(head: seq<LibInstr>, tail: Option<seq<LibInstr>>): Option<seq<LibInstr>> {
    if tail.None? then None else Some(head + tail.value)
  }

  /** A symbolic instruction with the ids it names; None when nothing has that name. */
  function Relinked(classes: seq<LibClass>, i: LibInstr): Option<LibInstr>
    requires !i.LIB_FUNC_DEF?
  {
    if !Follows(i) then Some(i) else
    var c := Find(classes, i.cls);
    if c.None? then None else
    var id := classes[c.value].id;
    match i
    case LIB_NEW_OBJ_INST(_) => Some(NEW_OBJ_INST(id))
    case LIB_OBJ_INST_CAST(_) => Some(OBJ_INST_CAST(id))
    case LIB_MTHD_CALL(_, mthd, native) =>
      var m := FindMethod(classes[c.value].methods, mthd);
      if m.None? then None else Some(MTHD_CALL(id, classes[c.value].methods[m.value].id, native))
  }

  /** A function reference becomes its method id, and the placeholder its class id. */
  function FunctionIds(classes: seq<LibClass>, i: LibInstr): Option<(int, int)>
    requires i.LIB_FUNC_DEF?
  {
    var c := Find(classes, i.cls);
    if c.None? then None else
    var m := FindMethod(classes[c.value].methods, i.mthd);
    if m.None? then None else Some((classes[c.value].methods[m.value].id, classes[c.value].id))
  }

  function RelinkedAll(classes: seq<LibClass>, instrs: seq<LibInstr>): (r: Option<seq<LibInstr>>)
    requires Placeheld(instrs)
    ensures r.Some? ==> |r.value| == |instrs|
    decreases |instrs|
  {
    if instrs == [] then Some([])
    else if instrs[0].LIB_FUNC_DEF? then
      var ids := FunctionIds(classes, instrs[0]);
      if ids.None? then None
      else Then([LOAD_INT_LIT(ids.value.0), LOAD_INT_LIT(ids.value.1)], RelinkedAll(classes, instrs[2..]))
    else
      var i := Relinked(classes, instrs[0]);
      if i.None? then None else Then([i.value], RelinkedAll(classes, instrs[1..]))
  }

  /** A reference to a class, or to a method of a class, that no library has. */
  predicate Nameless(classes: seq<LibClass>, i: LibInstr) {
    (Follows(i) || i.LIB_FUNC_DEF?) &&
    var c := Find(classes, i.cls);
    c.None? || ((i.LIB_MTHD_CALL? || i.LIB_FUNC_DEF?) && forall m <- classes[c.value].methods :: m.name != i.mthd)
  }

  /** Rewriting stops exactly at such a reference. */
  lemma {:induction false} RelinkedExact(classes: seq<LibClass>, instrs: seq<LibInstr>)
    requires Placeheld(instrs)
    ensures RelinkedAll(classes, instrs).Some? <==> forall i <- instrs :: !Nameless(classes, i)
    decreases |instrs|
  {
    if instrs != [] {
      var i := instrs[0];
      var rest := if i.LIB_FUNC_DEF? then instrs[2..] else instrs[1..];
      RelinkedExact(classes, rest);
      RelinkedOne(classes, i);
      hide Relinked, FunctionIds, Nameless;
      if i.LIB_FUNC_DEF? {
        assert instrs == [i, instrs[1]] + rest;
        LiteralNamed(classes, instrs[1]);
      } else {
        assert instrs == [i] + rest;
      }
      assert i in instrs;
    }
  }

  lemma RelinkedOne(classes: seq<LibClass>, i: LibInstr)
    ensures !i.LIB_FUNC_DEF? ==> (Relinked(classes, i).None? <==> Nameless(classes, i))
    ensures i.LIB_FUNC_DEF? ==> (FunctionIds(classes, i).None? <==> Nameless(classes, i))
  {
    if i.LIB_MTHD_CALL? || i.LIB_FUNC_DEF? {
      var c := Find(classes, i.cls);
      if c.Some? {
        var m := FindMethod(classes[c.value].methods, i.mthd);
        if m.Some? { assert classes[c.value].methods[m.value] in classes[c.value].methods; }
      }
    }
  }

  lemma LiteralNamed(classes: seq<LibClass>, i: LibInstr)
    requires i.LOAD_INT_LIT?
    ensures !Nameless(classes, i)
  {
  }

  predicate AllNamed(classes: seq<LibClass>) {
    forall c <- classes, m <- c.methods, i <- m.instrs :: !Nameless(classes, i)
  }

  /** out is i with the id of the emitted class i names, and for a call the id of the method it names there. */
  predicate LinkedRight(emitted: seq<LibClass>, i: LibInstr, out: LibInstr)
    requires Follows(i)
  {
    && (i.LIB_NEW_OBJ_INST? ==> out.NEW_OBJ_INST?) && (i.LIB_OBJ_INST_CAST? ==> out.OBJ_INST_CAST?)
    && (i.LIB_MTHD_CALL? ==> out.MTHD_CALL? && out.native == i.native)
    && (out.NEW_OBJ_INST? || out.OBJ_INST_CAST? || out.MTHD_CALL?)
    && 0 <= out.clsId < |emitted| && emitted[out.clsId].name == i.cls
    && (out.MTHD_CALL? ==> exists m <- emitted[out.clsId].methods :: m.name == i.mthd && m.id == out.mthdId)
  }

  /** Every reference of an emitted class is rewritten to the id of an emitted class of that name, and
      a call also to the id of the method it names there. */
  lemma {:induction false} LinkedReferences(classes: seq<LibClass>, c: nat, k: nat, instrs: seq<LibInstr>, j: nat)
    requires ClosedUnder(classes, Called(classes)) && IdsAssigned(classes) && c in Called(classes)
    requires k < |classes[c].methods| && j < |instrs| && Follows(instrs[j]) && MethodRefers(classes[c].methods[k], instrs[j].cls)
    requires Placeheld(instrs) && RelinkedAll(classes, instrs).Some?
    ensures LinkedRight(Emitted(classes), instrs[j], RelinkedAll(classes, instrs).value[j])
    decreases |instrs|
  {
    hide Relinked, FunctionIds, ClosedUnder, IdsAssigned, MethodRefers, Emitted, LinkedRight;
    if instrs[0].LIB_FUNC_DEF? {
      assert j >= 2;
      LinkedReferences(classes, c, k, instrs[2..], j - 2);
    } else if j > 0 {
      LinkedReferences(classes, c, k, instrs[1..], j - 1);
    } else {
      LinkedReference(classes, c, k, instrs[0]);
    }
  }

  lemma LinkedReference(classes: seq<LibClass>, c: nat, k: nat, i: LibInstr)
    requires ClosedUnder(classes, Called(classes)) && IdsAssigned(classes) && c in Called(classes)
    requires k < |classes[c].methods| && Follows(i) && MethodRefers(classes[c].methods[k], i.cls) && Relinked(classes, i).Some?
    ensures LinkedRight(Emitted(classes), i, Relinked(classes, i).value)
  {
    assert Leads(classes, c, Called(classes)) && Refers(classes[c], i.cls) && LinkedTo(classes, i.cls, Called(classes));
    var t := Find(classes, i.cls).value;
    EmittedAt(classes, t);
    if i.LIB_MTHD_CALL? {
      var m := FindMethod(classes[t].methods, i.mthd).value;
      assert classes[t].methods[m] in classes[t].methods;
    }
  }

  /** A function reference becomes the ids of the method and class it names, in this order. */
  lemma {:induction false} LinkedFunction(classes: seq<LibClass>, instrs: seq<LibInstr>, j: nat)
    requires j + 1 < |instrs| && instrs[j].LIB_FUNC_DEF? && Placeheld(instrs) && RelinkedAll(classes, instrs).Some?
    ensures var i, out, c := instrs[j], RelinkedAll(classes, instrs).value, Find(classes, instrs[j].cls);
      && c.Some? && out[j + 1] == LOAD_INT_LIT(classes[c.value].id)
      && exists m <- classes[c.value].methods :: m.name == i.mthd && out[j] == LOAD_INT_LIT(m.id)
    decreases |instrs|
  {
    hide Relinked;
    if j == 0 {
      var c := Find(classes, instrs[0].cls).value;
      var m := FindMethod(classes[c].methods, instrs[0].mthd).value;
      assert classes[c].methods[m] in classes[c].methods;
    } else if instrs[0].LIB_FUNC_DEF? {
      assert j >= 2;
      LinkedFunction(classes, instrs[2..], j - 2);
    } else {
      LinkedFunction(classes, instrs[1..], j - 1);
    }
  }

  /** Linking changes symbolic instructions and the placeholders behind function references, nothing else. */
  lemma {:induction false} OthersKept(classes: seq<LibClass>, instrs: seq<LibInstr>, j: nat)
    requires j < |instrs| && Placeheld(instrs) && RelinkedAll(classes, instrs).Some?
    requires !Follows(instrs[j]) && !instrs[j].LIB_FUNC_DEF? && (j > 0 ==> !instrs[j - 1].LIB_FUNC_DEF?)
    ensures RelinkedAll(classes, instrs).value[j] == instrs[j]
    decreases |instrs|
  {
    if j > 0 {
      hide Relinked;
      if instrs[0].LIB_FUNC_DEF? {
        assert j >= 2;
        OthersKept(classes, instrs[2..], j - 2);
      } else {
        OthersKept(classes, instrs[1..], j - 1);
      }
    }
  }

  /** Function references are not followed: the class one names may be left out of the program, and
      then its id was never assigned. Its method reference is good exactly when something else calls
      the class. */
  lemma FunctionClassEmitted(classes: seq<LibClass>, t: nat)
    requires t < |classes| && IdsAssigned(classes)
    ensures classes[t].called ==> 0 <= classes[t].id < |Emitted(classes)| && Emitted(classes)[classes[t].id] == classes[t]
    ensures !classes[t].called && (forall i :: 0 <= i < |classes| && i != t ==> classes[i].name != classes[t].name) ==>
      forall c <- Emitted(classes) :: c.name != classes[t].name
  {
    if classes[t].called { EmittedAt(classes, t); } else { EmittedOnlyCalled(classes); }
  }

  lemma {:induction false} EmittedOnlyCalled(classes: seq<LibClass>)
    ensures forall c <- Emitted(classes) :: c in classes && c.called
    decreases |classes|
  {
    if classes != [] { EmittedOnlyCalled(classes[..|classes| - 1]); }
  }

  const A: Name := [0x41]
  const B: Name := [0x42]

  lemma DanglingFunction(id: int)
    ensures var a := LibClass(A, [LibMethod(A, 0, [LIB_FUNC_DEF(B, B), LOAD_INT_LIT(-1)])], true, 0);
      var b := LibClass(B, [LibMethod(B, 7, [])], false, id);
      var classes := [a, b];
      && ClosedUnder(classes, Called(classes)) && IdsAssigned(classes) && Emitted(classes) == [a]
      && RelinkedAll(classes, a.methods[0].instrs) == Some([LOAD_INT_LIT(7), LOAD_INT_LIT(id)])
  {
    var instrs := [LIB_FUNC_DEF(B, B), LOAD_INT_LIT(-1)];
    var a := LibClass(A, [LibMethod(A, 0, instrs)], true, 0);
    var b := LibClass(B, [LibMethod(B, 7, [])], false, id);
    var classes := [a, b];
    assert Called(classes) == {0};
    assert Leads(classes, 0, {0});
    assert classes[..1] == [a] && [a][..0] == [];
    assert Emitted([a]) == [a];
    assert classes[1..] == [b];
    assert Find(classes, B) == Some(1);
    assert FindMethod(b.methods, B) == Some(0);
    assert instrs[2..] == [] && RelinkedAll(classes, instrs[2..]) == Some([]);
    assert [LOAD_INT_LIT(7), LOAD_INT_LIT(id)] + [] == [LOAD_INT_LIT(7), LOAD_INT_LIT(id)];
  }

  /** Names, method ids and marks agree: all that a linked instruction depends on. */
  predicate SameShape(c: LibClass, d: LibClass) {
    && d.name == c.name && d.called == c.called && |d.methods| == |c.methods|
    && forall k :: 0 <= k < |c.methods| ==> d.methods[k].name == c.methods[k].name && d.methods[k].id == c.methods[k].id
  }

  lemma {:induction false} EmittedShapes(cs: seq<LibClass>, ds: seq<LibClass>)
    requires |cs| == |ds| && forall i :: 0 <= i < |cs| ==> SameShape(cs[i], ds[i])
    ensures |Emitted(cs)| == |Emitted(ds)| && forall e :: 0 <= e < |Emitted(cs)| ==> SameShape(Emitted(cs)[e], Emitted(ds)[e])
    decreases |cs|
  {
    if cs != [] { EmittedShapes(cs[..|cs| - 1], ds[..|ds| - 1]); }
  }

  lemma StillRight(emitted: seq<LibClass>, later: seq<LibClass>, i: LibInstr, out: LibInstr)
    requires Follows(i) && LinkedRight(emitted, i, out)
    requires |later| == |emitted| && forall e :: 0 <= e < |emitted| ==> SameShape(emitted[e], later[e])
    ensures LinkedRight(later, i, out)
  {
    if out.MTHD_CALL? {
      var ms, ns := emitted[out.clsId].methods, later[out.clsId].methods;
      var k :| 0 <= k < |ms| && ms[k].name == i.mthd && ms[k].id == out.mthdId;
      assert SameShape(emitted[out.clsId], later[out.clsId]) && ns[k] in ns;
    }
  }

  /** Instruction j of method k of class c, before linking (cs) and after it (ds): a reference to a class carries the id of
      an emitted class of its name, a function reference and its placeholder those of the method and the class it names, and
      nothing else is changed. */
  predicate ReferenceLinked(cs: seq<LibClass>, ds: seq<LibClass>, c: nat, k: nat, j: nat)
    requires c < |cs| && k < |cs[c].methods| && j < |cs[c].methods[k].instrs|
  {
    && c < |ds| && k < |ds[c].methods| && j < |ds[c].methods[k].instrs|
    && (Follows(cs[c].methods[k].instrs[j]) ==>
          LinkedRight(Emitted(ds), cs[c].methods[k].instrs[j], ds[c].methods[k].instrs[j]))
    && (cs[c].methods[k].instrs[j].LIB_FUNC_DEF? ==> FunctionLinked(ds, cs[c].methods[k].instrs[j], ds[c].methods[k].instrs, j))
    && (!Follows(cs[c].methods[k].instrs[j]) && !cs[c].methods[k].instrs[j].LIB_FUNC_DEF?
          && (j > 0 ==> !cs[c].methods[k].instrs[j - 1].LIB_FUNC_DEF?) ==>
          ds[c].methods[k].instrs[j] == cs[c].methods[k].instrs[j])
  }

  predicate FunctionLinked(ds: seq<LibClass>, i: LibInstr, out: seq<LibInstr>, j: nat)
    requires i.LIB_FUNC_DEF?
  {
    && j + 1 < |out|
    && exists t :: 0 <= t < |ds| && ds[t].name == i.cls && (forall e :: 0 <= e < t ==> ds[e].name != i.cls)
         && out[j + 1] == LOAD_INT_LIT(ds[t].id) && exists m <- ds[t].methods :: m.name == i.mthd && out[j] == LOAD_INT_LIT(m.id)
  }

  /** Numbering does not change what is closed. */
  lemma ClosedDespiteIds(cs: seq<LibClass>, ds: seq<LibClass>, s: set<nat>)
    requires SameButIds(cs, ds) && ClosedUnder(cs, s)
    ensures ClosedUnder(ds, s)
  {
    forall i | i in s ensures i < |ds| && Leads(ds, i, s) {
      assert Leads(cs, i, s) && ds[i].methods == cs[i].methods;
      forall name: Name | Refers(ds[i], name) ensures LinkedTo(ds, name, s) {
        assert Refers(cs[i], name) && LinkedTo(cs, name, s);
        FindDespiteIds(cs, ds, name);
      }
    }
  }

  lemma {:induction false} FindDespiteIds(cs: seq<LibClass>, ds: seq<LibClass>, name: Name)
    requires SameButIds(cs, ds)
    ensures Find(cs, name) == Find(ds, name)
    decreases |cs|
  {
    if cs != [] && cs[0].name != name { FindDespiteIds(cs[1..], ds[1..], name); }
  }

  /** Closure, numbering and rewriting together, for one instruction. */
  lemma LinkedThrough(was: seq<LibClass>, marked: seq<LibClass>, numbered: seq<LibClass>, linked: seq<LibClass>, c: nat, k: nat, j: nat)
    requires SameButMarks(was, marked) && SameButIds(marked, numbered) && |linked| == |numbered|
    requires ClosedUnder(marked, Called(marked)) && IdsAssigned(numbered) && c in Called(linked)
    requires forall i :: 0 <= i < |linked| ==>
      linked[i] == numbered[i].(methods := linked[i].methods) && Rewritten(numbered, i, linked[i].methods)
    requires k < |was[c].methods| && j < |was[c].methods[k].instrs|
    ensures ReferenceLinked(was, linked, c, k, j)
  {
    assert Called(numbered) == Called(marked) && Called(linked) == Called(marked);
    ClosedDespiteIds(marked, numbered, Called(marked));
    assert Rewritten(numbered, c, linked[c].methods) && RewrittenMethod(numbered, numbered[c].methods[k], linked[c].methods[k]);
    var instrs := numbered[c].methods[k].instrs;
    var i, out := instrs[j], linked[c].methods[k].instrs[j];
    forall e | 0 <= e < |numbered| ensures SameShape(numbered[e], linked[e]) {
      assert Rewritten(numbered, e, linked[e].methods);
      forall n | 0 <= n < |numbered[e].methods|
        ensures linked[e].methods[n].name == numbered[e].methods[n].name && linked[e].methods[n].id == numbered[e].methods[n].id
      {
        assert RewrittenMethod(numbered, numbered[e].methods[n], linked[e].methods[n]);
      }
    }
    EmittedShapes(numbered, linked);
    if Follows(i) {
      assert MethodRefers(numbered[c].methods[k], i.cls);
      LinkedReferences(numbered, c, k, instrs, j);
      StillRight(Emitted(numbered), Emitted(linked), i, out);
    } else if i.LIB_FUNC_DEF? {
      LinkedFunction(numbered, instrs, j);
      FunctionStays(numbered, linked, i, linked[c].methods[k].instrs, j);
    } else if j > 0 ==> !instrs[j - 1].LIB_FUNC_DEF? {
      OthersKept(numbered, instrs, j);
    }
  }

  lemma FunctionStays(numbered: seq<LibClass>, linked: seq<LibClass>, i: LibInstr, out: seq<LibInstr>, j: nat)
    requires i.LIB_FUNC_DEF? && j + 1 < |out| && |linked| == |numbered|
    requires forall e :: 0 <= e < |numbered| ==> SameShape(numbered[e], linked[e]) && linked[e].id == numbered[e].id
    requires var c := Find(numbered, i.cls);
      && c.Some? && out[j + 1] == LOAD_INT_LIT(numbered[c.value].id)
      && exists m <- numbered[c.value].methods :: m.name == i.mthd && out[j] == LOAD_INT_LIT(m.id)
    ensures FunctionLinked(linked, i, out, j)
  {
    var t := Find(numbered, i.cls).value;
    var ms, ns := numbered[t].methods, linked[t].methods;
    var k :| 0 <= k < |ms| && ms[k].name == i.mthd && out[j] == LOAD_INT_LIT(ms[k].id);
    assert SameShape(numbered[t], linked[t]) && ns[k] in ns;
  }

  /** Marks and ids do not matter for what is named. */
  lemma NamedSame(cs: seq<LibClass>, ds: seq<LibClass>)
    requires |cs| == |ds| && (forall i :: 0 <= i < |cs| ==> ds[i].name == cs[i].name && ds[i].methods == cs[i].methods)
    ensures AllNamed(cs) <==> AllNamed(ds)
  {
    forall i: LibInstr ensures Nameless(cs, i) <==> Nameless(ds, i) {
      if Follows(i) || i.LIB_FUNC_DEF? { FindNames(cs, ds, i.cls); }
    }
    hide Nameless;
    if AllNamed(cs) { NamedOn(cs, ds); }
    if AllNamed(ds) { NamedOn(ds, cs); }
  }

  lemma NamedOn(cs: seq<LibClass>, ds: seq<LibClass>)
    requires |cs| == |ds| && (forall i :: 0 <= i < |cs| ==> ds[i].methods == cs[i].methods)
    requires AllNamed(cs) && forall i :: Nameless(cs, i) <==> Nameless(ds, i)
    ensures AllNamed(ds)
  {
    hide Nameless;
    forall d, m, i | d in ds && m in d.methods && i in m.instrs ensures !Nameless(ds, i) {
      var e :| 0 <= e < |ds| && ds[e] == d;
      assert cs[e] in cs && m in cs[e].methods;
    }
  }

  lemma {:induction false} FindNames(cs: seq<LibClass>, ds: seq<LibClass>, name: Name)
    requires |cs| == |ds| && forall i :: 0 <= i < |cs| ==> ds[i].name == cs[i].name
    ensures Find(cs, name) == Find(ds, name)
  {
    if cs != [] { FindNames(cs[1..], ds[1..], name); }
  }

  class Linker {
    var classes: seq<LibClass>      // of all libraries, in search order

    constructor (cs: seq<LibClass>)
      ensures classes == cs
    {
      classes := cs;
    }

    function Uncalled(): set<nat>
      reads this
    {
      set i: nat | i < |classes| && !classes[i].called
    }

    method SearchClassLibraries(name: Name) returns (r: Option<nat>)
      ensures r == Find(classes, name)
    {
      var i := 0;
      while i < |classes|
        invariant i <= |classes| && forall j :: 0 <= j < i ==> classes[j].name != name
      {
        if classes[i].name == name { FoundAt(classes, name, i); return Some(i); }
        i := i + 1;
      }
      return None;
    }

    static lemma FoundAt(cs: seq<LibClass>, name: Name, i: nat)
      requires i < |cs| && cs[i].name == name && forall j :: 0 <= j < i ==> cs[j].name != name
      ensures Find(cs, name) == Some(i)
    {
    }

    /** Marks what class i refers to, and what that refers to; ok is false when a reference names no
        class, and then linking stops. */
    method ResloveExternalClass(i: nat) returns (ok: bool)
      requires i < |classes| && classes[i].called
      modifies this
      ensures ok ==> Marked(old(classes), classes, i) && Leads(classes, i, Called(classes))
      ensures !ok ==> Unresolvable(old(classes), Called(old(classes)) + {i})
      decreases Uncalled(), 1
    {
      ghost var was := classes;
      var methods := classes[i].methods;
      NothingMarked(classes, i);
      var k := 0;
      while k < |methods|
        invariant k <= |methods| && Marked(was, classes, i) && MethodsLead(classes, methods, k)
      {
        var instrs := methods[k].instrs;
        var j := 0;
        while j < |instrs|
          invariant j <= |instrs| && Marked(was, classes, i) && MethodsLead(classes, methods, k) && InstrsLead(classes, instrs, j)
        {
          if Follows(instrs[j]) {
            ghost var mid := classes;
            assert MethodRefers(methods[k], instrs[j].cls);
            MarksOnlyGrow(was, classes);
            var resolved := ResolveReference(i, instrs[j].cls, was);
            if !resolved { return false; }
            AllStillLead(mid, classes, methods, k, j);
          }
          j := j + 1;
        }
        k := k + 1;
      }
      assert Leads(classes, i, Called(classes)) by {
        forall name: Name | Refers(classes[i], name) ensures LinkedTo(classes, name, Called(classes)) {
          var n :| 0 <= n < |methods| && MethodRefers(methods[n], name);
        }
      }
      return true;
    }

    static lemma MarksOnlyGrow(was: seq<LibClass>, now: seq<LibClass>)
      requires SameButMarks(was, now) && Called(was) <= Called(now)
      ensures (set i: nat | i < |now| && !now[i].called) <= (set i: nat | i < |was| && !was[i].called)
    {
      forall i: nat | i < |now| && !now[i].called ensures !was[i].called { assert i !in Called(was); }
    }

    /** One reference of class i, which was, before its references were followed, the class list. */
    method ResolveReference(i: nat, name: Name, ghost was: seq<LibClass>) returns (ok: bool)
      requires Marked(was, classes, i) && i < |was| && Refers(was[i], name)
      modifies this
      ensures ok ==> Marked(was, classes, i) && LinkedTo(classes, name, Called(classes))
      ensures ok ==> SameButMarks(old(classes), classes) && Called(old(classes)) <= Called(classes)
      ensures !ok ==> Unresolvable(was, Called(was) + {i})
      decreases Uncalled(), 0
    {
      ghost var mid := classes;
      FindSame(was, classes, name);
      var found := SearchClassLibraries(name);
      if found.None? {
        NoneClosed(was, i, name);
        return false;
      }
      var t := found.value;
      if !classes[t].called {
        classes := Mark(classes, t);
        MarksOnlyGrow(mid, classes);
        assert t in old(Uncalled()) && t !in Uncalled();
        var resolved := ResloveExternalClass(t);
        if !resolved {
          NoneClosedBeyond(was, mid, i, t, name);
          return false;
        }
        MarkStep(was, mid, classes, i, t, name);
        FindSame(was, classes, name);
      }
      return true;
    }

    /** Marks the least set of classes that holds what the program calls and is closed under new,
        cast and call references; fails exactly when no such set exists. */
    method ResloveExternalClasses() returns (ok: bool)
      modifies this
      ensures ok ==> SameButMarks(old(classes), classes) && Called(old(classes)) <= Called(classes)
      ensures ok ==> ClosedUnder(classes, Called(classes))
      ensures ok ==> Least(old(classes), Called(old(classes)), Called(classes))
      ensures !ok ==> Unresolvable(old(classes), Called(old(classes)))
    {
      ghost var was := classes;
      var i := 0;
      while i < |classes|
        invariant i <= |classes| && SameButMarks(was, classes) && Called(was) <= Called(classes)
        invariant Least(was, Called(was), Called(classes))
        invariant forall c <- Called(classes) - Called(was) :: Leads(classes, c, Called(classes))
        invariant forall c <- Called(was) :: c < i ==> Leads(classes, c, Called(classes))
      {
        if classes[i].called {
          ghost var mid := classes;
          var resolved := ResloveExternalClass(i);
          if !resolved {
            NoneClosedAfter(was, mid, i);
            return false;
          }
          NextRoot(was, mid, classes, i);
        }
        i := i + 1;
      }
      return true;
    }

    static lemma NextRoot(was: seq<LibClass>, mid: seq<LibClass>, now: seq<LibClass>, i: nat)
      requires SameButMarks(was, mid) && Called(was) <= Called(mid) && Least(was, Called(was), Called(mid))
      requires forall c <- Called(mid) - Called(was) :: Leads(mid, c, Called(mid))
      requires forall c <- Called(was) :: c < i ==> Leads(mid, c, Called(mid))
      requires i < |mid| && i in Called(mid) && Marked(mid, now, i) && Leads(now, i, Called(now))
      ensures SameButMarks(was, now) && Called(was) <= Called(now) && Least(was, Called(was), Called(now))
      ensures forall c <- Called(now) - Called(was) :: Leads(now, c, Called(now))
      ensures forall c <- Called(was) :: c < i + 1 ==> Leads(now, c, Called(now))
    {
      forall c | c in Called(now) - Called(was) ensures Leads(now, c, Called(now)) {
        if c in Called(mid) { LeadsSame(mid, now, c, Called(mid), Called(now)); }
      }
      forall c | c in Called(was) && c < i + 1 ensures Leads(now, c, Called(now)) {
        if c < i { LeadsSame(mid, now, c, Called(mid), Called(now)); }
      }
      forall s: set<nat> | Called(was) <= s && ClosedUnder(was, s) ensures Called(now) <= s {
        assert Called(mid) + {i} <= s;
        ClosedSame(was, mid, s);
      }
    }

    static lemma NoneClosedAfter(was: seq<LibClass>, mid: seq<LibClass>, i: nat)
      requires SameButMarks(was, mid) && Least(was, Called(was), Called(mid)) && i in Called(mid)
      requires Unresolvable(mid, Called(mid) + {i})
      ensures Unresolvable(was, Called(was))
    {
      forall s: set<nat> | Called(was) <= s ensures !ClosedUnder(was, s) {
        if ClosedUnder(was, s) {
          assert Called(mid) + {i} <= s;
          ClosedSame(was, mid, s);
        }
      }
    }

    static lemma NoneClosed(was: seq<LibClass>, i: nat, name: Name)
      requires i < |was| && Refers(was[i], name) && Find(was, name).None?
      ensures Unresolvable(was, Called(was) + {i})
    {
      forall s: set<nat> | Called(was) + {i} <= s ensures !ClosedUnder(was, s) {
        assert i in s && !LinkedTo(was, name, s);
      }
    }

    static lemma NoneClosedBeyond(was: seq<LibClass>, mid: seq<LibClass>, i: nat, t: nat, name: Name)
      requires Marked(was, mid, i) && i < |was| && Refers(was[i], name) && Find(was, name) == Some(t) && t < |mid|
      requires Unresolvable(Mark(mid, t), Called(Mark(mid, t)) + {t})
      ensures Unresolvable(was, Called(was) + {i})
    {
      forall s: set<nat> | Called(was) + {i} <= s ensures !ClosedUnder(was, s) {
        if ClosedUnder(was, s) {
          assert Called(mid) <= s && LinkedTo(was, name, s);
          ClosedSame(was, Mark(mid, t), s);
        }
      }
    }

    /** The called classes are numbered in order; next is the first id left for the program's own. */
    method AssignIds() returns (next: nat)
      modifies this
      ensures SameButIds(old(classes), classes) && IdsAssigned(classes) && next == |Emitted(classes)|
    {
      ghost var was := classes;
      next := 0;
      var i := 0;
      while i < |classes|
        invariant i <= |classes| && SameButIds(was, classes) && next == Rank(was, i)
        invariant forall j :: 0 <= j < i && classes[j].called ==> classes[j].id == Rank(was, j)
      {
        if classes[i].called {
          classes := classes[i := classes[i].(id := next)];
          next := next + 1;
        }
        i := i + 1;
      }
      forall j | 0 <= j <= |classes| ensures Rank(was, j) == Rank(classes, j) { RankSame(was, classes, j); }
      EmittedLength(classes);
    }

    /** Rewrites the symbolic references of one method in place; None when a name is not found. */
    method RelinkMethod(instrs: seq<LibInstr>) returns (r: Option<seq<LibInstr>>)
      requires Placeheld(instrs)
      ensures r == RelinkedAll(classes, instrs)
    {
      var out := instrs;
      var j := 0;
      assert out[0..] == instrs && out[..0] == [];
      ThenNothing(RelinkedAll(classes, instrs));
      while j < |out|
        invariant j <= |out| == |instrs| && Placeheld(out[j..])
        invariant RelinkedAll(classes, instrs) == Then(out[..j], RelinkedAll(classes, out[j..]))
      {
        ghost var was := out;
        var i := out[j];
        if i.LIB_FUNC_DEF? {
          var ids := FunctionIds(classes, i);
          if ids.None? { return None; }
          FunctionNext(classes, out, j, ids.value);
          out := out[j := LOAD_INT_LIT(ids.value.0)][j + 1 := LOAD_INT_LIT(ids.value.1)];
        } else {
          var linked := Relinked(classes, i);
          InstrNext(classes, out, j);
          if linked.None? { return None; }
          out := out[j := linked.value];
        }
        j := j + 1;
      }
      assert out[j..] == [] && out[..j] + [] == out;
      return Some(out);
    }

    static lemma ThenNothing(z: Option<seq<LibInstr>>)
      ensures Then([], z) == z
    {
      if z.Some? { assert [] + z.value == z.value; }
    }

    static lemma ThenThen(x: seq<LibInstr>, y: seq<LibInstr>, z: Option<seq<LibInstr>>)
      ensures Then(x, Then(y, z)) == Then(x + y, z)
    {
      if z.Some? { assert x + (y + z.value) == x + y + z.value; }
    }

    static lemma InstrNext(classes: seq<LibClass>, out: seq<LibInstr>, j: nat)
      requires j < |out| && Placeheld(out[j..]) && !out[j].LIB_FUNC_DEF?
      ensures Placeheld(out[j + 1..])
      ensures var i := Relinked(classes, out[j]);
        if i.None? then RelinkedAll(classes, out[j..]).None?
        else
          var next := out[j := i.value];
          && next[j + 1..] == out[j + 1..]
          && Then(out[..j], RelinkedAll(classes, out[j..])) == Then(next[..j + 1], RelinkedAll(classes, next[j + 1..]))
    {
      Later(out, j, j + 1);
      assert out[j..][0] == out[j] && out[j..][1..] == out[j + 1..];
      var i := Relinked(classes, out[j]);
      if i.Some? {
        var next := out[j := i.value];
        assert next[j + 1..] == out[j + 1..] && next[..j + 1] == out[..j] + [i.value];
        ThenThen(out[..j], [i.value], RelinkedAll(classes, out[j + 1..]));
      }
    }

    static lemma Later(out: seq<LibInstr>, j: nat, k: nat)
      requires j <= k <= |out| && Placeheld(out[j..])
      ensures Placeheld(out[k..])
    {
      forall n | 0 <= n < |out[k..]| && out[k..][n].LIB_FUNC_DEF? ensures n + 1 < |out[k..]| && out[k..][n + 1].LOAD_INT_LIT? {
        assert out[j..][n + k - j] == out[k..][n];
        assert out[j..][n + k - j + 1] == out[k + n + 1];
      }
    }

    static lemma FunctionNext(classes: seq<LibClass>, out: seq<LibInstr>, j: nat, ids: (int, int))
      requires j < |out| && Placeheld(out[j..]) && out[j].LIB_FUNC_DEF? && FunctionIds(classes, out[j]) == Some(ids)
      ensures j + 1 < |out|
      ensures var next := out[j := LOAD_INT_LIT(ids.0)][j + 1 := LOAD_INT_LIT(ids.1)];
        && Placeheld(next[j + 1..])
        && Then(out[..j], RelinkedAll(classes, out[j..])) == Then(next[..j + 1], RelinkedAll(classes, next[j + 1..]))
    {
      assert out[j..][0] == out[j];
      var a, b := LOAD_INT_LIT(ids.0), LOAD_INT_LIT(ids.1);
      var next, rest := out[j := a][j + 1 := b], out[j + 2..];
      Later(out, j, j + 2);
      assert out[j..][2..] == rest && next[j + 1..] == [b] + rest && ([b] + rest)[1..] == rest;
      assert next[..j + 1] == out[..j] + [a];
      var tail := next[j + 1..];
      forall n | 0 <= n < |tail| && tail[n].LIB_FUNC_DEF? ensures n + 1 < |tail| && tail[n + 1].LOAD_INT_LIT? {
        assert n > 0 && rest[n - 1] == tail[n];
        assert rest[n] == tail[n + 1];
      }
      ThenThen([a], [b], RelinkedAll(classes, rest));
      ThenThen(out[..j], [a], Then([b], RelinkedAll(classes, rest)));
      assert [a] + [b] == [a, b];
    }

    /** Rewrites every method of every class; fails when some name is not found. */
    method ResolveExternalMethodCalls() returns (ok: bool)
      requires forall c <- classes, m <- c.methods :: Placeheld(m.instrs)
      modifies this
      ensures ok ==> |classes| == |old(classes)|
      ensures ok ==> forall i :: 0 <= i < |classes| ==>
        classes[i] == old(classes)[i].(methods := classes[i].methods) && Rewritten(old(classes), i, classes[i].methods)
      ensures ok <==> AllNamed(old(classes))
    {
      // names, ids and method ids, all that rewriting looks at, stay as they are
      ghost var was := classes;
      var linked: seq<LibClass> := [];
      var i := 0;
      while i < |classes|
        invariant i == |linked| <= |classes| && classes == was
        invariant forall j :: 0 <= j < i ==>
          linked[j] == was[j].(methods := linked[j].methods) && Rewritten(was, j, linked[j].methods)
      {
        var methods := classes[i].methods;
        var out: seq<LibMethod> := [];
        var k := 0;
        assert classes[i] in classes;
        while k < |methods|
          invariant k == |out| <= |methods| && classes == was
          invariant forall n :: 0 <= n < k ==> RewrittenMethod(was, methods[n], out[n])
        {
          assert methods[k] in methods;
          var instrs := RelinkMethod(methods[k].instrs);
          RelinkedExact(was, methods[k].instrs);
          if instrs.None? { return false; }
          out := out + [methods[k].(instrs := instrs.value)];
          k := k + 1;
        }
        linked := linked + [classes[i].(methods := out)];
        i := i + 1;
      }
      AllRewritten(was, linked);
      classes := linked;
      return true;
    }

    static lemma AllRewritten(was: seq<LibClass>, linked: seq<LibClass>)
      requires |linked| == |was| && forall i :: 0 <= i < |was| ==> Rewritten(was, i, linked[i].methods)
      ensures AllNamed(was)
    {
      hide Nameless;
      forall c, m, i | c in was && m in c.methods && i in m.instrs ensures !Nameless(was, i) {
        var e :| 0 <= e < |was| && was[e] == c;
        var k :| 0 <= k < |c.methods| && c.methods[k] == m;
        assert Rewritten(was, e, linked[e].methods) && RewrittenMethod(was, m, linked[e].methods[k]);
        RelinkedExact(was, m.instrs);
      }
    }

    /** From libraries to program: the needed classes are the least closed set, numbered in order, and in every one of them
        every reference carries the id of the class it names, which is part of the program. Linking fails exactly when no
        closed set holds the called classes or a reference names a class or method no library has. */
    method Link() returns (ok: bool)
      requires forall c <- classes, m <- c.methods :: Placeheld(m.instrs)
      modifies this
      ensures ok <==> !Unresolvable(old(classes), Called(old(classes))) && AllNamed(old(classes))
      ensures ok ==> |classes| == |old(classes)| && Least(old(classes), Called(old(classes)), Called(classes))
      ensures ok ==> IdsAssigned(classes) && ClosedUnder(old(classes), Called(classes)) && Called(old(classes)) <= Called(classes)
      ensures ok ==> forall c <- Called(classes), k, j ::
        0 <= k < |old(classes)[c].methods| && 0 <= j < |old(classes)[c].methods[k].instrs| ==>
          ReferenceLinked(old(classes), classes, c, k, j)
    {
      ghost var was := classes;
      ok := ResloveExternalClasses();
      if !ok { return; }
      ghost var marked := classes;
      var next := AssignIds();
      ghost var numbered := classes;
      forall c, m | c in classes && m in c.methods ensures Placeheld(m.instrs) {
        var i :| 0 <= i < |classes| && classes[i] == c;
        assert was[i] in was && was[i].methods == c.methods;
      }
      NamedSame(was, numbered);
      ClosedSame(marked, was, Called(marked));
      ok := ResolveExternalMethodCalls();
      if !ok { return; }
      assert Called(classes) == Called(marked);
      forall i | 0 <= i < |classes| ensures Rank(classes, i) == Rank(numbered, i) { RankSame(numbered, classes, i); }
      forall c, k, j | c in Called(classes) && 0 <= k < |was[c].methods| && 0 <= j < |was[c].methods[k].instrs|
        ensures ReferenceLinked(was, classes, c, k, j)
      {
        LinkedThrough(was, marked, numbered, classes, c, k, j);
      }
    }
  }

  predicate RewrittenMethod(classes: seq<LibClass>, m: LibMethod, m': LibMethod) {
    Placeheld(m.instrs) && RelinkedAll(classes, m.instrs) == Some(m'.instrs) && m' == m.(instrs := m'.instrs)
  }

  predicate Rewritten(classes: seq<LibClass>, i: nat, methods: seq<LibMethod>)
    requires i < |classes|
  {
    |methods| == |classes[i].methods| && forall k :: 0 <= k < |methods| ==> RewrittenMethod(classes, classes[i].methods[k], methods[k])
  }
}
