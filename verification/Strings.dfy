// Merging the constant pools of the libraries into the program's: one pool for each kind of constant,
// and library instructions that copy a constant are pointed at the merged pool.

module Strings {
  import opened Wrappers
  import F = FileFormat

  /** A loaded instruction; the operand of a copy instruction is an index into a pool. */
  class LibraryInstr {
    const opcode: int
    var operand: int

    constructor (op: int, o: int)
      ensures opcode == op && operand == o
    {
      opcode, operand := op, o;
    }
  }

  /** A constant of a library and the instructions registered for it while loading. */
  datatype Entry<T> = Entry(value: T, instrs: seq<LibraryInstr>)

  /** What the compiler's comparison guarantees. It need not be reflexive: an array with a NaN in it
      is not equal to itself. */
  ghost predicate Comparison<T(!new)>(same: (T, T) -> bool) {
    && (forall x, y :: same(x, y) ==> same(y, x))
    && (forall x, y, z :: same(x, y) && same(y, z) ==> same(x, z))
  }

  /** Where the search for v in the pool stops. */
  function IndexOf<T>(same: (T, T) -> bool, v: T, pool: seq<T>): (r: Option<nat>)
    ensures r.Some? ==> r.value < |pool| && same(v, pool[r.value]) && forall j :: 0 <= j < r.value ==> !same(v, pool[j])
    ensures r.None? ==> forall j :: 0 <= j < |pool| ==> !same(v, pool[j])
  {
    if pool == [] then None
    else if same(v, pool[0]) then Some(0)
    else
      var r := IndexOf(same, v, pool[1..]);
      if r.None? then None else Some(r.value + 1)
  }

  /** Each of values is appended unless the pool has one like it. */
  function Merge<T>(same: (T, T) -> bool, pool: seq<T>, values: seq<T>): (r: seq<T>)
    ensures pool <= r
    decreases |values|
  {
    if values == [] then pool
    else Merge(same, if IndexOf(same, values[0], pool).Some? then pool else pool + [values[0]], values[1..])
  }

  function ValuesOf<T>(entries: seq<Entry<T>>): (r: seq<T>)
    ensures |r| == |entries| && forall i :: 0 <= i < |r| ==> r[i] == entries[i].value
  {
    seq(|entries|, i requires 0 <= i < |entries| => entries[i].value)
  }

  /** The program's pool with all library constants: first gathered, then merged. */
  function Pool<T>(same: (T, T) -> bool, program: seq<T>, entries: seq<Entry<T>>): seq<T> {
    Merge(same, program, Merge(same, [], ValuesOf(entries)))
  }

  // ----- What merging guarantees -----

  /** No value behind the first n is like one before it. */
  predicate NoDuplicatesFrom<T>(same: (T, T) -> bool, n: nat, pool: seq<T>) {
    forall i, j :: 0 <= i < j < |pool| && n <= j ==> !same(pool[j], pool[i])
  }

  lemma {:induction false} MergeAddsNoDuplicates<T>(same: (T, T) -> bool, pool: seq<T>, values: seq<T>, n: nat)
    requires NoDuplicatesFrom(same, n, pool)
    ensures NoDuplicatesFrom(same, n, Merge(same, pool, values))
    decreases |values|
  {
    if values != [] {
      var next := if IndexOf(same, values[0], pool).Some? then pool else pool + [values[0]];
      MergeAddsNoDuplicates(same, next, values[1..], n);
    }
  }

  lemma {:induction false} MergeHolds<T(!new)>(same: (T, T) -> bool, pool: seq<T>, values: seq<T>, k: nat)
    requires Comparison(same) && k < |values| && same(values[k], values[k])
    ensures exists w <- Merge(same, pool, values) :: same(values[k], w) && (w in pool || w in values)
    decreases |values|
  {
    var next := if IndexOf(same, values[0], pool).Some? then pool else pool + [values[0]];
    if k > 0 {
      MergeHolds(same, next, values[1..], k - 1);
    } else {
      if next != pool { assert same(values[0], next[|pool|]); }
      var w := next[IndexOf(same, values[0], next).value];
      assert w in next && w in Merge(same, next, values[1..]);
    }
  }

  /** Every constant a library uses is found in the merged pool, exactly when it is equal to itself. */
  lemma Found<T(!new)>(same: (T, T) -> bool, program: seq<T>, entries: seq<Entry<T>>, e: nat)
    requires Comparison(same) && e < |entries|
    ensures IndexOf(same, entries[e].value, Pool(same, program, entries)).Some? <==> same(entries[e].value, entries[e].value)
  {
    var v, values := entries[e].value, ValuesOf(entries);
    var gathered := Merge(same, [], values);
    var pool := Pool(same, program, entries);
    if same(v, v) {
      MergeHolds(same, [], values, e);
      var w :| w in gathered && same(v, w);
      var k :| 0 <= k < |gathered| && gathered[k] == w;
      assert same(w, v) && same(w, w);
      MergeHolds(same, program, gathered, k);
      var u :| u in pool && same(w, u);
      var j :| 0 <= j < |pool| && pool[j] == u;
      assert same(v, pool[j]);
    }
  }

  /** The program's own constants keep their places, and merging adds no second copy of anything. */
  lemma PoolKeepsProgram<T>(same: (T, T) -> bool, program: seq<T>, entries: seq<Entry<T>>)
    ensures program <= Pool(same, program, entries)
    ensures NoDuplicatesFrom(same, |program|, Pool(same, program, entries))
  {
    MergeAddsNoDuplicates(same, program, Merge(same, [], ValuesOf(entries)), |program|);
  }

  // ----- The merge as it is done -----

  /** Every instruction is registered once. */
  ghost predicate Registered<T(!new)>(entries: seq<Entry<T>>) {
    && (forall e, j, k :: 0 <= e < |entries| && 0 <= j < k < |entries[e].instrs| ==> entries[e].instrs[j] != entries[e].instrs[k])
    && (forall e, f, j, k :: 0 <= e < f < |entries| && 0 <= j < |entries[e].instrs| && 0 <= k < |entries[f].instrs| ==>
          entries[e].instrs[j] != entries[f].instrs[k])
  }

  ghost function Instrs<T(!new)>(entries: seq<Entry<T>>): set<LibraryInstr> {
    set e, k | 0 <= e < |entries| && 0 <= k < |entries[e].instrs| :: entries[e].instrs[k]
  }

  method Search<T>(same: (T, T) -> bool, v: T, pool: seq<T>) returns (r: Option<nat>)
    ensures r == IndexOf(same, v, pool)
  {
    var j := 0;
    assert pool[0..] == pool;
    while j < |pool|
      invariant j <= |pool| && (forall i :: 0 <= i < j ==> !same(v, pool[i]))
      invariant IndexOf(same, v, pool) ==
        (var rest := IndexOf(same, v, pool[j..]); if rest.None? then None else Some(rest.value + j))
    {
      assert pool[j..][0] == pool[j] && pool[j..][1..] == pool[j + 1..];
      if same(v, pool[j]) { return Some(j); }
      j := j + 1;
    }
    return None;
  }

  method MergeInto<T>(same: (T, T) -> bool, pool: seq<T>, values: seq<T>) returns (r: seq<T>)
    ensures r == Merge(same, pool, values)
  {
    r := pool;
    var i := 0;
    assert values[0..] == values;
    while i < |values|
      invariant i <= |values| && Merge(same, r, values[i..]) == Merge(same, pool, values)
    {
      assert values[i..][0] == values[i] && values[i..][1..] == values[i + 1..];
      var found := Search(same, values[i], r);
      if found.None? { r := r + [values[i]]; }
      i := i + 1;
    }
  }

  /** entries[e] has been pointed at its place in the pool, if it has one. */
  ghost predicate Pointed<T(!new)>(same: (T, T) -> bool, pool: seq<T>, entries: seq<Entry<T>>, e: nat)
    requires e < |entries|
    reads Instrs(entries)
  {
    var r := IndexOf(same, entries[e].value, pool);
    r.Some? ==> forall k :: 0 <= k < |entries[e].instrs| ==> entries[e].instrs[k].operand == r.value
  }

  /** One kind of constant: gathers the library constants, merges them into the program's and points
      every registered instruction at its constant's new place. */
  method EmitPool<T(!new)>(same: (T, T) -> bool, program: seq<T>, entries: seq<Entry<T>>) returns (pool: seq<T>)
    requires Registered(entries)
    modifies Instrs(entries)
    ensures pool == Pool(same, program, entries)
    ensures forall e :: 0 <= e < |entries| ==> Pointed(same, pool, entries, e)
    ensures forall e, k :: 0 <= e < |entries| && 0 <= k < |entries[e].instrs| && IndexOf(same, entries[e].value, pool).None? ==>
      entries[e].instrs[k].operand == old(entries[e].instrs[k].operand)
  {
    var gathered := MergeInto(same, [], ValuesOf(entries));
    pool := MergeInto(same, program, gathered);
    hide IndexOf, Merge, Registered;
    var e := 0;
    while e < |entries|
      invariant e <= |entries|
      invariant forall f :: 0 <= f < e ==> Pointed(same, pool, entries, f)
      invariant forall f, k :: 0 <= f < |entries| && 0 <= k < |entries[f].instrs| && Stays(same, pool, entries, e, f) ==>
        entries[f].instrs[k].operand == old(entries[f].instrs[k].operand)
    {
      var found := Search(same, entries[e].value, pool);
      if found.Some? {
        label before:
        PointAll(entries, e, found.value);
        forall f | 0 <= f < e ensures Pointed(same, pool, entries, f) { assert old@before(Pointed(same, pool, entries, f)); }
      }
      e := e + 1;
    }
  }

  /** Entry f is not reached yet, or has no place in the pool. */
  predicate Stays<T>(same: (T, T) -> bool, pool: seq<T>, entries: seq<Entry<T>>, e: nat, f: nat)
    requires f < |entries|
  {
    e <= f || IndexOf(same, entries[f].value, pool).None?
  }

  method PointAll<T(!new)>(entries: seq<Entry<T>>, e: nat, index: nat)
    requires e < |entries| && Registered(entries)
    modifies entries[e].instrs
    ensures forall k :: 0 <= k < |entries[e].instrs| ==> entries[e].instrs[k].operand == index
    ensures forall f, k :: 0 <= f < |entries| && f != e && 0 <= k < |entries[f].instrs| ==>
      entries[f].instrs[k].operand == old(entries[f].instrs[k].operand)
  {
    var instrs := entries[e].instrs;
    var k := 0;
    while k < |instrs|
      invariant k <= |instrs| && forall j :: 0 <= j < k ==> instrs[j].operand == index
    {
      instrs[k].operand := index;
      k := k + 1;
    }
  }

  // ----- How the loader finds the copy instructions -----

  const CPY_CHAR_STR_ARY := -3994
  const CPY_INT_STR_ARY := -3992
  const CPY_FLOAT_STR_ARY := -3991

  /** The integer operand of a loaded instruction. */
  function Operand(i: F.Instr): int {
    match i.operands
    case One(a) => a
    case Two(a, _) => a
    case Three(a, _, _) => a
    case Character(code) => code
    case _ => 0
  }

  /** Of several operands it is the first. */
  lemma FirstOperand(op: int, line: int, a: int, b: int, c: int)
    ensures Operand(F.Instr(op, line, F.One(a))) == a && Operand(F.Instr(op, line, F.Two(a, b))) == a
    ensures Operand(F.Instr(op, line, F.Three(a, b, c))) == a && Operand(F.Instr(op, line, F.Character(a))) == a
  {
  }

  /** Instruction j names a constant: the trap two places on copies constants of kind id. */
  predicate CopyAt(code: seq<F.Instr>, j: nat, id: int) {
    j + 2 < |code| && code[j + 2].opcode == F.TRAP_RTRN && Operand(code[j + 1]) == id
  }

  /** Constants of one kind of a library, each with the instructions that name it. */
  class Registry<T(!new)> {
    var entries: seq<Entry<T>>

    constructor (values: seq<T>)
      ensures ValuesOf(entries) == values && Instrs(entries) == {} && Valid()
    {
      entries := seq(|values|, i requires 0 <= i < |values| => Entry(values[i], []));
    }

    /** Every instruction is registered once, with the constant its operand names. */
    ghost predicate Valid()
      reads this, Instrs(entries)
    {
      Registered(entries) && forall e, k :: 0 <= e < |entries| && 0 <= k < |entries[e].instrs| ==> entries[e].instrs[k].operand == e
    }

    method Register(cpy: LibraryInstr) returns (ok: bool)
      requires Valid() && cpy !in Instrs(entries)
      modifies this
      ensures Valid() && ValuesOf(entries) == old(ValuesOf(entries))
      ensures ok <==> 0 <= cpy.operand < |entries|
      ensures ok ==> cpy in entries[cpy.operand].instrs
      ensures Instrs(entries) == old(Instrs(entries)) + if ok then {cpy} else {}
    {
      var n := cpy.operand;
      if n < 0 || n >= |entries| { return false; }
      ghost var was := entries;
      entries := entries[n := Entry(entries[n].value, entries[n].instrs + [cpy])];
      AlsoRegistered(was, n, cpy);
      return true;
    }

    static lemma AlsoRegistered(was: seq<Entry<T>>, n: nat, cpy: LibraryInstr)
      requires n < |was| && cpy !in Instrs(was) && Registered(was)
      ensures var now := was[n := Entry(was[n].value, was[n].instrs + [cpy])];
        Registered(now) && Instrs(now) == Instrs(was) + {cpy}
    {
      var now := was[n := Entry(was[n].value, was[n].instrs + [cpy])];
      forall i | i in Instrs(was) ensures i in Instrs(now) {
        var e, k :| 0 <= e < |was| && 0 <= k < |was[e].instrs| && was[e].instrs[k] == i;
        assert now[e].instrs[k] == i;
      }
      assert now[n].instrs[|was[n].instrs|] == cpy;
    }
  }

  /** The objects built for the instructions read so far. */
  predicate Made(code: seq<F.Instr>, instrs: seq<LibraryInstr>)
    reads instrs
  {
    |instrs| <= |code| && forall j :: 0 <= j < |instrs| ==>
      instrs[j].opcode == code[j].opcode && instrs[j].operand == Operand(code[j])
  }

  lemma MadeNext(code: seq<F.Instr>, instrs: seq<LibraryInstr>, next: LibraryInstr)
    requires Made(code, instrs) && |instrs| < |code|
    requires next.opcode == code[|instrs|].opcode && next.operand == Operand(code[|instrs|])
    ensures Made(code, instrs + [next])
  {
  }

  /** The instructions in front of the traps read so far that copy constants of kind id. */
  ghost function Copies(code: seq<F.Instr>, instrs: seq<LibraryInstr>, id: int): set<LibraryInstr>
    requires |instrs| <= |code|
  {
    set j | 0 <= j < |instrs| - 2 && CopyAt(code, j, id) :: instrs[j]
  }

  lemma CopiesApart(code: seq<F.Instr>, instrs: seq<LibraryInstr>, id: int, id': int)
    requires |instrs| <= |code| && id != id' && forall i, k :: 0 <= i < k < |instrs| ==> instrs[i] != instrs[k]
    ensures Copies(code, instrs, id) !! Copies(code, instrs, id')
    ensures Copies(code, instrs, id) <= (set i | i in instrs)
  {
    forall x | x in Copies(code, instrs, id) ensures x in instrs && x !in Copies(code, instrs, id') {
      var j :| 0 <= j < |instrs| - 2 && CopyAt(code, j, id) && instrs[j] == x;
    }
  }

  lemma CopiesNext(code: seq<F.Instr>, instrs: seq<LibraryInstr>, next: LibraryInstr, id: int)
    requires |instrs| < |code|
    ensures var n := |instrs|;
      Copies(code, instrs + [next], id) == Copies(code, instrs, id) + if n >= 2 && CopyAt(code, n - 2, id) then {instrs[n - 2]} else {}
  {
    var n, later := |instrs|, instrs + [next];
    forall x | x in Copies(code, instrs, id) ensures x in Copies(code, later, id) {
      var j :| 0 <= j < n - 2 && CopyAt(code, j, id) && instrs[j] == x;
      assert later[j] == x;
    }
    if n >= 2 && CopyAt(code, n - 2, id) { assert later[n - 2] == instrs[n - 2]; }
  }

  /** Among different instructions: j is one of them exactly when the trap behind it copies constants of that kind. */
  lemma CopiesExact(code: seq<F.Instr>, instrs: seq<LibraryInstr>, id: int, j: nat)
    requires |instrs| == |code| && j < |instrs| && forall i, k :: 0 <= i < k < |instrs| ==> instrs[i] != instrs[k]
    ensures instrs[j] in Copies(code, instrs, id) <==> CopyAt(code, j, id)
  {
  }

  predicate CopyId(id: int) {
    id == CPY_CHAR_STR_ARY || id == CPY_INT_STR_ARY || id == CPY_FLOAT_STR_ARY
  }

  /** Instructions that copy characters, integers and doubles. */
  type InstrSets = (set<LibraryInstr>, set<LibraryInstr>, set<LibraryInstr>)

  /** How many constants a library has of each kind. */
  datatype Sizes = Sizes(chars: nat, ints: nat, floats: nat)

  function SizesOf(l: F.Library): Sizes {
    Sizes(|l.charStrings|, |l.intStrings|, |l.floatStrings|)
  }

  function SizeOf(sizes: Sizes, id: int): nat {
    if id == CPY_CHAR_STR_ARY then sizes.chars else if id == CPY_INT_STR_ARY then sizes.ints else sizes.floats
  }

  /** A trap has an instruction in front of it, and one that copies a constant has in front of that one an index into its pool. */
  predicate TrapFine(code: seq<F.Instr>, sizes: Sizes, t: nat)
    requires t < |code|
  {
    code[t].opcode == F.TRAP_RTRN ==>
      t >= 1 && (CopyId(Operand(code[t - 1])) ==> t >= 2 && 0 <= Operand(code[t - 2]) < SizeOf(sizes, Operand(code[t - 1])))
  }

  predicate Loadable(code: seq<F.Instr>, sizes: Sizes) {
    forall t :: 0 <= t < |code| ==> TrapFine(code, sizes, t)
  }

  class LibraryStrings {
    const chars: Registry<F.WString>
    const ints: Registry<seq<int>>
    const floats: Registry<seq<F.Double>>

    constructor (l: F.Library)
      ensures Valid() && fresh(chars) && fresh(ints) && fresh(floats) && Registries() == ({}, {}, {})
      ensures ValuesOf(chars.entries) == l.charStrings && ValuesOf(ints.entries) == l.intStrings
      ensures ValuesOf(floats.entries) == l.floatStrings
    {
      chars := new Registry(l.charStrings);
      ints := new Registry(l.intStrings);
      floats := new Registry(l.floatStrings);
    }

    ghost function Known(): set<LibraryInstr>
      reads chars, ints, floats
    {
      Instrs(chars.entries) + Instrs(ints.entries) + Instrs(floats.entries)
    }

    ghost predicate Valid()
      reads chars, ints, floats, Known()
    {
      chars != ints && chars.Valid() && ints.Valid() && floats.Valid()
    }

    function Counts(): Sizes
      reads this, chars, ints, floats
    {
      Sizes(|chars.entries|, |ints.entries|, |floats.entries|)
    }

    /** What a trap registers: the instruction two before it, by the operand of the one before it, and nothing else. */
    method Register(instrs: seq<LibraryInstr>) returns (ok: bool)
      requires Valid() && (|instrs| >= 2 ==> instrs[|instrs| - 2] !in Known())
      modifies chars, ints, floats
      ensures Valid() && SameValues()
      ensures ok <==> instrs != [] && (CopyId(instrs[|instrs| - 1].operand) ==>
        |instrs| >= 2 && 0 <= instrs[|instrs| - 2].operand < SizeOf(old(Counts()), instrs[|instrs| - 1].operand))
      ensures ok ==> Instrs(chars.entries) == old(Instrs(chars.entries)) + Wanted(instrs, CPY_CHAR_STR_ARY)
      ensures ok ==> Instrs(ints.entries) == old(Instrs(ints.entries)) + Wanted(instrs, CPY_INT_STR_ARY)
      ensures ok ==> Instrs(floats.entries) == old(Instrs(floats.entries)) + Wanted(instrs, CPY_FLOAT_STR_ARY)
    {
      hide Instrs, ValuesOf, Registered;
      if instrs == [] { return false; }
      var id := instrs[|instrs| - 1].operand;
      if id != CPY_CHAR_STR_ARY && id != CPY_INT_STR_ARY && id != CPY_FLOAT_STR_ARY { return true; }
      if |instrs| < 2 { return false; }
      var cpy := instrs[|instrs| - 2];
      if id == CPY_CHAR_STR_ARY { ok := chars.Register(cpy); }
      else if id == CPY_INT_STR_ARY { ok := ints.Register(cpy); }
      else { ok := floats.Register(cpy); }
    }

    static ghost function Wanted(instrs: seq<LibraryInstr>, id: int): set<LibraryInstr>
      reads instrs
    {
      if |instrs| >= 2 && instrs[|instrs| - 1].operand == id then {instrs[|instrs| - 2]} else {}
    }

    /** The pools hold what they held. */
    twostate predicate SameValues()
      reads chars, ints, floats
    {
      && ValuesOf(chars.entries) == old(ValuesOf(chars.entries))
      && ValuesOf(ints.entries) == old(ValuesOf(ints.entries)) && ValuesOf(floats.entries) == old(ValuesOf(floats.entries))
    }

    twostate lemma SameCounts()
      requires SameValues()
      ensures Counts() == old(Counts())
    {
      assert |ValuesOf(chars.entries)| == |chars.entries| && |ValuesOf(ints.entries)| == |ints.entries|;
      assert |ValuesOf(floats.entries)| == |floats.entries|;
    }

    /** Besides what was registered before, exactly what the traps read so far ask for. */
    ghost predicate Recorded(code: seq<F.Instr>, instrs: seq<LibraryInstr>, before: InstrSets)
      requires |instrs| <= |code|
      reads chars, ints, floats
    {
      && Instrs(chars.entries) == before.0 + Copies(code, instrs, CPY_CHAR_STR_ARY)
      && Instrs(ints.entries) == before.1 + Copies(code, instrs, CPY_INT_STR_ARY)
      && Instrs(floats.entries) == before.2 + Copies(code, instrs, CPY_FLOAT_STR_ARY)
    }

    ghost function Registries(): InstrSets
      reads chars, ints, floats
    {
      (Instrs(chars.entries), Instrs(ints.entries), Instrs(floats.entries))
    }

    lemma FromNothing(code: seq<F.Instr>, instrs: seq<LibraryInstr>)
      requires |instrs| <= |code| && Recorded(code, instrs, ({}, {}, {}))
      ensures Registries() ==
        (Copies(code, instrs, CPY_CHAR_STR_ARY), Copies(code, instrs, CPY_INT_STR_ARY), Copies(code, instrs, CPY_FLOAT_STR_ARY))
    {
      hide Instrs, Copies;
      NothingMore(Copies(code, instrs, CPY_CHAR_STR_ARY));
      NothingMore(Copies(code, instrs, CPY_INT_STR_ARY));
      NothingMore(Copies(code, instrs, CPY_FLOAT_STR_ARY));
    }

    static lemma NothingMore(x: set<LibraryInstr>)
      ensures {} + x == x
    {
    }

    /** How far loading has come. */
    ghost predicate Progress(code: seq<F.Instr>, instrs: seq<LibraryInstr>, before: InstrSets)
      reads chars, ints, floats, instrs
    {
      && Made(code, instrs) && Recorded(code, instrs, before)
      && (forall j, k :: 0 <= j < k < |instrs| ==> instrs[j] != instrs[k])
      && forall i <- instrs :: i !in before.0 && i !in before.1 && i !in before.2
    }

    lemma NotKnown(code: seq<F.Instr>, instrs: seq<LibraryInstr>, before: InstrSets)
      requires Progress(code, instrs, before)
      ensures |instrs| >= 2 ==> instrs[|instrs| - 2] !in Known()
    {
      if |instrs| >= 2 { assert instrs[|instrs| - 2] in instrs; }
    }

    method LoadStatement(code: seq<F.Instr>, instrs: seq<LibraryInstr>,
                         ghost before: InstrSets) returns (ok: bool, next: LibraryInstr)
      requires Valid() && |instrs| < |code| && Progress(code, instrs, before)
      modifies chars, ints, floats
      ensures Valid() && SameValues() && fresh(next)
      ensures ok <==> TrapFine(code, old(Counts()), |instrs|)
      ensures ok ==> Progress(code, instrs + [next], before)
    {
      hide Instrs, ValuesOf, Registered, Operand, SameValues, Copies;
      NotKnown(code, instrs, before);
      ghost var registered := Registries();
      ok := true;
      if code[|instrs|].opcode == F.TRAP_RTRN { ok := Register(instrs); } else { SameNow(); }
      next := new LibraryInstr(code[|instrs|].opcode, Operand(code[|instrs|]));
      if ok { ProgressNext(code, instrs, next, before, registered); }
    }

    twostate lemma SameNow()
      requires chars.entries == old(chars.entries) && ints.entries == old(ints.entries) && floats.entries == old(floats.entries)
      ensures SameValues()
    {
    }

    lemma ProgressNext(code: seq<F.Instr>, instrs: seq<LibraryInstr>, next: LibraryInstr,
                       before: InstrSets,
                       registered: InstrSets)
      requires |instrs| < |code| && Made(code, instrs)
      requires next.opcode == code[|instrs|].opcode && next.operand == Operand(code[|instrs|])
      requires forall j, k :: 0 <= j < k < |instrs| ==> instrs[j] != instrs[k]
      requires next !in instrs && forall i <- instrs + [next] :: i !in before.0 && i !in before.1 && i !in before.2
      requires registered.0 == before.0 + Copies(code, instrs, CPY_CHAR_STR_ARY)
      requires registered.1 == before.1 + Copies(code, instrs, CPY_INT_STR_ARY)
      requires registered.2 == before.2 + Copies(code, instrs, CPY_FLOAT_STR_ARY)
      requires var trap := code[|instrs|].opcode == F.TRAP_RTRN;
        && Instrs(chars.entries) == registered.0 + (if trap then Wanted(instrs, CPY_CHAR_STR_ARY) else {})
        && Instrs(ints.entries) == registered.1 + (if trap then Wanted(instrs, CPY_INT_STR_ARY) else {})
        && Instrs(floats.entries) == registered.2 + (if trap then Wanted(instrs, CPY_FLOAT_STR_ARY) else {})
      ensures Progress(code, instrs + [next], before)
    {
      MadeNext(code, instrs, next);
      CopiesNext(code, instrs, next, CPY_CHAR_STR_ARY);
      CopiesNext(code, instrs, next, CPY_INT_STR_ARY);
      CopiesNext(code, instrs, next, CPY_FLOAT_STR_ARY);
      WantedExact(code, instrs, CPY_CHAR_STR_ARY);
      WantedExact(code, instrs, CPY_INT_STR_ARY);
      WantedExact(code, instrs, CPY_FLOAT_STR_ARY);
      hide Instrs, Operand, Made, Copies, CopyAt, Wanted;
    }

    static lemma WantedExact(code: seq<F.Instr>, instrs: seq<LibraryInstr>, id: int)
      requires |instrs| < |code| && Made(code, instrs)
      ensures var n := |instrs|;
        (if code[n].opcode == F.TRAP_RTRN then Wanted(instrs, id) else {}) == if n >= 2 && CopyAt(code, n - 2, id) then {instrs[n - 2]} else {}
    {
    }

    /** Builds the instructions of a method; every trap that copies a constant registers the instruction with the
        constant's index, and no other is registered. Fails exactly on an index outside the pool, or a trap with too
        little code in front of it. */
    method LoadStatements(code: seq<F.Instr>) returns (ok: bool, instrs: seq<LibraryInstr>)
      requires Valid()
      modifies chars, ints, floats
      ensures Valid() && SameValues()
      ensures ok <==> Loadable(code, old(Counts()))
      ensures ok ==> |instrs| == |code| && Made(code, instrs) && forall j :: 0 <= j < |instrs| ==> fresh(instrs[j])
      ensures ok ==> forall j, k :: 0 <= j < k < |instrs| ==> instrs[j] != instrs[k]
      ensures ok ==> Recorded(code, instrs, old(Registries()))
    {
      instrs := [];
      ghost var before, counts := Registries(), Counts();
      while |instrs| < |code|
        invariant |instrs| <= |code| && Valid() && SameValues() && Progress(code, instrs, before)
        invariant forall j :: 0 <= j < |instrs| ==> fresh(instrs[j])
        invariant forall t :: 0 <= t < |instrs| ==> TrapFine(code, counts, t)
        decreases |code| - |instrs|
      {
        hide Progress, Instrs, ValuesOf, Registered, TrapFine;
        SameCounts();
        ghost var n := |instrs|;
        var good, next := LoadStatement(code, instrs, before);
        if !good {
          assert !TrapFine(code, counts, n);
          return false, instrs;
        }
        instrs := instrs + [next];
      }
      return true, instrs;
    }
  }

  // ----- From the libraries' pools to the program's -----

  /** The constants of all libraries, one library after the other. */
  function Gathered<T(!new)>(registries: seq<Registry<T>>): seq<Entry<T>>
    reads registries
  {
    if registries == [] then [] else registries[0].entries + Gathered(registries[1..])
  }

  ghost predicate AllValid<T(!new)>(registries: seq<Registry<T>>)
    reads registries, set r, i | r in registries && i in Instrs(r.entries) :: i
  {
    forall r <- registries :: r.Valid()
  }

  lemma {:induction false} GatheredAt<T(!new)>(registries: seq<Registry<T>>, r: nat, e: nat) returns (g: nat)
    requires r < |registries| && e < |registries[r].entries|
    ensures g < |Gathered(registries)| && Gathered(registries)[g] == registries[r].entries[e]
  {
    if r == 0 {
      g := e;
    } else {
      g := GatheredAt(registries[1..], r - 1, e);
      g := g + |registries[0].entries|;
    }
  }

  /** A registered instruction named, in the pool of its own library, a constant like the one it names now. */
  twostate predicate SameConstant<T(!new)>(same: (T, T) -> bool, values: seq<T>, pool: seq<T>, i: LibraryInstr)
    reads i
  {
    var was := old(i.operand);
    && 0 <= was < |values|
    && (same(values[was], values[was]) ==> 0 <= i.operand < |pool| && same(values[was], pool[i.operand]))
    && (!same(values[was], values[was]) ==> i.operand == was)
  }

  /** After the merge every copy instruction of every library copies a constant like the one it copied before;
      constants not equal to themselves are the exception, and their instructions keep the old index. */
  method MergePools<T(!new)>(same: (T, T) -> bool, program: seq<T>, registries: seq<Registry<T>>) returns (pool: seq<T>)
    requires Comparison(same) && AllValid(registries) && Registered(Gathered(registries))
    modifies Instrs(Gathered(registries))
    ensures program <= pool && pool == Pool(same, program, old(Gathered(registries)))
    ensures forall r <- registries, i <- Instrs(r.entries) :: SameConstant(same, ValuesOf(r.entries), pool, i)
  {
    ghost var entries := Gathered(registries);
    pool := EmitPool(same, program, Gathered(registries));
    PoolKeepsProgram(same, program, entries);
    forall r, i | r in registries && i in Instrs(r.entries) ensures SameConstant(same, ValuesOf(r.entries), pool, i) {
      var n :| 0 <= n < |registries| && registries[n] == r;
      var e, k :| 0 <= e < |r.entries| && 0 <= k < |r.entries[e].instrs| && r.entries[e].instrs[k] == i;
      var g := GatheredAt(registries, n, e);
      Found(same, program, entries, g);
      assert Pointed(same, pool, entries, g);
    }
  }

  /** A copied constant of the library is found, at the new operand, in the program's pool; if it is not equal to itself, the
      operand stays. */
  predicate Copied<T>(same: (T, T) -> bool, values: seq<T>, pool: seq<T>, was: int, now: int) {
    && 0 <= was < |values|
    && if same(values[was], values[was]) then 0 <= now < |pool| && same(values[was], pool[now]) else now == was
  }

  lemma OneRegistry<T(!new)>(registries: seq<Registry<T>>)
    requires |registries| == 1
    ensures Gathered(registries) == registries[0].entries
  {
    assert registries[1..] == [] && registries[0].entries + [] == registries[0].entries;
  }

  /** Instruction j of the code and the one loaded for it, behind the merge. */
  predicate Settled(l: F.Library, code: seq<F.Instr>, j: nat, now: int, chars: seq<F.WString>, ints: seq<seq<int>>,
                    floats: seq<seq<F.Double>>, sameFloats: (seq<F.Double>, seq<F.Double>) -> bool)
    requires j < |code|
  {
    && (CopyAt(code, j, CPY_CHAR_STR_ARY) ==>
          Copied((x: F.WString, y: F.WString) => x == y, l.charStrings, chars, Operand(code[j]), now))
    && (CopyAt(code, j, CPY_INT_STR_ARY) ==>
          Copied((x: seq<int>, y: seq<int>) => x == y, l.intStrings, ints, Operand(code[j]), now))
    && (CopyAt(code, j, CPY_FLOAT_STR_ARY) ==> Copied(sameFloats, l.floatStrings, floats, Operand(code[j]), now))
    && (!CopyAt(code, j, CPY_CHAR_STR_ARY) && !CopyAt(code, j, CPY_INT_STR_ARY) && !CopyAt(code, j, CPY_FLOAT_STR_ARY) ==>
          now == Operand(code[j]))
  }

  /** The three kinds of constants, one after the other. */
  method MergeKinds(l: F.Library, strings: LibraryStrings, code: seq<F.Instr>, instrs: seq<LibraryInstr>, charStrings: seq<F.WString>,
                    intStrings: seq<seq<int>>, floatStrings: seq<seq<F.Double>>,
                    sameFloats: (seq<F.Double>, seq<F.Double>) -> bool)
    returns (chars: seq<F.WString>, ints: seq<seq<int>>, floats: seq<seq<F.Double>>)
    requires Comparison(sameFloats) && strings.Valid() && |instrs| == |code| && Made(code, instrs)
    requires forall j, k :: 0 <= j < k < |instrs| ==> instrs[j] != instrs[k]
    requires strings.Registries() ==
      (Copies(code, instrs, CPY_CHAR_STR_ARY), Copies(code, instrs, CPY_INT_STR_ARY), Copies(code, instrs, CPY_FLOAT_STR_ARY))
    requires ValuesOf(strings.chars.entries) == l.charStrings && ValuesOf(strings.ints.entries) == l.intStrings
    requires ValuesOf(strings.floats.entries) == l.floatStrings
    modifies instrs
    ensures charStrings <= chars && intStrings <= ints && floatStrings <= floats
    ensures forall j :: 0 <= j < |code| ==> Settled(l, code, j, instrs[j].operand, chars, ints, floats, sameFloats)
  {
    ghost var cs, ns := Copies(code, instrs, CPY_CHAR_STR_ARY), Copies(code, instrs, CPY_INT_STR_ARY);
    ghost var fs := Copies(code, instrs, CPY_FLOAT_STR_ARY);
    CopiesApart(code, instrs, CPY_CHAR_STR_ARY, CPY_INT_STR_ARY);
    CopiesApart(code, instrs, CPY_INT_STR_ARY, CPY_FLOAT_STR_ARY);
    CopiesApart(code, instrs, CPY_FLOAT_STR_ARY, CPY_CHAR_STR_ARY);
    hide Instrs, ValuesOf, Registered, Comparison, Copied, Copies, CopyAt;
    EqualityCompares<F.WString>();
    chars := MergeOne((x: F.WString, y: F.WString) => x == y, charStrings, strings.chars);
    ints := MergeOne((x: seq<int>, y: seq<int>) => x == y, intStrings, strings.ints);
    floats := MergeOne(sameFloats, floatStrings, strings.floats);
    forall j | 0 <= j < |code| ensures Settled(l, code, j, instrs[j].operand, chars, ints, floats, sameFloats) {
      CopiesExact(code, instrs, CPY_CHAR_STR_ARY, j);
      CopiesExact(code, instrs, CPY_INT_STR_ARY, j);
      CopiesExact(code, instrs, CPY_FLOAT_STR_ARY, j);
      assert old(instrs[j].operand) == Operand(code[j]);
    }
  }

  lemma EqualityCompares<T(!new)>()
    ensures Comparison((x: T, y: T) => x == y)
  {
  }

  method MergeOne<T(!new)>(same: (T, T) -> bool, program: seq<T>, registry: Registry<T>) returns (pool: seq<T>)
    requires Comparison(same) && registry.Valid()
    modifies Instrs(registry.entries)
    ensures program <= pool
    ensures forall i <- Instrs(registry.entries) :: Copied(same, ValuesOf(registry.entries), pool, old(i.operand), i.operand)
  {
    var registries := [registry];
    OneRegistry(registries);
    pool := MergePools(same, program, registries);
    forall i | i in Instrs(registry.entries) ensures Copied(same, ValuesOf(registry.entries), pool, old(i.operand), i.operand) {
      assert registries[0] in registries;
      assert SameConstant(same, ValuesOf(registry.entries), pool, i);
    }
  }

  /** From a library's instructions to the program: wherever the code copies a constant, of any kind, the instruction loaded
      for it copies an equal constant of the merged pool; every other instruction keeps its operand. */
  method LoadAndMerge(l: F.Library, code: seq<F.Instr>, charStrings: seq<F.WString>, intStrings: seq<seq<int>>,
                      floatStrings: seq<seq<F.Double>>, sameFloats: (seq<F.Double>, seq<F.Double>) -> bool)
    returns (ok: bool, instrs: seq<LibraryInstr>, chars: seq<F.WString>, ints: seq<seq<int>>, floats: seq<seq<F.Double>>)
    requires Comparison(sameFloats)
    ensures ok <==> Loadable(code, SizesOf(l))
    ensures ok ==> |instrs| == |code| && charStrings <= chars && intStrings <= ints && floatStrings <= floats
    ensures ok ==> forall j :: 0 <= j < |code| ==>
      instrs[j].opcode == code[j].opcode && Settled(l, code, j, instrs[j].operand, chars, ints, floats, sameFloats)
  {
    var strings := new LibraryStrings(l);
    chars, ints, floats := charStrings, intStrings, floatStrings;
    ok, instrs := strings.LoadStatements(code);
    if ok {
      hide Instrs, Loadable, ValuesOf, Registered, Comparison, Copied, Made, Copies, Settled;
      strings.FromNothing(code, instrs);
      chars, ints, floats := MergeKinds(l, strings, code, instrs, charStrings, intStrings, floatStrings, sameFloats);
    }
  }
}
