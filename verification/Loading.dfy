// From the file to the linker: loaded methods are what relinking works on.

module Loading {
  import opened Wrappers
  import F = FileFormat
  import R = RoundTrip
  import opened Linking

  /** A loaded instruction as the linker looks at it. */
  function Symbolic(i: F.Instr): LibInstr {
    match i.operands
    case Class(cls) =>
      if i.opcode == F.LIB_NEW_OBJ_INST then LIB_NEW_OBJ_INST(cls)
      else if i.opcode == F.LIB_OBJ_INST_CAST then LIB_OBJ_INST_CAST(cls) else PLAIN(i.opcode)
    case Call(native, cls, mthd) => if i.opcode == F.LIB_MTHD_CALL then LIB_MTHD_CALL(cls, mthd, native) else PLAIN(i.opcode)
    case Function(cls, mthd) => if i.opcode == F.LIB_FUNC_DEF then LIB_FUNC_DEF(cls, mthd) else PLAIN(i.opcode)
    case Three(a, b, c) => if i.opcode == F.MTHD_CALL then MTHD_CALL(a, b, c) else PLAIN(i.opcode)
    case One(a) =>
      if i.opcode == F.LOAD_INT_LIT then LOAD_INT_LIT(a)
      else if i.opcode == F.NEW_OBJ_INST then NEW_OBJ_INST(a)
      else if i.opcode == F.OBJ_INST_CAST then OBJ_INST_CAST(a) else PLAIN(i.opcode)
    case _ => PLAIN(i.opcode)
  }

  /** By opcode: what the five kinds of instructions the linker rewrites carry, and that no other is taken for one of them. */
  lemma SymbolicText(i: F.Instr)
    requires R.GoodInstr(i)
    ensures i.opcode == F.LIB_NEW_OBJ_INST ==> Symbolic(i) == LIB_NEW_OBJ_INST(i.operands.cls)
    ensures i.opcode == F.LIB_OBJ_INST_CAST ==> Symbolic(i) == LIB_OBJ_INST_CAST(i.operands.cls)
    ensures i.opcode == F.LIB_MTHD_CALL ==> Symbolic(i) == LIB_MTHD_CALL(i.operands.cls, i.operands.mthd, i.operands.native)
    ensures i.opcode == F.LIB_FUNC_DEF ==> Symbolic(i) == LIB_FUNC_DEF(i.operands.cls, i.operands.mthd)
    ensures i.opcode == F.LOAD_INT_LIT ==> Symbolic(i) == LOAD_INT_LIT(i.operands.a)
    ensures i.opcode !in {F.LIB_NEW_OBJ_INST, F.LIB_OBJ_INST_CAST, F.LIB_MTHD_CALL, F.LIB_FUNC_DEF} ==>
      !Follows(Symbolic(i)) && !Symbolic(i).LIB_FUNC_DEF?
  {
  }

  function AllSymbolic(instrs: seq<F.Instr>): (r: seq<LibInstr>)
    ensures |r| == |instrs| && forall j :: 0 <= j < |r| ==> r[j] == Symbolic(instrs[j])
  {
    seq(|instrs|, j requires 0 <= j < |instrs| => Symbolic(instrs[j]))
  }

  lemma PlacedHeld(instrs: seq<F.Instr>)
    requires R.Placed(instrs)
    ensures Placeheld(AllSymbolic(instrs))
  {
    var s := AllSymbolic(instrs);
    forall j | 0 <= j < |s| && s[j].LIB_FUNC_DEF? ensures j + 1 < |s| && s[j + 1].LOAD_INT_LIT? {
      assert s[j] == Symbolic(instrs[j]) && instrs[j].opcode == F.LIB_FUNC_DEF;
      assert s[j + 1] == Symbolic(instrs[j + 1]);
    }
  }

  // ----- Everything taken from a file -----

  ghost predicate Gives<T(!new)>(take: seq<F.Byte> -> Option<F.Read<T>>, good: T -> bool) {
    forall bytes: seq<F.Byte> {:trigger take(bytes)} :: take(bytes).Some? ==> good(take(bytes).value.value)
  }

  lemma {:induction false} ManyGood<T(!new)>(take: seq<F.Byte> -> Option<F.Read<T>>, n: nat, bytes: seq<F.Byte>, good: T -> bool)
    requires Gives(take, good)
    ensures var r := F.TakeMany(take, n, bytes); r.Some? ==> forall v <- r.value.value :: good(v)
    decreases n
  {
    if n > 0 && F.TakeMany(take, n, bytes).Some? {
      ManyGood(take, n - 1, take(bytes).value.rest, good);
    }
  }

  lemma ListGood<T(!new)>(take: seq<F.Byte> -> Option<F.Read<T>>, bytes: seq<F.Byte>, good: T -> bool)
    requires Gives(take, good)
    ensures var r := F.TakeList(take, bytes); r.Some? ==> forall v <- r.value.value :: good(v)
  {
    var n := F.TakeInt(bytes);
    if n.Some? { ManyGood(take, if n.value.value < 0 then 0 else n.value.value, n.value.rest, good); }
  }

  predicate MethodPlaced(m: F.Method) {
    R.Placed(m.instrs)
  }

  lemma TakenMethod(c: F.Codec, debug: bool, bytes: seq<F.Byte>)
    ensures var r := F.TakeMethod(c, debug, bytes); r.Some? ==> MethodPlaced(r.value.value)
  {
    hide F.TakeInt, F.TakeBool, F.TakeString, F.TakeEntries, F.TakeStatements, R.Placed;
    forall b: seq<F.Byte> ensures F.TakeStatements(c, debug, b).Some? ==> R.Placed(F.TakeStatements(c, debug, b).value.value) {
      R.LoadedPlaced(c, debug, b);
    }
  }

  predicate ClassPlaced(k: F.ClassDef) {
    forall m <- k.methods :: MethodPlaced(m)
  }

  lemma TakenMethods(c: F.Codec, debug: bool, bytes: seq<F.Byte>)
    ensures var r := F.TakeMethods(c, debug, bytes); r.Some? ==> forall m <- r.value.value :: MethodPlaced(m)
  {
    hide F.TakeMethod, F.TakeList, MethodPlaced;
    var take := (b: seq<F.Byte>) => F.TakeMethod(c, debug, b);
    forall b: seq<F.Byte> ensures take(b).Some? ==> MethodPlaced(take(b).value.value) { TakenMethod(c, debug, b); }
    ListGood(take, bytes, (m: F.Method) => MethodPlaced(m));
  }

  lemma TakenClass(c: F.Codec, bytes: seq<F.Byte>)
    ensures var r := F.TakeClass(c, bytes); r.Some? ==> ClassPlaced(r.value.value)
  {
    hide F.TakeInt, F.TakeBool, F.TakeString, F.TakeEntries, F.TakeList, F.TakeMethods, MethodPlaced;
    forall debug: bool, b: seq<F.Byte>
      ensures F.TakeMethods(c, debug, b).Some? ==> forall m <- F.TakeMethods(c, debug, b).value.value :: MethodPlaced(m)
    {
      TakenMethods(c, debug, b);
    }
  }

  lemma TakenClasses(c: F.Codec, bytes: seq<F.Byte>)
    ensures var r := F.TakeClasses(c, bytes); r.Some? ==> forall k <- r.value.value :: ClassPlaced(k)
  {
    hide F.TakeClass, F.TakeList, ClassPlaced;
    var take := (b: seq<F.Byte>) => F.TakeClass(c, b);
    forall b: seq<F.Byte> ensures take(b).Some? ==> ClassPlaced(take(b).value.value) { TakenClass(c, b); }
    ListGood(take, bytes, (k: F.ClassDef) => ClassPlaced(k));
  }

  /** Every method of every class loaded from a file, whatever its bytes, has the placeholders relinking asks for. */
  lemma LoadedHeld(c: F.Codec, bytes: seq<F.Byte>)
    ensures var l := F.TakeLibrary(c, bytes);
      l.Some? ==> forall k <- l.value.value.classes, m <- k.methods :: Placeheld(AllSymbolic(m.instrs))
  {
    hide F.TakeInt, F.TakeString, F.TakeDouble, F.TakeEnum, F.TakeList, F.TakeClasses, Placeheld;
    forall b: seq<F.Byte> ensures F.TakeClasses(c, b).Some? ==> forall k <- F.TakeClasses(c, b).value.value :: ClassPlaced(k) {
      TakenClasses(c, b);
    }
    var l := F.TakeLibrary(c, bytes);
    if l.Some? {
      forall k, m | k in l.value.value.classes && m in k.methods ensures Placeheld(AllSymbolic(m.instrs)) {
        assert ClassPlaced(k) && MethodPlaced(m);
        PlacedHeld(m.instrs);
      }
    }
  }
}
