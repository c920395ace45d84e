// The binary library format: the bytes of every part of a library and how they are taken apart again.

module FileFormat {
  import opened Wrappers
  import opened Words

  type Byte = b: int | 0 <= b < 256

  /** Code points of a wide string. */
  type WString = seq<int>

  /** A double is the eight bytes it is stored in. */
  type Double = d: seq<Byte> | |d| == 8 witness [0, 0, 0, 0, 0, 0, 0, 0]

  /** The platform's conversion between wide strings and bytes. */
  datatype Codec = Codec(encode: WString -> seq<Byte>, decode: seq<Byte> -> Option<WString>)

  /** The text is decoded from its bytes, and their number fits a word. */
  predicate GoodText(c: Codec, s: WString) {
    c.decode(c.encode(s)) == Some(s) && |c.encode(s)| < 0x8000_0000
  }

  /** The character 0 has no bytes; every other needs some. */
  predicate GoodChar(c: Codec, code: int) {
    code == 0 || (GoodText(c, [code]) && c.encode([code]) != [])
  }

  const VER_NUM := 3260
  const MAGIC_NUM_LIB := 0xddde

  // ----- Opcodes with operands -----

  const LOAD_INT_LIT := 0
  const LOAD_CHAR_LIT := 1
  const LOAD_FLOAT_LIT := 2
  const LOAD_INT_VAR := 3
  const LOAD_FLOAT_VAR := 6
  const LOAD_FUNC_VAR := 7
  const STOR_INT_VAR := 10
  const STOR_FLOAT_VAR := 13
  const STOR_FUNC_VAR := 14
  const COPY_INT_VAR := 15
  const COPY_FLOAT_VAR := 18
  const COPY_FUNC_VAR := 19
  const LOAD_BYTE_ARY_ELM := 20
  const LOAD_CHAR_ARY_ELM := 21
  const LOAD_INT_ARY_ELM := 22
  const LOAD_FLOAT_ARY_ELM := 23
  const STOR_BYTE_ARY_ELM := 24
  const STOR_CHAR_ARY_ELM := 25
  const STOR_INT_ARY_ELM := 26
  const STOR_FLOAT_ARY_ELM := 27
  const MTHD_CALL := 71
  const DYN_MTHD_CALL := 72
  const JMP := 73
  const LBL := 74
  const NEW_BYTE_ARY := 76
  const NEW_CHAR_ARY := 77
  const NEW_INT_ARY := 78
  const NEW_FLOAT_ARY := 79
  const NEW_OBJ_INST := 80
  const OBJ_INST_CAST := 85
  const OBJ_TYPE_OF := 86
  const TRAP := 87
  const TRAP_RTRN := 88
  const ASYNC_MTHD_CALL := 95
  const LIB_NEW_OBJ_INST := 101
  const LIB_MTHD_CALL := 102
  const LIB_OBJ_INST_CAST := 103
  const LIB_FUNC_DEF := 104
  const END_STMTS := 105

  /** Opcodes only the machine uses. */
  const MACHINE_ONLY := {4, 5, 11, 12, 16, 17}

  datatype Format = Bare | OneInt | TwoInts | ThreeInts | OneChar | OneDouble | ClassName | NativeNames | Names

  /** What the compiler writes behind an opcode. */
  function WriteFormat(op: int): Format {
    if op in {LOAD_INT_LIT, NEW_FLOAT_ARY, NEW_INT_ARY, NEW_BYTE_ARY, NEW_CHAR_ARY, NEW_OBJ_INST, OBJ_INST_CAST, OBJ_TYPE_OF,
              TRAP, TRAP_RTRN} then OneInt
    else if op == LOAD_CHAR_LIT then OneChar
    else if op in {ASYNC_MTHD_CALL, MTHD_CALL} then ThreeInts
    else if op in {LIB_NEW_OBJ_INST, LIB_OBJ_INST_CAST} then ClassName
    else if op == LIB_MTHD_CALL then NativeNames
    else if op == LIB_FUNC_DEF then Names
    else if op in {JMP, DYN_MTHD_CALL, LOAD_INT_VAR, LOAD_FLOAT_VAR, LOAD_FUNC_VAR, STOR_INT_VAR, STOR_FLOAT_VAR, STOR_FUNC_VAR,
                   COPY_INT_VAR, COPY_FLOAT_VAR, COPY_FUNC_VAR, LOAD_BYTE_ARY_ELM, LOAD_CHAR_ARY_ELM, LOAD_INT_ARY_ELM,
                   LOAD_FLOAT_ARY_ELM, STOR_BYTE_ARY_ELM, STOR_CHAR_ARY_ELM, STOR_INT_ARY_ELM, STOR_FLOAT_ARY_ELM} then TwoInts
    else if op == LOAD_FLOAT_LIT then OneDouble
    else if op == LBL then OneInt
    else Bare
  }

  /** What the linker reads behind an opcode; None stops it. */
  function ReadFormat(op: int): Option<Format> {
    if op < 0 || op >= END_STMTS then None
    else if op == LOAD_INT_LIT then Some(OneInt)
    else if op == LOAD_CHAR_LIT then Some(OneChar)
    else if op in {LOAD_INT_VAR, LOAD_FUNC_VAR, LOAD_FLOAT_VAR, STOR_INT_VAR, STOR_FUNC_VAR, STOR_FLOAT_VAR, COPY_INT_VAR,
                   COPY_FLOAT_VAR} then Some(TwoInts)
    else if op in {NEW_INT_ARY, NEW_FLOAT_ARY, NEW_BYTE_ARY, NEW_CHAR_ARY, NEW_OBJ_INST} then Some(OneInt)
    else if op in {JMP, DYN_MTHD_CALL} then Some(TwoInts)
    else if op == LBL then Some(OneInt)
    else if op in {MTHD_CALL, ASYNC_MTHD_CALL} then Some(ThreeInts)
    else if op in {LIB_OBJ_INST_CAST, LIB_NEW_OBJ_INST} then Some(ClassName)
    else if op == LIB_MTHD_CALL then Some(NativeNames)
    else if op == LIB_FUNC_DEF then Some(Names)
    else if op in {OBJ_INST_CAST, OBJ_TYPE_OF} then Some(OneInt)
    else if op in {LOAD_BYTE_ARY_ELM, LOAD_CHAR_ARY_ELM, LOAD_INT_ARY_ELM, LOAD_FLOAT_ARY_ELM, STOR_BYTE_ARY_ELM,
                   STOR_CHAR_ARY_ELM, STOR_INT_ARY_ELM, STOR_FLOAT_ARY_ELM} then Some(TwoInts)
    else if op in {TRAP, TRAP_RTRN} then Some(OneInt)
    else if op == LOAD_FLOAT_LIT then Some(OneDouble)
    else if op in MACHINE_ONLY || op == COPY_FUNC_VAR then None
    else Some(Bare)
  }

  /** The linker reads what the compiler writes, except copies of function variables. */
  lemma FormatsAgree(op: int)
    requires 0 <= op < END_STMTS
    ensures ReadFormat(op) == Some(WriteFormat(op)) <==> op !in MACHINE_ONLY && op != COPY_FUNC_VAR
    ensures ReadFormat(op) != Some(WriteFormat(op)) ==> ReadFormat(op).None?
  {
  }

  // ----- What a library holds -----

  datatype Operands =
    | Nothing
    | One(a: int)
    | Two(a: int, b: int)
    | Three(a: int, b: int, c: int)
    | Character(code: int)
    | Real(double: Double)
    | Class(cls: WString)
    | Call(native: int, cls: WString, mthd: WString)
    | Function(cls: WString, mthd: WString)

  datatype Instr = Instr(opcode: int, line: int, operands: Operands)

  datatype Entry = Entry(kind: int, name: WString)

  datatype Method = Method(
    id: int,
    kind: int,
    isVirtual: bool,
    hasAndOr: bool,
    isNative: bool,
    isFunction: bool,
    name: WString,
    rtrn: WString,
    params: int,
    space: int,
    entries: seq<Entry>,
    instrs: seq<Instr>)

  datatype ClassDef = ClassDef(
    id: int,
    name: WString,
    pid: int,
    parent: WString,
    interfaceIds: seq<int>,
    interfaceNames: seq<WString>,
    isInterface: bool,
    isVirtual: bool,
    isDebug: bool,
    fileName: WString,
    clsSpace: int,
    instSpace: int,
    clsEntries: seq<Entry>,
    instEntries: seq<Entry>,
    methods: seq<Method>)

  datatype EnumItem = EnumItem(name: WString, id: int)

  datatype EnumDef = EnumDef(name: WString, offset: int, items: seq<EnumItem>)

  datatype Library = Library(
    floatStrings: seq<seq<Double>>,
    intStrings: seq<seq<int>>,
    charStrings: seq<WString>,
    bundles: seq<WString>,
    enums: seq<EnumDef>,
    classes: seq<ClassDef>)

  // ----- Writing -----

  function IntBytes(n: int): seq<Byte> {
    var u := n % TWO_32;
    [u % 256, u / 256 % 256, u / 0x1_0000 % 256, u / 0x100_0000]
  }

  function StringBytes(c: Codec, s: WString): seq<Byte> {
    IntBytes(|c.encode(s)|) + c.encode(s)
  }

  /** The character 0 has no bytes. */
  function CharBytes(c: Codec, code: int): seq<Byte> {
    if code == 0 then IntBytes(0) else StringBytes(c, [code])
  }

  function BoolBytes(b: bool): seq<Byte> {
    IntBytes(Bool(b))
  }

  function All<T>(bytes: T -> seq<Byte>, values: seq<T>): seq<Byte> {
    if values == [] then [] else bytes(values[0]) + All(bytes, values[1..])
  }

  function ListBytes<T>(bytes: T -> seq<Byte>, values: seq<T>): seq<Byte> {
    IntBytes(|values|) + All(bytes, values)
  }

  function OperandBytes(c: Codec, o: Operands): seq<Byte> {
    match o
    case Nothing => []
    case One(a) => IntBytes(a)
    case Two(a, b) => IntBytes(a) + IntBytes(b)
    case Three(a, b, d) => IntBytes(a) + (IntBytes(b) + IntBytes(d))
    case Character(code) => CharBytes(c, code)
    case Real(double) => double
    case Class(cls) => StringBytes(c, cls)
    case Call(native, cls, mthd) => IntBytes(native) + (StringBytes(c, cls) + StringBytes(c, mthd))
    case Function(cls, mthd) => StringBytes(c, cls) + StringBytes(c, mthd)
  }

  function OpcodeByte(op: int): Byte {
    op % 256
  }

  function InstrBytes(c: Codec, debug: bool, i: Instr): seq<Byte> {
    [OpcodeByte(i.opcode)] + ((if debug then IntBytes(i.line) else []) + OperandBytes(c, i.operands))
  }

  function EntryBytes(c: Codec, debug: bool, e: Entry): seq<Byte> {
    IntBytes(e.kind) + if debug then StringBytes(c, e.name) else []
  }

  function EntriesBytes(c: Codec, debug: bool, entries: seq<Entry>): seq<Byte> {
    ListBytes((e: Entry) => EntryBytes(c, debug, e), entries)
  }

  function StatementsBytes(c: Codec, debug: bool, instrs: seq<Instr>): seq<Byte> {
    All((i: Instr) => InstrBytes(c, debug, i), instrs) + [OpcodeByte(END_STMTS)]
  }

  function MethodBytes(c: Codec, debug: bool, m: Method): seq<Byte> {
    IntBytes(m.id) + (IntBytes(m.kind) + (BoolBytes(m.isVirtual) + (BoolBytes(m.hasAndOr) + (BoolBytes(m.isNative)
    + (BoolBytes(m.isFunction) + (StringBytes(c, m.name) + (StringBytes(c, m.rtrn) + (IntBytes(m.params) + (IntBytes(m.space)
    + (EntriesBytes(c, debug, m.entries) + StatementsBytes(c, debug, m.instrs)))))))))))
  }

  function ClassBytes(c: Codec, k: ClassDef): seq<Byte> {
    IntBytes(k.id) + (StringBytes(c, k.name) + (IntBytes(k.pid) + (StringBytes(c, k.parent) + (IntsBytes(k.interfaceIds)
    + (StringsBytes(c, k.interfaceNames) + (BoolBytes(k.isInterface) + (BoolBytes(k.isVirtual)
    + (BoolBytes(k.isDebug) + ((if k.isDebug then StringBytes(c, k.fileName) else []) + (IntBytes(k.clsSpace) + (IntBytes(k.instSpace)
    + (EntriesBytes(c, k.isDebug, k.clsEntries) + (EntriesBytes(c, k.isDebug, k.instEntries)
    + MethodsBytes(c, k.isDebug, k.methods))))))))))))))
  }

  function ItemBytes(c: Codec, i: EnumItem): seq<Byte> {
    StringBytes(c, i.name) + IntBytes(i.id)
  }

  function EnumBytes(c: Codec, e: EnumDef): seq<Byte> {
    StringBytes(c, e.name) + (IntBytes(e.offset) + ListBytes((i: EnumItem) => ItemBytes(c, i), e.items))
  }

  function DoublesBytes(ds: seq<Double>): seq<Byte> {
    ListBytes((d: Double) => d, ds)
  }

  function IntsBytes(ns: seq<int>): seq<Byte> {
    ListBytes(IntBytes, ns)
  }

  function StringsBytes(c: Codec, ss: seq<WString>): seq<Byte> {
    ListBytes((s: WString) => StringBytes(c, s), ss)
  }

  function MethodsBytes(c: Codec, debug: bool, methods: seq<Method>): seq<Byte> {
    ListBytes((m: Method) => MethodBytes(c, debug, m), methods)
  }

  function EnumsBytes(c: Codec, enums: seq<EnumDef>): seq<Byte> {
    ListBytes((e: EnumDef) => EnumBytes(c, e), enums)
  }

  function ClassesBytes(c: Codec, classes: seq<ClassDef>): seq<Byte> {
    ListBytes((k: ClassDef) => ClassBytes(c, k), classes)
  }

  function LibraryBytes(c: Codec, l: Library): seq<Byte> {
    IntBytes(VER_NUM) + (IntBytes(MAGIC_NUM_LIB) + (ListBytes(DoublesBytes, l.floatStrings) + (ListBytes(IntsBytes, l.intStrings)
    + (StringsBytes(c, l.charStrings) + (StringsBytes(c, l.bundles)
    + (EnumsBytes(c, l.enums) + ClassesBytes(c, l.classes)))))))
  }

  // ----- Reading; None is the linker giving up -----

  datatype Read<+T> = Read(value: T, rest: seq<Byte>)

  function TakeInt(bytes: seq<Byte>): (r: Option<Read<int>>)
    ensures r.Some? ==> |r.value.rest| < |bytes|
  {
    if |bytes| < 4 then None
    else Some(Read(LittleEndian(bytes[0], bytes[1], bytes[2], bytes[3]), bytes[4..]))
  }

  function LittleEndian(a: int, b: int, c: int, d: int): int {
    Wrap(a + 256 * b + 0x1_0000 * c + 0x100_0000 * d)
  }

  function TakeBool(bytes: seq<Byte>): Option<Read<bool>> {
    var r := TakeInt(bytes);
    if r.None? then None else Some(Read(r.value.value != 0, r.value.rest))
  }

  function TakeString(c: Codec, bytes: seq<Byte>): (r: Option<Read<WString>>)
    ensures r.Some? ==> |r.value.rest| < |bytes|
  {
    var size := TakeInt(bytes);
    if size.None? || !(0 <= size.value.value <= |size.value.rest|) then None else
    var s := c.decode(size.value.rest[..size.value.value]);
    if s.None? then None else Some(Read(s.value, size.value.rest[size.value.value..]))
  }

  function TakeChar(c: Codec, bytes: seq<Byte>): (r: Option<Read<int>>)
    ensures r.Some? ==> |r.value.rest| < |bytes|
  {
    var size := TakeInt(bytes);
    if size.None? then None
    else if size.value.value == 0 then Some(Read(0, size.value.rest))
    else
      var s := TakeString(c, bytes);
      if s.None? || |s.value.value| != 1 then None else Some(Read(s.value.value[0], s.value.rest))
  }

  function TakeDouble(bytes: seq<Byte>): (r: Option<Read<Double>>)
    ensures r.Some? ==> |r.value.rest| < |bytes|
  {
    if |bytes| < 8 then None else Some(Read(bytes[..8], bytes[8..]))
  }

  function TakeMany<T>(take: seq<Byte> -> Option<Read<T>>, n: nat, bytes: seq<Byte>): Option<Read<seq<T>>> {
    if n == 0 then Some(Read([], bytes)) else
    var first := take(bytes);
    if first.None? then None else
    var others := TakeMany(take, n - 1, first.value.rest);
    if others.None? then None else Some(Read([first.value.value] + others.value.value, others.value.rest))
  }

  /** A negative count reads nothing. */
  function TakeList<T>(take: seq<Byte> -> Option<Read<T>>, bytes: seq<Byte>): Option<Read<seq<T>>> {
    var n := TakeInt(bytes);
    if n.None? then None else TakeMany(take, if n.value.value < 0 then 0 else n.value.value, n.value.rest)
  }

  function TakeOperands(c: Codec, f: Format, bytes: seq<Byte>): (r: Option<Read<Operands>>)
    ensures r.Some? ==> |r.value.rest| <= |bytes|
  {
    match f
    case Bare => Some(Read(Nothing, bytes))
    case OneInt => var a := TakeInt(bytes); if a.None? then None else Some(Read(One(a.value.value), a.value.rest))
    case TwoInts =>
      var a := TakeInt(bytes); if a.None? then None else
      var b := TakeInt(a.value.rest); if b.None? then None else Some(Read(Two(a.value.value, b.value.value), b.value.rest))
    case ThreeInts =>
      var a := TakeInt(bytes); if a.None? then None else
      var b := TakeInt(a.value.rest); if b.None? then None else
      var d := TakeInt(b.value.rest); if d.None? then None else
      Some(Read(Three(a.value.value, b.value.value, d.value.value), d.value.rest))
    case OneChar => var a := TakeChar(c, bytes); if a.None? then None else Some(Read(Character(a.value.value), a.value.rest))
    case OneDouble => var d := TakeDouble(bytes); if d.None? then None else Some(Read(Real(d.value.value), d.value.rest))
    case ClassName => var s := TakeString(c, bytes); if s.None? then None else Some(Read(Class(s.value.value), s.value.rest))
    case NativeNames =>
      var a := TakeInt(bytes); if a.None? then None else
      var s := TakeString(c, a.value.rest); if s.None? then None else
      var t := TakeString(c, s.value.rest); if t.None? then None else
      Some(Read(Call(a.value.value, s.value.value, t.value.value), t.value.rest))
    case Names =>
      var s := TakeString(c, bytes); if s.None? then None else
      var t := TakeString(c, s.value.rest); if t.None? then None else
      Some(Read(Function(s.value.value, t.value.value), t.value.rest))
  }

  /** char is signed. */
  function Opcode(b: Byte): int {
    if b < 128 then b else b - 256
  }

  /** The line number of the next instruction; without debug information there is none. */
  function TakeLine(debug: bool, bytes: seq<Byte>): (r: Option<Read<int>>)
    ensures r.Some? ==> |r.value.rest| <= |bytes|
  {
    if debug then TakeInt(bytes) else Some(Read(-1, bytes))
  }

  /** A function reference is followed by a placeholder. */
  function Loaded(i: Instr): seq<Instr> {
    if i.opcode == LIB_FUNC_DEF then [i, Instr(LOAD_INT_LIT, i.line, One(-1))] else [i]
  }

  function TakeInstr(c: Codec, debug: bool, bytes: seq<Byte>): (r: Option<Read<Instr>>)
    requires bytes != []
    ensures r.Some? ==> |r.value.rest| < |bytes|
  {
    var op := Opcode(bytes[0]);
    var line := TakeLine(debug, bytes[1..]);
    if line.None? then None else
    var format := ReadFormat(op);
    if format.None? then None else
    var operands := TakeOperands(c, format.value, line.value.rest);
    if operands.None? then None else Some(Read(Instr(op, line.value.value, operands.value.value), operands.value.rest))
  }

  function TakeStatements(c: Codec, debug: bool, bytes: seq<Byte>): Option<Read<seq<Instr>>>
    decreases |bytes|
  {
    if bytes == [] then None
    else if Opcode(bytes[0]) == END_STMTS then Some(Read([], bytes[1..]))
    else
      var i := TakeInstr(c, debug, bytes);
      if i.None? then None else
      var others := TakeStatements(c, debug, i.value.rest);
      if others.None? then None else Some(Read(Loaded(i.value.value) + others.value.value, others.value.rest))
  }

  function TakeEntry(c: Codec, debug: bool, bytes: seq<Byte>): Option<Read<Entry>> {
    var kind := TakeInt(bytes); if kind.None? then None else
    if !debug then Some(Read(Entry(kind.value.value, []), kind.value.rest)) else
    var name := TakeString(c, kind.value.rest);
    if name.None? then None else Some(Read(Entry(kind.value.value, name.value.value), name.value.rest))
  }

  function TakeEntries(c: Codec, debug: bool, bytes: seq<Byte>): Option<Read<seq<Entry>>> {
    TakeList((b: seq<Byte>) => TakeEntry(c, debug, b), bytes)
  }

  function TakeMethod(c: Codec, debug: bool, bytes: seq<Byte>): Option<Read<Method>> {
    var id := TakeInt(bytes); if id.None? then None else
    var kind := TakeInt(id.value.rest); if kind.None? then None else
    var isVirtual := TakeBool(kind.value.rest); if isVirtual.None? then None else
    var hasAndOr := TakeBool(isVirtual.value.rest); if hasAndOr.None? then None else
    var isNative := TakeBool(hasAndOr.value.rest); if isNative.None? then None else
    var isFunction := TakeBool(isNative.value.rest); if isFunction.None? then None else
    var name := TakeString(c, isFunction.value.rest); if name.None? then None else
    var rtrn := TakeString(c, name.value.rest); if rtrn.None? then None else
    var params := TakeInt(rtrn.value.rest); if params.None? then None else
    var space := TakeInt(params.value.rest); if space.None? then None else
    var entries := TakeEntries(c, debug, space.value.rest); if entries.None? then None else
    var instrs := TakeStatements(c, debug, entries.value.rest); if instrs.None? then None else
    Some(Read(Method(id.value.value, kind.value.value, isVirtual.value.value, hasAndOr.value.value, isNative.value.value,
                     isFunction.value.value, name.value.value, rtrn.value.value, params.value.value, space.value.value,
                     entries.value.value, instrs.value.value), instrs.value.rest))
  }

  function TakeMethods(c: Codec, debug: bool, bytes: seq<Byte>): Option<Read<seq<Method>>> {
    TakeList((b: seq<Byte>) => TakeMethod(c, debug, b), bytes)
  }

  /** Class ids, parent ids and interface ids are read and forgotten. */
  function TakeClass(c: Codec, bytes: seq<Byte>): Option<Read<ClassDef>> {
    var id := TakeInt(bytes); if id.None? then None else
    var name := TakeString(c, id.value.rest); if name.None? then None else
    var pid := TakeInt(name.value.rest); if pid.None? then None else
    var parent := TakeString(c, pid.value.rest); if parent.None? then None else
    var interfaceIds := TakeList(TakeInt, parent.value.rest); if interfaceIds.None? then None else
    var interfaceNames := TakeList((b: seq<Byte>) => TakeString(c, b), interfaceIds.value.rest);
    if interfaceNames.None? then None else
    var isInterface := TakeBool(interfaceNames.value.rest); if isInterface.None? then None else
    var isVirtual := TakeBool(isInterface.value.rest); if isVirtual.None? then None else
    var isDebug := TakeBool(isVirtual.value.rest); if isDebug.None? then None else
    var debug := isDebug.value.value;
    var fileName := if debug then TakeString(c, isDebug.value.rest) else Some(Read([], isDebug.value.rest));
    if fileName.None? then None else
    var clsSpace := TakeInt(fileName.value.rest); if clsSpace.None? then None else
    var instSpace := TakeInt(clsSpace.value.rest); if instSpace.None? then None else
    var clsEntries := TakeEntries(c, debug, instSpace.value.rest); if clsEntries.None? then None else
    var instEntries := TakeEntries(c, debug, clsEntries.value.rest); if instEntries.None? then None else
    var methods := TakeMethods(c, debug, instEntries.value.rest); if methods.None? then None else
    Some(Read(ClassDef(0, name.value.value, 0, parent.value.value, [], interfaceNames.value.value, isInterface.value.value,
                       isVirtual.value.value, debug, fileName.value.value, clsSpace.value.value, instSpace.value.value,
                       clsEntries.value.value, instEntries.value.value, methods.value.value), methods.value.rest))
  }

  function TakeClasses(c: Codec, bytes: seq<Byte>): Option<Read<seq<ClassDef>>> {
    TakeList((b: seq<Byte>) => TakeClass(c, b), bytes)
  }

  function TakeItem(c: Codec, bytes: seq<Byte>): Option<Read<EnumItem>> {
    var name := TakeString(c, bytes); if name.None? then None else
    var id := TakeInt(name.value.rest); if id.None? then None else
    Some(Read(EnumItem(name.value.value, id.value.value), id.value.rest))
  }

  function TakeEnum(c: Codec, bytes: seq<Byte>): Option<Read<EnumDef>> {
    var name := TakeString(c, bytes); if name.None? then None else
    var offset := TakeInt(name.value.rest); if offset.None? then None else
    var items := TakeList((b: seq<Byte>) => TakeItem(c, b), offset.value.rest); if items.None? then None else
    Some(Read(EnumDef(name.value.value, offset.value.value, items.value.value), items.value.rest))
  }

  function TakeLibrary(c: Codec, bytes: seq<Byte>): Option<Read<Library>> {
    var version := TakeInt(bytes); if version.None? || version.value.value != VER_NUM then None else
    var magic := TakeInt(version.value.rest); if magic.None? || magic.value.value != MAGIC_NUM_LIB then None else
    var floats := TakeList((b: seq<Byte>) => TakeList(TakeDouble, b), magic.value.rest); if floats.None? then None else
    var ints := TakeList((b: seq<Byte>) => TakeList(TakeInt, b), floats.value.rest); if ints.None? then None else
    var chars := TakeList((b: seq<Byte>) => TakeString(c, b), ints.value.rest); if chars.None? then None else
    var bundles := TakeList((b: seq<Byte>) => TakeString(c, b), chars.value.rest); if bundles.None? then None else
    var enums := TakeList((b: seq<Byte>) => TakeEnum(c, b), bundles.value.rest); if enums.None? then None else
    var classes := TakeClasses(c, enums.value.rest); if classes.None? then None else
    Some(Read(Library(floats.value.value, ints.value.value, chars.value.value, bundles.value.value, enums.value.value,
                      classes.value.value), classes.value.rest))
  }
}
