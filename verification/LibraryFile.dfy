// The writer that appends a library to a file and the reader that moves through its bytes, each
// loop by loop, and the round trip between the two.

module LibraryFile {
  import opened Wrappers
  import opened Words
  import F = FileFormat
  import R = RoundTrip

  type Byte = F.Byte

  type WString = F.WString

  // ----- Writing -----

  class TargetEmitter {
    var out: seq<Byte>
    const codec: F.Codec

    constructor (c: F.Codec)
      ensures out == [] && codec == c
    {
      out, codec := [], c;
    }

    method WriteByte(b: Byte)
      modifies this`out
      ensures out == old(out) + [b]
    {
      out := out + [b];
    }

    method WriteInt(n: int, ghost k: seq<Byte> := [])
      modifies this`out
      ensures out == old(out) + F.IntBytes(n)
      ensures out + k == old(out) + (F.IntBytes(n) + k)
    {
      out := out + F.IntBytes(n);
      R.Assoc(old(out), F.IntBytes(n), k);
    }

    method WriteBool(b: bool, ghost k: seq<Byte> := [])
      modifies this`out
      ensures out == old(out) + F.BoolBytes(b)
      ensures out + k == old(out) + (F.BoolBytes(b) + k)
    {
      WriteInt(if b then 1 else 0);
      R.Assoc(old(out), F.BoolBytes(b), k);
    }

    method WriteString(s: WString, ghost k: seq<Byte> := [])
      modifies this`out
      ensures out == old(out) + F.StringBytes(codec, s)
      ensures out + k == old(out) + (F.StringBytes(codec, s) + k)
    {
      var bytes := codec.encode(s);
      WriteInt(|bytes|);
      out := out + bytes;
      R.Assoc(old(out), F.IntBytes(|bytes|), bytes);
      R.Assoc(old(out), F.StringBytes(codec, s), k);
    }

    method WriteChar(code: int)
      modifies this`out
      ensures out == old(out) + F.CharBytes(codec, code)
    {
      if code == 0 { WriteInt(0); } else { WriteString([code]); }
    }

    method WriteDouble(d: F.Double)
      modifies this`out
      ensures out == old(out) + d
    {
      out := out + d;
    }

    /** What an instruction writes is chosen by its opcode. */
    method WriteOperands(op: int, o: F.Operands)
      requires R.Fits(F.WriteFormat(op), o)
      modifies this`out
      ensures out == old(out) + F.OperandBytes(codec, o)
    {
      ghost var start := out;
      match F.WriteFormat(op)
      case OneInt => WriteInt(o.a);
      case OneChar => WriteChar(o.code);
      case ThreeInts =>
        WriteInt(o.a);
        WriteInt(o.b);
        WriteInt(o.c);
        R.Assoc(start, F.IntBytes(o.a), F.IntBytes(o.b) + F.IntBytes(o.c));
        R.Assoc(start + F.IntBytes(o.a), F.IntBytes(o.b), F.IntBytes(o.c));
      case ClassName => WriteString(o.cls);
      case NativeNames =>
        WriteInt(o.native);
        WriteString(o.cls);
        WriteString(o.mthd);
        ghost var cls, mthd := F.StringBytes(codec, o.cls), F.StringBytes(codec, o.mthd);
        R.Assoc(start, F.IntBytes(o.native), cls + mthd);
        R.Assoc(start + F.IntBytes(o.native), cls, mthd);
      case Names =>
        WriteString(o.cls);
        WriteString(o.mthd);
        R.Assoc(start, F.StringBytes(codec, o.cls), F.StringBytes(codec, o.mthd));
      case TwoInts =>
        WriteInt(o.a);
        WriteInt(o.b);
        R.Assoc(start, F.IntBytes(o.a), F.IntBytes(o.b));
      case OneDouble => WriteDouble(o.double);
      case Bare =>
        assert start + [] == start;
    }

    method WriteInstruction(debug: bool, i: F.Instr)
      requires R.GoodInstr(i)
      modifies this`out
      ensures out == old(out) + F.InstrBytes(codec, debug, i)
    {
      ghost var start, op := out, [F.OpcodeByte(i.opcode)];
      ghost var line, operands := if debug then F.IntBytes(i.line) else [], F.OperandBytes(codec, i.operands);
      WriteByte(F.OpcodeByte(i.opcode));
      if debug { WriteInt(i.line); }
      assert out == (start + op) + line;
      WriteOperands(i.opcode, i.operands);
      R.Assoc(start, op, line + operands);
      R.Assoc(start + op, line, operands);
    }

    static lemma Wrote<T>(bytes: T -> seq<Byte>, values: seq<T>, i: nat, before: seq<Byte>)
      requires i < |values|
      ensures (before + bytes(values[i])) + F.All(bytes, values[i + 1..]) == before + F.All(bytes, values[i..])
    {
      assert values[i..][0] == values[i] && values[i..][1..] == values[i + 1..];
      R.Assoc(before, bytes(values[i]), F.All(bytes, values[i + 1..]));
    }

    static lemma WroteAll<T>(bytes: T -> seq<Byte>, values: seq<T>, before: seq<Byte>)
      ensures before + F.All(bytes, values[|values|..]) == before && values[0..] == values
    {
      assert before + [] == before;
    }

    static lemma Counted<T>(bytes: T -> seq<Byte>, values: seq<T>, before: seq<Byte>)
      ensures (before + F.IntBytes(|values|)) + F.All(bytes, values) == before + F.ListBytes(bytes, values)
    {
      R.Assoc(before, F.IntBytes(|values|), F.All(bytes, values));
    }

    method WriteStatements(debug: bool, instrs: seq<F.Instr>)
      requires forall i <- instrs :: R.GoodInstr(i)
      modifies this`out
      ensures out == old(out) + F.StatementsBytes(codec, debug, instrs)
    {
      ghost var start, bytes := out, (i: F.Instr) => F.InstrBytes(codec, debug, i);
      WroteAll(bytes, instrs, start);
      var i := 0;
      while i < |instrs|
        invariant i <= |instrs| && out + F.All(bytes, instrs[i..]) == start + F.All(bytes, instrs)
      {
        Wrote(bytes, instrs, i, out);
        WriteInstruction(debug, instrs[i]);
        i := i + 1;
      }
      WroteAll(bytes, instrs, out);
      WriteByte(F.OpcodeByte(F.END_STMTS));
      R.Assoc(start, F.All(bytes, instrs), [F.OpcodeByte(F.END_STMTS)]);
    }

    method WriteEntries(debug: bool, entries: seq<F.Entry>, ghost k: seq<Byte> := [])
      modifies this`out
      ensures out == old(out) + F.EntriesBytes(codec, debug, entries)
      ensures out + k == old(out) + (F.EntriesBytes(codec, debug, entries) + k)
    {
      ghost var start, bytes := out, (e: F.Entry) => F.EntryBytes(codec, debug, e);
      WriteInt(|entries|);
      Counted(bytes, entries, start);
      WroteAll(bytes, entries, out);
      var i := 0;
      while i < |entries|
        invariant i <= |entries| && out + F.All(bytes, entries[i..]) == start + F.ListBytes(bytes, entries)
      {
        ghost var before, e := out, entries[i];
        Wrote(bytes, entries, i, out);
        WriteInt(entries[i].kind);
        if debug {
          WriteString(entries[i].name);
          R.Assoc(before, F.IntBytes(e.kind), F.StringBytes(codec, e.name));
        } else {
          assert F.IntBytes(e.kind) + [] == F.IntBytes(e.kind);
        }
        i := i + 1;
      }
      WroteAll(bytes, entries, out);
      R.Assoc(old(out), F.EntriesBytes(codec, debug, entries), k);
    }

    method WriteMethod(debug: bool, m: F.Method)
      requires R.GoodMethod(m)
      modifies this`out
      ensures out == old(out) + F.MethodBytes(codec, debug, m)
    {
      hide F.IntBytes, F.BoolBytes, F.StringBytes, F.EntriesBytes, F.StatementsBytes;
      ghost var t11 := F.StatementsBytes(codec, debug, m.instrs);
      ghost var t10 := F.EntriesBytes(codec, debug, m.entries) + t11;
      ghost var t9 := F.IntBytes(m.space) + t10;
      ghost var t8 := F.IntBytes(m.params) + t9;
      ghost var t7 := F.StringBytes(codec, m.rtrn) + t8;
      ghost var t6 := F.StringBytes(codec, m.name) + t7;
      ghost var t5 := F.BoolBytes(m.isFunction) + t6;
      ghost var t4 := F.BoolBytes(m.isNative) + t5;
      ghost var t3 := F.BoolBytes(m.hasAndOr) + t4;
      ghost var t2 := F.BoolBytes(m.isVirtual) + t3;
      WriteInt(m.id, F.IntBytes(m.kind) + t2);
      WriteInt(m.kind, t2);
      WriteBool(m.isVirtual, t3);
      WriteBool(m.hasAndOr, t4);
      WriteBool(m.isNative, t5);
      WriteBool(m.isFunction, t6);
      WriteString(m.name, t7);
      WriteString(m.rtrn, t8);
      WriteInt(m.params, t9);
      WriteInt(m.space, t10);
      WriteEntries(debug, m.entries, t11);
      WriteStatements(debug, m.instrs);
    }

    method WriteInts(ns: seq<int>, ghost k: seq<Byte> := [])
      modifies this`out
      ensures out == old(out) + F.IntsBytes(ns)
      ensures out + k == old(out) + (F.IntsBytes(ns) + k)
    {
      ghost var start := out;
      WriteInt(|ns|);
      Counted(F.IntBytes, ns, start);
      WroteAll(F.IntBytes, ns, out);
      var i := 0;
      while i < |ns|
        invariant i <= |ns| && out + F.All(F.IntBytes, ns[i..]) == start + F.IntsBytes(ns)
      {
        Wrote(F.IntBytes, ns, i, out);
        WriteInt(ns[i]);
        i := i + 1;
      }
      WroteAll(F.IntBytes, ns, out);
      R.Assoc(start, F.IntsBytes(ns), k);
    }

    method WriteStrings(ss: seq<WString>, ghost k: seq<Byte> := [])
      modifies this`out
      ensures out == old(out) + F.StringsBytes(codec, ss)
      ensures out + k == old(out) + (F.StringsBytes(codec, ss) + k)
    {
      ghost var start, bytes := out, (s: WString) => F.StringBytes(codec, s);
      WriteInt(|ss|);
      Counted(bytes, ss, start);
      WroteAll(bytes, ss, out);
      var i := 0;
      while i < |ss|
        invariant i <= |ss| && out + F.All(bytes, ss[i..]) == start + F.StringsBytes(codec, ss)
      {
        Wrote(bytes, ss, i, out);
        WriteString(ss[i]);
        i := i + 1;
      }
      WroteAll(bytes, ss, out);
      R.Assoc(start, F.StringsBytes(codec, ss), k);
    }

    method WriteMethods(debug: bool, methods: seq<F.Method>)
      requires forall m <- methods :: R.GoodMethod(m)
      modifies this`out
      ensures out == old(out) + F.MethodsBytes(codec, debug, methods)
    {
      hide F.MethodBytes, R.GoodMethod;
      ghost var start, bytes := out, (m: F.Method) => F.MethodBytes(codec, debug, m);
      WriteInt(|methods|);
      Counted(bytes, methods, start);
      WroteAll(bytes, methods, out);
      var i := 0;
      while i < |methods|
        invariant i <= |methods| && out + F.All(bytes, methods[i..]) == start + F.MethodsBytes(codec, debug, methods)
      {
        Wrote(bytes, methods, i, out);
        WriteMethod(debug, methods[i]);
        i := i + 1;
      }
      WroteAll(bytes, methods, out);
    }

    method WriteClass(x: F.ClassDef)
      requires R.GoodClass(x)
      modifies this`out
      ensures out == old(out) + F.ClassBytes(codec, x)
    {
      hide F.IntBytes, F.BoolBytes, F.StringBytes, F.EntriesBytes, F.IntsBytes, F.StringsBytes, F.MethodsBytes;
      var debug := x.isDebug;
      ghost var t14 := F.MethodsBytes(codec, debug, x.methods);
      ghost var t13 := F.EntriesBytes(codec, debug, x.instEntries) + t14;
      ghost var t12 := F.EntriesBytes(codec, debug, x.clsEntries) + t13;
      ghost var t11 := F.IntBytes(x.instSpace) + t12;
      ghost var t10 := F.IntBytes(x.clsSpace) + t11;
      ghost var t9 := (if debug then F.StringBytes(codec, x.fileName) else []) + t10;
      ghost var t8 := F.BoolBytes(debug) + t9;
      ghost var t7 := F.BoolBytes(x.isVirtual) + t8;
      ghost var t6 := F.BoolBytes(x.isInterface) + t7;
      ghost var t5 := F.StringsBytes(codec, x.interfaceNames) + t6;
      ghost var t4 := F.IntsBytes(x.interfaceIds) + t5;
      ghost var t3 := F.StringBytes(codec, x.parent) + t4;
      ghost var t2 := F.IntBytes(x.pid) + t3;
      WriteInt(x.id, F.StringBytes(codec, x.name) + t2);
      WriteString(x.name, t2);
      WriteInt(x.pid, t3);
      WriteString(x.parent, t4);
      WriteInts(x.interfaceIds, t5);
      WriteStrings(x.interfaceNames, t6);
      WriteBool(x.isInterface, t7);
      WriteBool(x.isVirtual, t8);
      WriteBool(x.isDebug, t9);
      if x.isDebug { WriteString(x.fileName, t10); } else { assert t9 == t10; }
      WriteInt(x.clsSpace, t11);
      WriteInt(x.instSpace, t12);
      WriteEntries(debug, x.clsEntries, t13);
      WriteEntries(debug, x.instEntries, t14);
      WriteMethods(debug, x.methods);
    }

    method WriteEnum(e: F.EnumDef)
      modifies this`out
      ensures out == old(out) + F.EnumBytes(codec, e)
    {
      ghost var bytes := (i: F.EnumItem) => F.ItemBytes(codec, i);
      ghost var items, whole := F.ListBytes(bytes, e.items), out + F.EnumBytes(codec, e);
      WriteString(e.name, F.IntBytes(e.offset) + items);
      WriteInt(e.offset, items);
      ghost var before := out;
      WriteInt(|e.items|);
      Counted(bytes, e.items, before);
      WroteAll(bytes, e.items, out);
      var i := 0;
      while i < |e.items|
        invariant i <= |e.items| && out + F.All(bytes, e.items[i..]) == whole
      {
        ghost var was, item := out, e.items[i];
        Wrote(bytes, e.items, i, out);
        WriteString(e.items[i].name);
        WriteInt(e.items[i].id);
        R.Assoc(was, F.StringBytes(codec, item.name), F.IntBytes(item.id));
        i := i + 1;
      }
      WroteAll(bytes, e.items, out);
    }

    method WriteFloatStrings(pools: seq<seq<F.Double>>, ghost k: seq<Byte>)
      modifies this`out
      ensures out + k == old(out) + (F.ListBytes(F.DoublesBytes, pools) + k)
    {
      ghost var start := out;
      WriteInt(|pools|);
      Counted(F.DoublesBytes, pools, start);
      WroteAll(F.DoublesBytes, pools, out);
      var i := 0;
      while i < |pools|
        invariant i <= |pools| && out + F.All(F.DoublesBytes, pools[i..]) == start + F.ListBytes(F.DoublesBytes, pools)
      {
        Wrote(F.DoublesBytes, pools, i, out);
        WriteDoubles(pools[i]);
        i := i + 1;
      }
      WroteAll(F.DoublesBytes, pools, out);
      R.Assoc(start, F.ListBytes(F.DoublesBytes, pools), k);
    }

    method WriteDoubles(ds: seq<F.Double>)
      modifies this`out
      ensures out == old(out) + F.DoublesBytes(ds)
    {
      ghost var start, bytes: F.Double -> seq<Byte> := out, (d: F.Double) => d;
      WriteInt(|ds|);
      Counted(bytes, ds, start);
      WroteAll(bytes, ds, out);
      var i := 0;
      while i < |ds|
        invariant i <= |ds| && out + F.All(bytes, ds[i..]) == start + F.DoublesBytes(ds)
      {
        Wrote(bytes, ds, i, out);
        WriteDouble(ds[i]);
        i := i + 1;
      }
      WroteAll(bytes, ds, out);
    }

    method WriteIntStrings(pools: seq<seq<int>>, ghost k: seq<Byte>)
      modifies this`out
      ensures out + k == old(out) + (F.ListBytes(F.IntsBytes, pools) + k)
    {
      ghost var start := out;
      WriteInt(|pools|);
      Counted(F.IntsBytes, pools, start);
      WroteAll(F.IntsBytes, pools, out);
      var i := 0;
      while i < |pools|
        invariant i <= |pools| && out + F.All(F.IntsBytes, pools[i..]) == start + F.ListBytes(F.IntsBytes, pools)
      {
        Wrote(F.IntsBytes, pools, i, out);
        WriteInts(pools[i]);
        i := i + 1;
      }
      WroteAll(F.IntsBytes, pools, out);
      R.Assoc(start, F.ListBytes(F.IntsBytes, pools), k);
    }

    method WriteEnums(enums: seq<F.EnumDef>, ghost k: seq<Byte>)
      modifies this`out
      ensures out + k == old(out) + (F.EnumsBytes(codec, enums) + k)
    {
      ghost var start, bytes := out, (e: F.EnumDef) => F.EnumBytes(codec, e);
      WriteInt(|enums|);
      Counted(bytes, enums, start);
      WroteAll(bytes, enums, out);
      var i := 0;
      while i < |enums|
        invariant i <= |enums| && out + F.All(bytes, enums[i..]) == start + F.EnumsBytes(codec, enums)
      {
        Wrote(bytes, enums, i, out);
        WriteEnum(enums[i]);
        i := i + 1;
      }
      WroteAll(bytes, enums, out);
      R.Assoc(start, F.EnumsBytes(codec, enums), k);
    }

    method WriteClasses(classes: seq<F.ClassDef>)
      requires forall x <- classes :: R.GoodClass(x)
      modifies this`out
      ensures out == old(out) + F.ClassesBytes(codec, classes)
    {
      hide F.ClassBytes, R.GoodClass;
      ghost var start, bytes := out, (x: F.ClassDef) => F.ClassBytes(codec, x);
      WriteInt(|classes|);
      Counted(bytes, classes, start);
      WroteAll(bytes, classes, out);
      var i := 0;
      while i < |classes|
        invariant i <= |classes| && out + F.All(bytes, classes[i..]) == start + F.ClassesBytes(codec, classes)
      {
        Wrote(bytes, classes, i, out);
        WriteClass(classes[i]);
        i := i + 1;
      }
      WroteAll(bytes, classes, out);
    }

    /** The file of a library. */
    method Write(l: F.Library)
      requires R.GoodLibrary(l)
      modifies this`out
      ensures out == old(out) + F.LibraryBytes(codec, l)
    {
      hide F.IntBytes, F.ListBytes, F.StringsBytes, F.EnumsBytes, F.ClassesBytes;
      ghost var t7 := F.ClassesBytes(codec, l.classes);
      ghost var t6 := F.EnumsBytes(codec, l.enums) + t7;
      ghost var t5 := F.StringsBytes(codec, l.bundles) + t6;
      ghost var t4 := F.StringsBytes(codec, l.charStrings) + t5;
      ghost var t3 := F.ListBytes(F.IntsBytes, l.intStrings) + t4;
      ghost var t2 := F.ListBytes(F.DoublesBytes, l.floatStrings) + t3;
      WriteInt(F.VER_NUM, F.IntBytes(F.MAGIC_NUM_LIB) + t2);
      WriteInt(F.MAGIC_NUM_LIB, t2);
      WriteFloatStrings(l.floatStrings, t3);
      WriteIntStrings(l.intStrings, t4);
      WriteStrings(l.charStrings, t5);
      WriteStrings(l.bundles, t6);
      WriteEnums(l.enums, t7);
      WriteClasses(l.classes);
    }
  }

  // ----- Reading -----

  /** What reading comes to: the value and the bytes left over, or giving up. */
  ghost predicate Got<T>(r: Option<F.Read<T>>, v: Option<T>, rest: seq<Byte>) {
    if r.None? then v.None? else v == Some(r.value.value) && rest == r.value.rest
  }

  /** i of n values have been read into acc, and rest is where the next one starts. */
  ghost predicate Partway<T>(take: seq<Byte> -> Option<F.Read<T>>, n: nat, start: seq<Byte>, i: nat, acc: seq<T>, rest: seq<Byte>)
    requires i <= n
  {
    var r := F.TakeMany(take, n - i, rest);
    F.TakeMany(take, n, start) == if r.None? then None else Some(F.Read(acc + r.value.value, r.value.rest))
  }

  lemma Begun<T>(take: seq<Byte> -> Option<F.Read<T>>, n: nat, start: seq<Byte>)
    ensures Partway(take, n, start, 0, [], start)
  {
    var r := F.TakeMany(take, n, start);
    if r.Some? { assert [] + r.value.value == r.value.value; }
  }

  lemma Further<T>(take: seq<Byte> -> Option<F.Read<T>>, n: nat, start: seq<Byte>, i: nat, acc: seq<T>, rest: seq<Byte>)
    requires i < n && Partway(take, n, start, i, acc, rest)
    ensures var r := take(rest);
      if r.None? then F.TakeMany(take, n, start).None? else Partway(take, n, start, i + 1, acc + [r.value.value], r.value.rest)
  {
    var r := take(rest);
    if r.Some? {
      var others := F.TakeMany(take, n - i - 1, r.value.rest);
      if others.Some? { assert acc + ([r.value.value] + others.value.value) == (acc + [r.value.value]) + others.value.value; }
    }
  }

  lemma Through<T>(take: seq<Byte> -> Option<F.Read<T>>, n: nat, start: seq<Byte>, acc: seq<T>, rest: seq<Byte>)
    requires Partway(take, n, start, n, acc, rest)
    ensures F.TakeMany(take, n, start) == Some(F.Read(acc, rest))
  {
    assert acc + [] == acc;
  }

  /** Loads a library file; a method returns None when the linker gives up. */
  class Library {
    var buffer: seq<Byte>       // what has not been read yet
    const codec: F.Codec

    constructor (c: F.Codec, file: seq<Byte>)
      ensures buffer == file && codec == c
    {
      buffer, codec := file, c;
    }

    method ReadInt() returns (v: Option<int>)
      modifies this`buffer
      ensures Got(F.TakeInt(old(buffer)), v, buffer)
    {
      if |buffer| < 4 { return None; }
      v := Some(F.LittleEndian(buffer[0], buffer[1], buffer[2], buffer[3]));
      buffer := buffer[4..];
    }

    method ReadBool() returns (v: Option<bool>)
      modifies this`buffer
      ensures Got(F.TakeBool(old(buffer)), v, buffer)
    {
      var n := ReadInt();
      v := if n.None? then None else Some(n.value != 0);
    }

    method ReadString() returns (v: Option<WString>)
      modifies this`buffer
      ensures Got(F.TakeString(codec, old(buffer)), v, buffer)
    {
      var size := ReadInt();
      if size.None? || !(0 <= size.value <= |buffer|) { return None; }
      v := codec.decode(buffer[..size.value]);
      buffer := buffer[size.value..];
    }

    method ReadChar() returns (v: Option<int>)
      modifies this`buffer
      ensures Got(F.TakeChar(codec, old(buffer)), v, buffer)
    {
      var size := ReadInt();
      if size.None? { return None; }
      if size.value == 0 { return Some(0); }
      if !(0 <= size.value <= |buffer|) { return None; }
      var s := codec.decode(buffer[..size.value]);
      buffer := buffer[size.value..];
      if s.None? || |s.value| != 1 { return None; }
      v := Some(s.value[0]);
    }

    method ReadDouble() returns (v: Option<F.Double>)
      modifies this`buffer
      ensures Got(F.TakeDouble(old(buffer)), v, buffer)
    {
      if |buffer| < 8 { return None; }
      v := Some(buffer[..8]);
      buffer := buffer[8..];
    }

    method ReadOperands(f: F.Format) returns (v: Option<F.Operands>)
      modifies this`buffer
      ensures Got(F.TakeOperands(codec, f, old(buffer)), v, buffer)
    {
      hide F.TakeInt, F.TakeString, F.TakeChar, F.TakeDouble;
      v := None;
      match f
      case Bare => v := Some(F.Nothing);
      case OneInt =>
        var a := ReadInt();
        if a.Some? { v := Some(F.One(a.value)); }
      case TwoInts =>
        var a := ReadInt();
        if a.None? { return; }
        var b := ReadInt();
        if b.Some? { v := Some(F.Two(a.value, b.value)); }
      case ThreeInts =>
        var a := ReadInt();
        if a.None? { return; }
        var b := ReadInt();
        if b.None? { return; }
        var d := ReadInt();
        if d.Some? { v := Some(F.Three(a.value, b.value, d.value)); }
      case OneChar =>
        var a := ReadChar();
        if a.Some? { v := Some(F.Character(a.value)); }
      case OneDouble =>
        var d := ReadDouble();
        if d.Some? { v := Some(F.Real(d.value)); }
      case ClassName =>
        var s := ReadString();
        if s.Some? { v := Some(F.Class(s.value)); }
      case NativeNames =>
        var a := ReadInt();
        if a.None? { return; }
        var s := ReadString();
        if s.None? { return; }
        var t := ReadString();
        if t.Some? { v := Some(F.Call(a.value, s.value, t.value)); }
      case Names =>
        var s := ReadString();
        if s.None? { return; }
        var t := ReadString();
        if t.Some? { v := Some(F.Function(s.value, t.value)); }
    }

    /** The instructions read so far, in front of those still to be read. */
    ghost predicate Midway(debug: bool, start: seq<Byte>, instrs: seq<F.Instr>, rest: seq<Byte>) {
      var r := F.TakeStatements(codec, debug, rest);
      F.TakeStatements(codec, debug, start) == if r.None? then None else Some(F.Read(instrs + r.value.value, r.value.rest))
    }

    lemma NextInstr(debug: bool, start: seq<Byte>, instrs: seq<F.Instr>, rest: seq<Byte>)
      requires rest != [] && F.Opcode(rest[0]) != F.END_STMTS && Midway(debug, start, instrs, rest)
      ensures var i := F.TakeInstr(codec, debug, rest);
        if i.None? then F.TakeStatements(codec, debug, start).None?
        else Midway(debug, start, instrs + F.Loaded(i.value.value), i.value.rest)
    {
      hide F.TakeInstr, F.Loaded;
      var i := F.TakeInstr(codec, debug, rest);
      if i.Some? {
        var others := F.TakeStatements(codec, debug, i.value.rest);
        if others.Some? {
          var x := F.Loaded(i.value.value);
          assert instrs + (x + others.value.value) == (instrs + x) + others.value.value;
        }
      }
    }

    lemma NoInstrs(debug: bool, start: seq<Byte>)
      ensures Midway(debug, start, [], start)
    {
      var r := F.TakeStatements(codec, debug, start);
      if r.Some? { assert [] + r.value.value == r.value.value; }
    }

    lemma LastInstr(debug: bool, start: seq<Byte>, instrs: seq<F.Instr>, rest: seq<Byte>)
      requires Midway(debug, start, instrs, rest) && (rest == [] || F.Opcode(rest[0]) == F.END_STMTS)
      ensures F.TakeStatements(codec, debug, start) == if rest == [] then None else Some(F.Read(instrs, rest[1..]))
    {
      assert instrs + [] == instrs;
    }

    method LoadStatement(debug: bool) returns (v: Option<F.Instr>)
      requires buffer != []
      modifies this`buffer
      ensures Got(F.TakeInstr(codec, debug, old(buffer)), v, buffer)
    {
      hide F.TakeInt, F.TakeOperands;
      var op := F.Opcode(buffer[0]);
      buffer := buffer[1..];
      var line := Some(-1);
      if debug { line := ReadInt(); }
      if line.None? { return None; }
      var format := F.ReadFormat(op);
      if format.None? { return None; }
      var operands := ReadOperands(format.value);
      if operands.None? { return None; }
      return Some(F.Instr(op, line.value, operands.value));
    }

    /** Instructions up to the end mark; a function reference gets its placeholder. */
    method LoadStatements(debug: bool) returns (v: Option<seq<F.Instr>>)
      modifies this`buffer
      ensures Got(F.TakeStatements(codec, debug, old(buffer)), v, buffer)
    {
      hide F.TakeStatements, F.TakeInstr, Midway;
      ghost var start := buffer;
      var instrs: seq<F.Instr> := [];
      NoInstrs(debug, start);
      while buffer != [] && F.Opcode(buffer[0]) != F.END_STMTS
        invariant Midway(debug, start, instrs, buffer)
        decreases |buffer|
      {
        ghost var was := instrs;
        NextInstr(debug, start, instrs, buffer);
        var i := LoadStatement(debug);
        if i.None? { return None; }
        instrs := instrs + [i.value];
        if i.value.opcode == F.LIB_FUNC_DEF { instrs := instrs + [F.Instr(F.LOAD_INT_LIT, i.value.line, F.One(-1))]; }
        assert instrs == was + F.Loaded(i.value);
      }
      LastInstr(debug, start, instrs, buffer);
      if buffer == [] { return None; }
      buffer := buffer[1..];
      return Some(instrs);
    }

    method ReadCount() returns (v: Option<nat>)
      modifies this`buffer
      ensures var r := F.TakeInt(old(buffer));
        if r.None? then v.None? else v == Some(if r.value.value < 0 then 0 else r.value.value) && buffer == r.value.rest
    {
      var n := ReadInt();
      v := if n.None? then None else Some(if n.value < 0 then 0 else n.value);
    }

    method LoadEntries(debug: bool) returns (v: Option<seq<F.Entry>>)
      modifies this`buffer
      ensures Got(F.TakeEntries(codec, debug, old(buffer)), v, buffer)
    {
      ghost var take := (b: seq<Byte>) => F.TakeEntry(codec, debug, b);
      hide F.TakeString, F.TakeMany, Partway;
      var n := ReadCount();
      if n.None? { return None; }
      ghost var start := buffer;
      Begun(take, n.value, start);
      var entries: seq<F.Entry> := [];
      var i := 0;
      while i < n.value
        invariant i <= n.value && Partway(take, n.value, start, i, entries, buffer)
      {
        Further(take, n.value, start, i, entries, buffer);
        var kind := ReadInt();
        if kind.None? { return None; }
        var name: Option<WString> := Some([]);
        if debug { name := ReadString(); }
        if name.None? { return None; }
        entries := entries + [F.Entry(kind.value, name.value)];
        i := i + 1;
      }
      Through(take, n.value, start, entries, buffer);
      return Some(entries);
    }

    method LoadMethod(debug: bool) returns (v: Option<F.Method>)
      modifies this`buffer
      ensures Got(F.TakeMethod(codec, debug, old(buffer)), v, buffer)
    {
      hide F.TakeInt, F.TakeBool, F.TakeString, F.TakeEntries, F.TakeStatements;
      var id := ReadInt();
      if id.None? { return None; }
      var kind := ReadInt();
      if kind.None? { return None; }
      var isVirtual := ReadBool();
      if isVirtual.None? { return None; }
      var hasAndOr := ReadBool();
      if hasAndOr.None? { return None; }
      var isNative := ReadBool();
      if isNative.None? { return None; }
      var isStatic := ReadBool();
      if isStatic.None? { return None; }
      var name := ReadString();
      if name.None? { return None; }
      var rtrn := ReadString();
      if rtrn.None? { return None; }
      var params := ReadInt();
      if params.None? { return None; }
      var memSize := ReadInt();
      if memSize.None? { return None; }
      var entries := LoadEntries(debug);
      if entries.None? { return None; }
      var instrs := LoadStatements(debug);
      if instrs.None? { return None; }
      return Some(F.Method(id.value, kind.value, isVirtual.value, hasAndOr.value, isNative.value, isStatic.value, name.value,
                           rtrn.value, params.value, memSize.value, entries.value, instrs.value));
    }

    method LoadMethods(debug: bool) returns (v: Option<seq<F.Method>>)
      modifies this`buffer
      ensures Got(F.TakeList((b: seq<Byte>) => F.TakeMethod(codec, debug, b), old(buffer)), v, buffer)
    {
      ghost var take := (b: seq<Byte>) => F.TakeMethod(codec, debug, b);
      hide F.TakeMethod, F.TakeMany, Partway;
      var n := ReadCount();
      if n.None? { return None; }
      ghost var start := buffer;
      Begun(take, n.value, start);
      var methods: seq<F.Method> := [];
      var i := 0;
      while i < n.value
        invariant i <= n.value && Partway(take, n.value, start, i, methods, buffer)
      {
        Further(take, n.value, start, i, methods, buffer);
        var m := LoadMethod(debug);
        if m.None? { return None; }
        methods := methods + [m.value];
        i := i + 1;
      }
      Through(take, n.value, start, methods, buffer);
      return Some(methods);
    }

    method ReadInts() returns (v: Option<seq<int>>)
      modifies this`buffer
      ensures Got(F.TakeList(F.TakeInt, old(buffer)), v, buffer)
    {
      var n := ReadCount();
      if n.None? { return None; }
      ghost var start := buffer;
      Begun(F.TakeInt, n.value, start);
      var values: seq<int> := [];
      var i := 0;
      while i < n.value
        invariant i <= n.value && Partway(F.TakeInt, n.value, start, i, values, buffer)
      {
        Further(F.TakeInt, n.value, start, i, values, buffer);
        var value := ReadInt();
        if value.None? { return None; }
        values := values + [value.value];
        i := i + 1;
      }
      Through(F.TakeInt, n.value, start, values, buffer);
      return Some(values);
    }

    method ReadDoubles() returns (v: Option<seq<F.Double>>)
      modifies this`buffer
      ensures Got(F.TakeList(F.TakeDouble, old(buffer)), v, buffer)
    {
      var n := ReadCount();
      if n.None? { return None; }
      ghost var start := buffer;
      Begun(F.TakeDouble, n.value, start);
      var values: seq<F.Double> := [];
      var i := 0;
      while i < n.value
        invariant i <= n.value && Partway(F.TakeDouble, n.value, start, i, values, buffer)
      {
        Further(F.TakeDouble, n.value, start, i, values, buffer);
        var value := ReadDouble();
        if value.None? { return None; }
        values := values + [value.value];
        i := i + 1;
      }
      Through(F.TakeDouble, n.value, start, values, buffer);
      return Some(values);
    }

    method ReadStrings() returns (v: Option<seq<WString>>)
      modifies this`buffer
      ensures Got(F.TakeList((b: seq<Byte>) => F.TakeString(codec, b), old(buffer)), v, buffer)
    {
      ghost var take := (b: seq<Byte>) => F.TakeString(codec, b);
      hide F.TakeString, F.TakeMany, Partway;
      var n := ReadCount();
      if n.None? { return None; }
      ghost var start := buffer;
      Begun(take, n.value, start);
      var values: seq<WString> := [];
      var i := 0;
      while i < n.value
        invariant i <= n.value && Partway(take, n.value, start, i, values, buffer)
      {
        Further(take, n.value, start, i, values, buffer);
        var value := ReadString();
        if value.None? { return None; }
        values := values + [value.value];
        i := i + 1;
      }
      Through(take, n.value, start, values, buffer);
      return Some(values);
    }

    /** All ids are ignored. */
    method LoadClass() returns (v: Option<F.ClassDef>)
      modifies this`buffer
      ensures Got(F.TakeClass(codec, old(buffer)), v, buffer)
    {
      hide F.TakeInt, F.TakeBool, F.TakeString, F.TakeEntries, F.TakeList, F.TakeMethod;
      var id := ReadInt();
      if id.None? { return None; }
      var name := ReadString();
      if name.None? { return None; }
      var pid := ReadInt();
      if pid.None? { return None; }
      var parent := ReadString();
      if parent.None? { return None; }
      var interfaceIds := ReadInts();
      if interfaceIds.None? { return None; }
      var interfaceNames := ReadStrings();
      if interfaceNames.None? { return None; }
      var isInterface := ReadBool();
      if isInterface.None? { return None; }
      var isVirtual := ReadBool();
      if isVirtual.None? { return None; }
      var isDebug := ReadBool();
      if isDebug.None? { return None; }
      var fileName: Option<WString> := Some([]);
      if isDebug.value { fileName := ReadString(); }
      if fileName.None? { return None; }
      var clsSpace := ReadInt();
      if clsSpace.None? { return None; }
      var instSpace := ReadInt();
      if instSpace.None? { return None; }
      var clsEntries := LoadEntries(isDebug.value);
      if clsEntries.None? { return None; }
      var instEntries := LoadEntries(isDebug.value);
      if instEntries.None? { return None; }
      var methods := LoadMethods(isDebug.value);
      if methods.None? { return None; }
      return Some(F.ClassDef(0, name.value, 0, parent.value, [], interfaceNames.value, isInterface.value, isVirtual.value,
                             isDebug.value, fileName.value, clsSpace.value, instSpace.value, clsEntries.value, instEntries.value,
                             methods.value));
    }

    method LoadClasses() returns (v: Option<seq<F.ClassDef>>)
      modifies this`buffer
      ensures Got(F.TakeList((b: seq<Byte>) => F.TakeClass(codec, b), old(buffer)), v, buffer)
    {
      ghost var take := (b: seq<Byte>) => F.TakeClass(codec, b);
      hide F.TakeClass, F.TakeMany, Partway;
      var n := ReadCount();
      if n.None? { return None; }
      ghost var start := buffer;
      Begun(take, n.value, start);
      var classes: seq<F.ClassDef> := [];
      var i := 0;
      while i < n.value
        invariant i <= n.value && Partway(take, n.value, start, i, classes, buffer)
      {
        Further(take, n.value, start, i, classes, buffer);
        var x := LoadClass();
        if x.None? { return None; }
        classes := classes + [x.value];
        i := i + 1;
      }
      Through(take, n.value, start, classes, buffer);
      return Some(classes);
    }

    method LoadItems() returns (v: Option<seq<F.EnumItem>>)
      modifies this`buffer
      ensures Got(F.TakeList((b: seq<Byte>) => F.TakeItem(codec, b), old(buffer)), v, buffer)
    {
      ghost var take := (b: seq<Byte>) => F.TakeItem(codec, b);
      hide F.TakeMany, Partway;
      var n := ReadCount();
      if n.None? { return None; }
      ghost var start := buffer;
      Begun(take, n.value, start);
      var items: seq<F.EnumItem> := [];
      var i := 0;
      while i < n.value
        invariant i <= n.value && Partway(take, n.value, start, i, items, buffer)
      {
        Further(take, n.value, start, i, items, buffer);
        var name := ReadString();
        if name.None? { return None; }
        var id := ReadInt();
        if id.None? { return None; }
        items := items + [F.EnumItem(name.value, id.value)];
        i := i + 1;
      }
      Through(take, n.value, start, items, buffer);
      return Some(items);
    }

    method LoadEnums() returns (v: Option<seq<F.EnumDef>>)
      modifies this`buffer
      ensures Got(F.TakeList((b: seq<Byte>) => F.TakeEnum(codec, b), old(buffer)), v, buffer)
    {
      ghost var take := (b: seq<Byte>) => F.TakeEnum(codec, b);
      hide F.TakeItem, F.TakeMany, Partway;
      var n := ReadCount();
      if n.None? { return None; }
      ghost var start := buffer;
      Begun(take, n.value, start);
      var enums: seq<F.EnumDef> := [];
      var i := 0;
      while i < n.value
        invariant i <= n.value && Partway(take, n.value, start, i, enums, buffer)
      {
        Further(take, n.value, start, i, enums, buffer);
        var name := ReadString();
        if name.None? { return None; }
        var offset := ReadInt();
        if offset.None? { return None; }
        var items := LoadItems();
        if items.None? { return None; }
        enums := enums + [F.EnumDef(name.value, offset.value, items.value)];
        i := i + 1;
      }
      Through(take, n.value, start, enums, buffer);
      return Some(enums);
    }

    method LoadFloatStrings() returns (v: Option<seq<seq<F.Double>>>)
      modifies this`buffer
      ensures Got(F.TakeList((b: seq<Byte>) => F.TakeList(F.TakeDouble, b), old(buffer)), v, buffer)
    {
      ghost var take := (b: seq<Byte>) => F.TakeList(F.TakeDouble, b);
      hide F.TakeMany, Partway;
      var n := ReadCount();
      if n.None? { return None; }
      ghost var start := buffer;
      Begun(take, n.value, start);
      var pools: seq<seq<F.Double>> := [];
      var i := 0;
      while i < n.value
        invariant i <= n.value && Partway(take, n.value, start, i, pools, buffer)
      {
        Further(take, n.value, start, i, pools, buffer);
        var holder := ReadDoubles();
        if holder.None? { return None; }
        pools := pools + [holder.value];
        i := i + 1;
      }
      Through(take, n.value, start, pools, buffer);
      return Some(pools);
    }

    method LoadIntStrings() returns (v: Option<seq<seq<int>>>)
      modifies this`buffer
      ensures Got(F.TakeList((b: seq<Byte>) => F.TakeList(F.TakeInt, b), old(buffer)), v, buffer)
    {
      ghost var take := (b: seq<Byte>) => F.TakeList(F.TakeInt, b);
      hide F.TakeMany, Partway;
      var n := ReadCount();
      if n.None? { return None; }
      ghost var start := buffer;
      Begun(take, n.value, start);
      var pools: seq<seq<int>> := [];
      var i := 0;
      while i < n.value
        invariant i <= n.value && Partway(take, n.value, start, i, pools, buffer)
      {
        Further(take, n.value, start, i, pools, buffer);
        var holder := ReadInts();
        if holder.None? { return None; }
        pools := pools + [holder.value];
        i := i + 1;
      }
      Through(take, n.value, start, pools, buffer);
      return Some(pools);
    }

    /** A file of another version or kind is refused; what a library was written from comes back. */
    method LoadFile() returns (v: Option<F.Library>)
      modifies this`buffer
      ensures Got(F.TakeLibrary(codec, old(buffer)), v, buffer)
      ensures forall l: F.Library :: R.GoodLibrary(l) && R.LibraryTexts(codec, l) && old(buffer) == F.LibraryBytes(codec, l) ==>
        v == Some(R.LoadedLibrary(l)) && buffer == []
    {
      hide F.TakeLibrary, F.LibraryBytes, R.GoodLibrary, R.LoadedLibrary, R.LibraryTexts;
      ghost var file := buffer;
      v := LoadParts();
      forall l: F.Library | R.GoodLibrary(l) && R.LibraryTexts(codec, l) && file == F.LibraryBytes(codec, l)
        ensures v == Some(R.LoadedLibrary(l)) && buffer == []
      {
        R.LibraryTrip(codec, l, []);
        assert F.LibraryBytes(codec, l) + [] == file;
      }
    }

    method LoadParts() returns (v: Option<F.Library>)
      modifies this`buffer
      ensures Got(F.TakeLibrary(codec, old(buffer)), v, buffer)
    {
      hide F.TakeInt, F.TakeList, F.TakeString, F.TakeEnum, F.TakeClass, F.TakeDouble;
      var version := ReadInt();
      if version.None? || version.value != F.VER_NUM { return None; }
      var magic := ReadInt();
      if magic.None? || magic.value != F.MAGIC_NUM_LIB { return None; }
      var floats := LoadFloatStrings();
      if floats.None? { return None; }
      var ints := LoadIntStrings();
      if ints.None? { return None; }
      var chars := ReadStrings();
      if chars.None? { return None; }
      var bundles := ReadStrings();
      if bundles.None? { return None; }
      var enums := LoadEnums();
      if enums.None? { return None; }
      var classes := LoadClasses();
      if classes.None? { return None; }
      return Some(F.Library(floats.value, ints.value, chars.value, bundles.value, enums.value, classes.value));
    }
  }
}
