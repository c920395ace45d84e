// Reading back what was written: every library, with or without debug information, comes back as it
// was, and not one byte is left over.

module RoundTrip {
  import opened Wrappers
  import opened Words
  import opened FileFormat

  predicate Word(n: int) {
    INT_MIN <= n < -INT_MIN
  }

  lemma Assoc(a: seq<Byte>, b: seq<Byte>, k: seq<Byte>)
    ensures (a + b) + k == a + (b + k)
  {
  }

  lemma Quotient16(u: int, q: int, r: int)
    requires u == 0x1_0000 * q + r && 0 <= r < 0x1_0000
    ensures u / 0x1_0000 == q
  {
  }

  lemma Quotient24(u: int, q: int, r: int)
    requires u == 0x100_0000 * q + r && 0 <= r < 0x100_0000
    ensures u / 0x100_0000 == q
  {
  }

  lemma Digits(u: int)
    requires 0 <= u < TWO_32
    ensures u % 256 + 256 * (u / 256 % 256) + 0x1_0000 * (u / 0x1_0000 % 256) + 0x100_0000 * (u / 0x100_0000) == u
    ensures 0 <= u / 0x100_0000 < 256
  {
    var q := u / 256;
    var a := u % 256;
    assert u == 256 * q + a;
    var r := q / 256;
    var b := q % 256;
    assert q == 256 * r + b;
    Quotient16(u, r, 256 * b + a);
    var s := r / 256;
    var c := r % 256;
    assert r == 256 * s + c;
    Quotient24(u, s, 0x1_0000 * c + 256 * b + a);
  }

  /** The four bytes make the word they were taken from. */
  lemma WordOfBytes(n: int)
    requires Word(n)
    ensures var b := IntBytes(n); LittleEndian(b[0], b[1], b[2], b[3]) == n
  {
    Digits(n % TWO_32);
    WrapOfResidue(n);
  }

  lemma WrapOfResidue(n: int)
    requires Word(n)
    ensures Wrap(n % TWO_32) == n
  {
  }

  lemma IntTrip(n: int, k: seq<Byte>)
    requires Word(n)
    ensures TakeInt(IntBytes(n) + k) == Some(Read(n, k))
  {
    WordOfBytes(n);
    var b := IntBytes(n);
    hide IntBytes, LittleEndian;
    assert (b + k)[0] == b[0] && (b + k)[1] == b[1] && (b + k)[2] == b[2] && (b + k)[3] == b[3] && (b + k)[4..] == k;
  }

  lemma BoolTrip(b: bool, k: seq<Byte>)
    ensures TakeBool(BoolBytes(b) + k) == Some(Read(b, k))
  {
    IntTrip(Bool(b), k);
  }

  /** A text comes back exactly when its bytes are decoded to it and their number fits the word in front. */
  lemma StringTrip(c: Codec, s: WString, k: seq<Byte>)
    ensures TakeString(c, StringBytes(c, s) + k) == Some(Read(s, k)) <==> GoodText(c, s)
  {
    var e := c.encode(s);
    Assoc(IntBytes(|e|), e, k);
    if Word(|e|) {
      IntTrip(|e|, e + k);
      assert (e + k)[..|e|] == e && (e + k)[|e|..] == k;
    } else {
      SizeRead(|e|, e + k);
    }
  }

  /** A size that is too large is read as a smaller one. */
  lemma SizeRead(n: nat, k: seq<Byte>)
    requires !Word(n)
    ensures var size := TakeInt(IntBytes(n) + k); size.Some? && size.value.value < n && size.value.rest == k
  {
    var b := IntBytes(n);
    assert (b + k)[4..] == k;
  }

  lemma OneCharacter(c: Codec, bytes: seq<Byte>, code: int, k: seq<Byte>)
    requires code != 0 && TakeInt(bytes).Some?
    ensures TakeChar(c, bytes) == Some(Read(code, k))
      <==> TakeInt(bytes).value.value != 0 && TakeString(c, bytes) == Some(Read([code], k))
  {
    hide TakeInt, TakeString;
    var s := TakeString(c, bytes);
    if s.Some? && |s.value.value| == 1 { assert s.value.value == [s.value.value[0]]; }
  }

  /** A character comes back exactly when it is 0, or its text does and has bytes. */
  lemma CharTrip(c: Codec, code: int, k: seq<Byte>)
    ensures TakeChar(c, CharBytes(c, code) + k) == Some(Read(code, k)) <==> GoodChar(c, code)
  {
    if code == 0 {
      IntTrip(0, k);
    } else {
      hide TakeInt, TakeString, TakeChar, IntBytes;
      var e := c.encode([code]);
      StringTrip(c, [code], k);
      Assoc(IntBytes(|e|), e, k);
      if Word(|e|) { IntTrip(|e|, e + k); } else { SizeRead(|e|, e + k); }
      OneCharacter(c, StringBytes(c, [code]) + k, code, k);
    }
  }

  lemma DoubleTrip(d: Double, k: seq<Byte>)
    ensures TakeDouble(d + k) == Some(Read(d, k))
  {
    assert (d + k)[..8] == d && (d + k)[8..] == k;
  }

  function Each<T>(loaded: T -> T, values: seq<T>): (r: seq<T>)
    ensures |r| == |values| && forall i :: 0 <= i < |r| ==> r[i] == loaded(values[i])
  {
    seq(|values|, i requires 0 <= i < |values| => loaded(values[i]))
  }

  /** take undoes bytes, up to loaded, whatever follows. */
  ghost predicate Undoes<T(!new)>(take: seq<Byte> -> Option<Read<T>>, bytes: T -> seq<Byte>, loaded: T -> T, v: T) {
    forall k: seq<Byte> {:trigger bytes(v) + k} :: take(bytes(v) + k) == Some(Read(loaded(v), k))
  }

  lemma {:induction false} ManyTrip<T(!new)>(take: seq<Byte> -> Option<Read<T>>, bytes: T -> seq<Byte>, loaded: T -> T,
                                             values: seq<T>, k: seq<Byte>)
    requires forall v <- values :: Undoes(take, bytes, loaded, v)
    ensures TakeMany(take, |values|, All(bytes, values) + k) == Some(Read(Each(loaded, values), k))
  {
    if values == [] {
      assert [] + k == k;
    } else {
      var v, rest := values[0], All(bytes, values[1..]);
      Assoc(bytes(v), rest, k);
      assert Undoes(take, bytes, loaded, v) && take(bytes(v) + (rest + k)) == Some(Read(loaded(v), rest + k));
      ManyTrip(take, bytes, loaded, values[1..], k);
      assert [loaded(v)] + Each(loaded, values[1..]) == Each(loaded, values);
    }
  }

  lemma ListTrip<T(!new)>(take: seq<Byte> -> Option<Read<T>>, bytes: T -> seq<Byte>, loaded: T -> T, values: seq<T>, k: seq<Byte>)
    requires |values| < -INT_MIN && forall v <- values :: Undoes(take, bytes, loaded, v)
    ensures TakeList(take, ListBytes(bytes, values) + k) == Some(Read(Each(loaded, values), k))
  {
    Assoc(IntBytes(|values|), All(bytes, values), k);
    IntTrip(|values|, All(bytes, values) + k);
    ManyTrip(take, bytes, loaded, values, k);
  }

  lemma EachSame<T>(loaded: T -> T, values: seq<T>)
    requires forall v <- values :: loaded(v) == v
    ensures Each(loaded, values) == values
  {
  }

  // ----- Instructions -----

  predicate Fits(f: Format, o: Operands) {
    match f
    case Bare => o.Nothing?
    case OneInt => o.One? && Word(o.a)
    case TwoInts => o.Two? && Word(o.a) && Word(o.b)
    case ThreeInts => o.Three? && Word(o.a) && Word(o.b) && Word(o.c)
    case OneChar => o.Character?
    case OneDouble => o.Real?
    case ClassName => o.Class?
    case NativeNames => o.Call? && Word(o.native)
    case Names => o.Function?
  }

  predicate GoodInstr(i: Instr) {
    && 0 <= i.opcode < END_STMTS && i.opcode !in MACHINE_ONLY && i.opcode != COPY_FUNC_VAR
    && Word(i.line) && Fits(WriteFormat(i.opcode), i.operands)
  }

  /** The codec gives back every text of the operands. */
  predicate OperandTexts(c: Codec, o: Operands) {
    match o
    case Character(code) => GoodChar(c, code)
    case Class(cls) => GoodText(c, cls)
    case Call(_, cls, mthd) => GoodText(c, cls) && GoodText(c, mthd)
    case Function(cls, mthd) => GoodText(c, cls) && GoodText(c, mthd)
    case _ => true
  }

  predicate InstrTexts(c: Codec, i: Instr) {
    OperandTexts(c, i.operands)
  }

  /** Line numbers are lost without debug information. */
  function Numbered(debug: bool, i: Instr): Instr {
    i.(line := if debug then i.line else -1)
  }

  function LoadedInstrs(debug: bool, instrs: seq<Instr>): seq<Instr> {
    if instrs == [] then [] else Loaded(Numbered(debug, instrs[0])) + LoadedInstrs(debug, instrs[1..])
  }

  lemma OperandsTrip(c: Codec, f: Format, o: Operands, k: seq<Byte>)
    requires Fits(f, o) && OperandTexts(c, o)
    ensures TakeOperands(c, f, OperandBytes(c, o) + k) == Some(Read(o, k))
  {
    hide TakeInt, TakeString, TakeChar, TakeDouble, IntBytes, StringBytes, CharBytes, GoodText, GoodChar;
    match f
    case Bare => assert [] + k == k;
    case OneInt => IntTrip(o.a, k);
    case TwoInts =>
      Assoc(IntBytes(o.a), IntBytes(o.b), k);
      IntTrip(o.a, IntBytes(o.b) + k);
      IntTrip(o.b, k);
    case ThreeInts =>
      Assoc(IntBytes(o.a), IntBytes(o.b) + IntBytes(o.c), k);
      Assoc(IntBytes(o.b), IntBytes(o.c), k);
      IntTrip(o.a, IntBytes(o.b) + (IntBytes(o.c) + k));
      IntTrip(o.b, IntBytes(o.c) + k);
      IntTrip(o.c, k);
    case OneChar => CharTrip(c, o.code, k);
    case OneDouble => DoubleTrip(o.double, k);
    case ClassName => StringTrip(c, o.cls, k);
    case NativeNames =>
      Assoc(IntBytes(o.native), StringBytes(c, o.cls) + StringBytes(c, o.mthd), k);
      Assoc(StringBytes(c, o.cls), StringBytes(c, o.mthd), k);
      IntTrip(o.native, StringBytes(c, o.cls) + (StringBytes(c, o.mthd) + k));
      StringTrip(c, o.cls, StringBytes(c, o.mthd) + k);
      StringTrip(c, o.mthd, k);
    case Names =>
      Assoc(StringBytes(c, o.cls), StringBytes(c, o.mthd), k);
      StringTrip(c, o.cls, StringBytes(c, o.mthd) + k);
      StringTrip(c, o.mthd, k);
  }

  lemma InstrTrip(c: Codec, debug: bool, i: Instr, k: seq<Byte>)
    requires GoodInstr(i) && InstrTexts(c, i)
    ensures InstrBytes(c, debug, i) + k != [] && (InstrBytes(c, debug, i) + k)[0] == i.opcode
    ensures TakeInstr(c, debug, InstrBytes(c, debug, i) + k) == Some(Read(Numbered(debug, i), k))
  {
    var line := if debug then IntBytes(i.line) else [];
    var operands := OperandBytes(c, i.operands);
    Assoc([OpcodeByte(i.opcode)], line + operands, k);
    Assoc(line, operands, k);
    var tail := line + (operands + k);
    assert InstrBytes(c, debug, i) + k == [i.opcode] + tail;
    assert ([i.opcode] + tail)[1..] == tail;
    if debug { IntTrip(i.line, operands + k); } else { assert tail == operands + k; }
    FormatsAgree(i.opcode);
    OperandsTrip(c, WriteFormat(i.opcode), i.operands, k);
  }

  /** The statements of a method come back in order, each function reference with its placeholder. */
  lemma {:induction false} StatementsTrip(c: Codec, debug: bool, instrs: seq<Instr>, k: seq<Byte>)
    requires forall i <- instrs :: GoodInstr(i) && InstrTexts(c, i)
    ensures TakeStatements(c, debug, StatementsBytes(c, debug, instrs) + k) == Some(Read(LoadedInstrs(debug, instrs), k))
  {
    var bytes, end := (i: Instr) => InstrBytes(c, debug, i), [OpcodeByte(END_STMTS)];
    hide InstrBytes, TakeInstr, InstrTexts;
    if instrs == [] {
      assert StatementsBytes(c, debug, instrs) + k == end + k;
      assert (end + k)[0] == END_STMTS && (end + k)[1..] == k;
    } else {
      var i, rest := instrs[0], All(bytes, instrs[1..]) + end;
      assert StatementsBytes(c, debug, instrs[1..]) == rest;
      assert StatementsBytes(c, debug, instrs) + k == InstrBytes(c, debug, i) + (rest + k) by {
        Assoc(InstrBytes(c, debug, i), All(bytes, instrs[1..]), end);
        Assoc(InstrBytes(c, debug, i), rest, k);
      }
      InstrTrip(c, debug, i, rest + k);
      StatementsTrip(c, debug, instrs[1..], k);
    }
  }

  // ----- Placeholders -----

  /** Behind every function reference stands the literal -1, on the same line. */
  predicate Placed(instrs: seq<Instr>) {
    forall j :: 0 <= j < |instrs| && instrs[j].opcode == LIB_FUNC_DEF ==>
      j + 1 < |instrs| && instrs[j + 1] == Instr(LOAD_INT_LIT, instrs[j].line, One(-1))
  }

  function References(instrs: seq<Instr>): nat {
    if instrs == [] then 0 else (if instrs[0].opcode == LIB_FUNC_DEF then 1 else 0) + References(instrs[1..])
  }

  /** Without the instruction behind each function reference. */
  function Withdrawn(instrs: seq<Instr>): seq<Instr> {
    if instrs == [] then []
    else if instrs[0].opcode == LIB_FUNC_DEF && |instrs| > 1 then [instrs[0]] + Withdrawn(instrs[2..])
    else [instrs[0]] + Withdrawn(instrs[1..])
  }

  lemma PlacedBehind(i: Instr, rest: seq<Instr>)
    requires Placed(rest)
    ensures Placed(Loaded(i) + rest)
  {
    var x := Loaded(i);
    var all := x + rest;
    forall j | 0 <= j < |all| && all[j].opcode == LIB_FUNC_DEF
      ensures j + 1 < |all| && all[j + 1] == Instr(LOAD_INT_LIT, all[j].line, One(-1))
    {
      if j >= |x| { assert rest[j - |x|] == all[j]; }
    }
  }

  /** Whatever bytes the statements are loaded from. */
  lemma {:induction false} LoadedPlaced(c: Codec, debug: bool, bytes: seq<Byte>)
    ensures var r := TakeStatements(c, debug, bytes); r.Some? ==> Placed(r.value.value)
    decreases |bytes|
  {
    hide TakeInstr;
    var r := TakeStatements(c, debug, bytes);
    if r.Some? && Opcode(bytes[0]) != END_STMTS {
      var i := TakeInstr(c, debug, bytes).value;
      LoadedPlaced(c, debug, i.rest);
      PlacedBehind(i.value, TakeStatements(c, debug, i.rest).value.value);
    }
  }

  lemma WithdrawnBehind(i: Instr, rest: seq<Instr>)
    ensures Withdrawn(Loaded(i) + rest) == [i] + Withdrawn(rest)
  {
    var x := Loaded(i);
    assert (x + rest)[|x|..] == rest;
  }

  lemma {:induction false} LoadedWithdrawn(debug: bool, instrs: seq<Instr>)
    ensures |LoadedInstrs(debug, instrs)| == |instrs| + References(instrs)
    ensures Withdrawn(LoadedInstrs(debug, instrs)) == Each((i: Instr) => Numbered(debug, i), instrs)
  {
    if instrs != [] {
      var i, rest := Numbered(debug, instrs[0]), instrs[1..];
      LoadedWithdrawn(debug, rest);
      WithdrawnBehind(i, LoadedInstrs(debug, rest));
      assert [i] + Each((i: Instr) => Numbered(debug, i), rest) == Each((i: Instr) => Numbered(debug, i), instrs);
    }
  }

  /** Written statements come back as they were, with one more instruction behind each function reference and no other. */
  lemma StatementsPlaced(c: Codec, debug: bool, instrs: seq<Instr>, k: seq<Byte>)
    requires forall i <- instrs :: GoodInstr(i) && InstrTexts(c, i)
    ensures var r := TakeStatements(c, debug, StatementsBytes(c, debug, instrs) + k);
      && r.Some? && r.value.rest == k && Placed(r.value.value) && |r.value.value| == |instrs| + References(instrs)
      && Withdrawn(r.value.value) == Each((i: Instr) => Numbered(debug, i), instrs)
  {
    hide TakeStatements, StatementsBytes, LoadedInstrs, Placed, GoodInstr, InstrTexts, Withdrawn, References;
    StatementsTrip(c, debug, instrs, k);
    LoadedPlaced(c, debug, StatementsBytes(c, debug, instrs) + k);
    LoadedWithdrawn(debug, instrs);
  }

  /** Copies of function variables are written but cannot be read back. */
  lemma FunctionCopyUnreadable(c: Codec, debug: bool, line: int, a: int, b: int, k: seq<Byte>)
    ensures TakeStatements(c, debug, StatementsBytes(c, debug, [Instr(COPY_FUNC_VAR, line, Two(a, b))]) + k).None?
  {
    var i := Instr(COPY_FUNC_VAR, line, Two(a, b));
    var all := StatementsBytes(c, debug, [i]) + k;
    FirstByte(c, debug, i, k);
    hide StatementsBytes, InstrBytes;
    assert all[0] == COPY_FUNC_VAR;
  }

  lemma FirstByte(c: Codec, debug: bool, i: Instr, k: seq<Byte>)
    requires i.opcode == COPY_FUNC_VAR
    ensures var all := StatementsBytes(c, debug, [i]) + k; all != [] && all[0] == COPY_FUNC_VAR
  {
    var bytes := (j: Instr) => InstrBytes(c, debug, j);
    assert All(bytes, [i]) == InstrBytes(c, debug, i) + All(bytes, [i][1..]);
    assert InstrBytes(c, debug, i)[0] == COPY_FUNC_VAR;
  }

  // ----- Entries, methods, classes -----

  function LoadedEntry(debug: bool, e: Entry): Entry {
    e.(name := if debug then e.name else [])
  }

  predicate GoodEntries(entries: seq<Entry>) {
    |entries| < -INT_MIN && forall e <- entries :: Word(e.kind)
  }

  /** Without debug information the names are not written. */
  predicate EntryTexts(c: Codec, debug: bool, entries: seq<Entry>) {
    debug ==> forall e <- entries :: GoodText(c, e.name)
  }

  function LoadedEntries(debug: bool, entries: seq<Entry>): seq<Entry> {
    Each((e: Entry) => LoadedEntry(debug, e), entries)
  }

  lemma EntriesTrip(c: Codec, debug: bool, entries: seq<Entry>, k: seq<Byte>)
    requires GoodEntries(entries) && EntryTexts(c, debug, entries)
    ensures TakeEntries(c, debug, EntriesBytes(c, debug, entries) + k) == Some(Read(LoadedEntries(debug, entries), k))
  {
    var take, bytes := (b: seq<Byte>) => TakeEntry(c, debug, b), (e: Entry) => EntryBytes(c, debug, e);
    var loaded := (e: Entry) => LoadedEntry(debug, e);
    forall e | e in entries ensures Undoes(take, bytes, loaded, e) {
      forall k': seq<Byte> ensures take(bytes(e) + k') == Some(Read(loaded(e), k')) {
        var name := if debug then StringBytes(c, e.name) else [];
        Assoc(IntBytes(e.kind), name, k');
        IntTrip(e.kind, name + k');
        if debug { StringTrip(c, e.name, k'); } else { assert name + k' == k'; }
      }
    }
    ListTrip(take, bytes, loaded, entries, k);
  }

  predicate GoodMethod(m: Method) {
    && Word(m.id) && Word(m.kind) && Word(m.params) && Word(m.space)
    && GoodEntries(m.entries) && forall i <- m.instrs :: GoodInstr(i)
  }

  predicate MethodTexts(c: Codec, debug: bool, m: Method) {
    && GoodText(c, m.name) && GoodText(c, m.rtrn)
    && EntryTexts(c, debug, m.entries) && forall i <- m.instrs :: InstrTexts(c, i)
  }

  function LoadedMethod(debug: bool, m: Method): Method {
    m.(entries := LoadedEntries(debug, m.entries), instrs := LoadedInstrs(debug, m.instrs))
  }

  lemma MethodTrip(c: Codec, debug: bool, m: Method, k: seq<Byte>)
    requires GoodMethod(m) && MethodTexts(c, debug, m)
    ensures TakeMethod(c, debug, MethodBytes(c, debug, m) + k) == Some(Read(LoadedMethod(debug, m), k))
  {
    hide TakeInt, TakeBool, TakeString, TakeEntries, TakeStatements, IntBytes, BoolBytes, StringBytes, EntriesBytes,
         StatementsBytes, GoodText, LoadedEntries, LoadedInstrs, GoodEntries, EntryTexts, GoodInstr, InstrTexts;
    var t11 := StatementsBytes(c, debug, m.instrs);
    var t10 := EntriesBytes(c, debug, m.entries) + t11;
    var t9 := IntBytes(m.space) + t10;
    var t8 := IntBytes(m.params) + t9;
    var t7 := StringBytes(c, m.rtrn) + t8;
    var t6 := StringBytes(c, m.name) + t7;
    var t5 := BoolBytes(m.isFunction) + t6;
    var t4 := BoolBytes(m.isNative) + t5;
    var t3 := BoolBytes(m.hasAndOr) + t4;
    var t2 := BoolBytes(m.isVirtual) + t3;
    var t1 := IntBytes(m.kind) + t2;
    IntThen(m.id, t1, k);
    IntThen(m.kind, t2, k);
    BoolThen(m.isVirtual, t3, k);
    BoolThen(m.hasAndOr, t4, k);
    BoolThen(m.isNative, t5, k);
    BoolThen(m.isFunction, t6, k);
    StringThen(c, m.name, t7, k);
    StringThen(c, m.rtrn, t8, k);
    IntThen(m.params, t9, k);
    IntThen(m.space, t10, k);
    Assoc(EntriesBytes(c, debug, m.entries), t11, k);
    EntriesTrip(c, debug, m.entries, t11 + k);
    StatementsTrip(c, debug, m.instrs, k);
  }

  lemma IntThen(n: int, t: seq<Byte>, k: seq<Byte>)
    requires Word(n)
    ensures TakeInt(IntBytes(n) + t + k) == Some(Read(n, t + k))
  {
    Assoc(IntBytes(n), t, k);
    IntTrip(n, t + k);
  }

  lemma BoolThen(b: bool, t: seq<Byte>, k: seq<Byte>)
    ensures TakeBool(BoolBytes(b) + t + k) == Some(Read(b, t + k))
  {
    Assoc(BoolBytes(b), t, k);
    BoolTrip(b, t + k);
  }

  lemma StringThen(c: Codec, s: WString, t: seq<Byte>, k: seq<Byte>)
    requires GoodText(c, s)
    ensures TakeString(c, StringBytes(c, s) + t + k) == Some(Read(s, t + k))
  {
    Assoc(StringBytes(c, s), t, k);
    StringTrip(c, s, t + k);
  }

  predicate GoodTexts(c: Codec, ss: seq<WString>) {
    forall s <- ss :: GoodText(c, s)
  }

  lemma StringsTrip(c: Codec, ss: seq<WString>, k: seq<Byte>)
    requires |ss| < -INT_MIN && GoodTexts(c, ss)
    ensures TakeList((b: seq<Byte>) => TakeString(c, b), StringsBytes(c, ss) + k) == Some(Read(ss, k))
  {
    var take, bytes, loaded := (b: seq<Byte>) => TakeString(c, b), (s: WString) => StringBytes(c, s), (s: WString) => s;
    forall s | s in ss ensures Undoes(take, bytes, loaded, s) {
      forall k': seq<Byte> ensures take(bytes(s) + k') == Some(Read(loaded(s), k')) { StringTrip(c, s, k'); }
    }
    ListTrip(take, bytes, loaded, ss, k);
    EachSame(loaded, ss);
  }

  lemma IntsTrip(ns: seq<int>, k: seq<Byte>)
    requires |ns| < -INT_MIN && forall n <- ns :: Word(n)
    ensures TakeList(TakeInt, IntsBytes(ns) + k) == Some(Read(ns, k))
  {
    var loaded := (n: int) => n;
    forall n | n in ns ensures Undoes(TakeInt, IntBytes, loaded, n) {
      forall k': seq<Byte> ensures TakeInt(IntBytes(n) + k') == Some(Read(loaded(n), k')) { IntTrip(n, k'); }
    }
    ListTrip(TakeInt, IntBytes, loaded, ns, k);
    EachSame(loaded, ns);
  }

  lemma DoublesTrip(ds: seq<Double>, k: seq<Byte>)
    requires |ds| < -INT_MIN
    ensures TakeList(TakeDouble, DoublesBytes(ds) + k) == Some(Read(ds, k))
  {
    var bytes: Double -> seq<Byte>, loaded := (d: Double) => d, (d: Double) => d;
    forall d | d in ds ensures Undoes(TakeDouble, bytes, loaded, d) {
      forall k': seq<Byte> ensures TakeDouble(bytes(d) + k') == Some(Read(loaded(d), k')) { DoubleTrip(d, k'); }
    }
    ListTrip(TakeDouble, bytes, loaded, ds, k);
    EachSame(loaded, ds);
  }

  predicate GoodClass(k: ClassDef) {
    && Word(k.id) && Word(k.pid) && Word(k.clsSpace) && Word(k.instSpace)
    && |k.interfaceIds| < -INT_MIN && (forall n <- k.interfaceIds :: Word(n)) && |k.interfaceNames| < -INT_MIN
    && GoodEntries(k.clsEntries) && GoodEntries(k.instEntries)
    && |k.methods| < -INT_MIN && forall m <- k.methods :: GoodMethod(m)
  }

  predicate ClassTexts(c: Codec, k: ClassDef) {
    && GoodText(c, k.name) && GoodText(c, k.parent) && GoodTexts(c, k.interfaceNames)
    && (k.isDebug ==> GoodText(c, k.fileName))
    && EntryTexts(c, k.isDebug, k.clsEntries) && EntryTexts(c, k.isDebug, k.instEntries)
    && forall m <- k.methods :: MethodTexts(c, k.isDebug, m)
  }

  function LoadedMethods(debug: bool, methods: seq<Method>): seq<Method> {
    Each((m: Method) => LoadedMethod(debug, m), methods)
  }

  /** Ids are assigned anew after loading. */
  function LoadedClass(k: ClassDef): ClassDef {
    k.(id := 0, pid := 0, interfaceIds := [], fileName := if k.isDebug then k.fileName else [],
       clsEntries := LoadedEntries(k.isDebug, k.clsEntries), instEntries := LoadedEntries(k.isDebug, k.instEntries),
       methods := LoadedMethods(k.isDebug, k.methods))
  }

  lemma MethodsTrip(c: Codec, debug: bool, methods: seq<Method>, k: seq<Byte>)
    requires |methods| < -INT_MIN && forall m <- methods :: GoodMethod(m) && MethodTexts(c, debug, m)
    ensures TakeList((b: seq<Byte>) => TakeMethod(c, debug, b), MethodsBytes(c, debug, methods) + k)
      == Some(Read(LoadedMethods(debug, methods), k))
  {
    var take, bytes := (b: seq<Byte>) => TakeMethod(c, debug, b), (m: Method) => MethodBytes(c, debug, m);
    var loaded := (m: Method) => LoadedMethod(debug, m);
    forall m | m in methods ensures Undoes(take, bytes, loaded, m) {
      forall k': seq<Byte> ensures take(bytes(m) + k') == Some(Read(loaded(m), k')) { MethodTrip(c, debug, m, k'); }
    }
    ListTrip(take, bytes, loaded, methods, k);
  }

  lemma ClassTrip(c: Codec, x: ClassDef, k: seq<Byte>)
    requires GoodClass(x) && ClassTexts(c, x)
    ensures TakeClass(c, ClassBytes(c, x) + k) == Some(Read(LoadedClass(x), k))
  {
    hide TakeInt, TakeBool, TakeString, TakeEntries, TakeList, IntBytes, BoolBytes, StringBytes, EntriesBytes, IntsBytes, StringsBytes, MethodsBytes,
         GoodText, GoodTexts, LoadedEntries, LoadedMethods, GoodEntries, EntryTexts, GoodMethod, MethodTexts, TakeMethod, MethodBytes;
    var debug := x.isDebug;
    var file := if debug then StringBytes(c, x.fileName) else [];
    var t14 := MethodsBytes(c, debug, x.methods);
    var t13 := EntriesBytes(c, debug, x.instEntries) + t14;
    var t12 := EntriesBytes(c, debug, x.clsEntries) + t13;
    var t11 := IntBytes(x.instSpace) + t12;
    var t10 := IntBytes(x.clsSpace) + t11;
    var t9 := file + t10;
    var t8 := BoolBytes(debug) + t9;
    var t7 := BoolBytes(x.isVirtual) + t8;
    var t6 := BoolBytes(x.isInterface) + t7;
    var t5 := StringsBytes(c, x.interfaceNames) + t6;
    var t4 := IntsBytes(x.interfaceIds) + t5;
    var t3 := StringBytes(c, x.parent) + t4;
    var t2 := IntBytes(x.pid) + t3;
    var t1 := StringBytes(c, x.name) + t2;
    IntThen(x.id, t1, k);
    StringThen(c, x.name, t2, k);
    IntThen(x.pid, t3, k);
    StringThen(c, x.parent, t4, k);
    Assoc(IntsBytes(x.interfaceIds), t5, k);
    IntsTrip(x.interfaceIds, t5 + k);
    Assoc(StringsBytes(c, x.interfaceNames), t6, k);
    StringsTrip(c, x.interfaceNames, t6 + k);
    BoolThen(x.isInterface, t7, k);
    BoolThen(x.isVirtual, t8, k);
    BoolThen(debug, t9, k);
    if debug { StringThen(c, x.fileName, t10, k); } else { assert t9 == t10; }
    IntThen(x.clsSpace, t11, k);
    IntThen(x.instSpace, t12, k);
    Assoc(EntriesBytes(c, debug, x.clsEntries), t13, k);
    EntriesTrip(c, debug, x.clsEntries, t13 + k);
    Assoc(EntriesBytes(c, debug, x.instEntries), t14, k);
    EntriesTrip(c, debug, x.instEntries, t14 + k);
    MethodsTrip(c, debug, x.methods, k);
  }

  // ----- Enums and the whole library -----

  predicate GoodEnum(e: EnumDef) {
    Word(e.offset) && |e.items| < -INT_MIN && forall i <- e.items :: Word(i.id)
  }

  predicate EnumTexts(c: Codec, e: EnumDef) {
    GoodText(c, e.name) && forall i <- e.items :: GoodText(c, i.name)
  }

  lemma EnumTrip(c: Codec, e: EnumDef, k: seq<Byte>)
    requires GoodEnum(e) && EnumTexts(c, e)
    ensures TakeEnum(c, EnumBytes(c, e) + k) == Some(Read(e, k))
  {
    var take, bytes, loaded := (b: seq<Byte>) => TakeItem(c, b), (i: EnumItem) => ItemBytes(c, i), (i: EnumItem) => i;
    forall i | i in e.items ensures Undoes(take, bytes, loaded, i) {
      forall k': seq<Byte> ensures take(bytes(i) + k') == Some(Read(loaded(i), k')) {
        StringThen(c, i.name, IntBytes(i.id), k');
        IntTrip(i.id, k');
      }
    }
    var items := ListBytes(bytes, e.items);
    StringThen(c, e.name, IntBytes(e.offset) + items, k);
    IntThen(e.offset, items, k);
    ListTrip(take, bytes, loaded, e.items, k);
    EachSame(loaded, e.items);
  }

  predicate Short<T>(s: seq<T>) {
    |s| < -INT_MIN
  }

  predicate GoodLibrary(l: Library) {
    && Short(l.floatStrings) && (forall ds <- l.floatStrings :: Short(ds))
    && Short(l.intStrings) && (forall ns <- l.intStrings :: Short(ns) && forall n <- ns :: Word(n))
    && Short(l.charStrings) && Short(l.bundles)
    && Short(l.enums) && (forall e <- l.enums :: GoodEnum(e))
    && Short(l.classes) && (forall x <- l.classes :: GoodClass(x))
  }

  /** The codec gives back every text the file of the library holds. */
  predicate LibraryTexts(c: Codec, l: Library) {
    && GoodTexts(c, l.charStrings) && GoodTexts(c, l.bundles)
    && (forall e <- l.enums :: EnumTexts(c, e)) && forall x <- l.classes :: ClassTexts(c, x)
  }

  function LoadedLibrary(l: Library): Library {
    l.(classes := Each(LoadedClass, l.classes))
  }

  lemma FloatsTrip(pools: seq<seq<Double>>, k: seq<Byte>)
    requires Short(pools) && forall ds <- pools :: Short(ds)
    ensures TakeList((b: seq<Byte>) => TakeList(TakeDouble, b), ListBytes(DoublesBytes, pools) + k) == Some(Read(pools, k))
  {
    var take, loaded := (b: seq<Byte>) => TakeList(TakeDouble, b), (ds: seq<Double>) => ds;
    forall ds | ds in pools ensures Undoes(take, DoublesBytes, loaded, ds) {
      forall k': seq<Byte> ensures take(DoublesBytes(ds) + k') == Some(Read(loaded(ds), k')) { DoublesTrip(ds, k'); }
    }
    ListTrip(take, DoublesBytes, loaded, pools, k);
    EachSame(loaded, pools);
  }

  lemma IntPoolsTrip(pools: seq<seq<int>>, k: seq<Byte>)
    requires Short(pools) && forall ns <- pools :: Short(ns) && forall n <- ns :: Word(n)
    ensures TakeList((b: seq<Byte>) => TakeList(TakeInt, b), ListBytes(IntsBytes, pools) + k) == Some(Read(pools, k))
  {
    var take, loaded := (b: seq<Byte>) => TakeList(TakeInt, b), (ns: seq<int>) => ns;
    forall ns | ns in pools ensures Undoes(take, IntsBytes, loaded, ns) {
      forall k': seq<Byte> ensures take(IntsBytes(ns) + k') == Some(Read(loaded(ns), k')) { IntsTrip(ns, k'); }
    }
    ListTrip(take, IntsBytes, loaded, pools, k);
    EachSame(loaded, pools);
  }

  lemma EnumsTrip(c: Codec, enums: seq<EnumDef>, k: seq<Byte>)
    requires Short(enums) && forall e <- enums :: GoodEnum(e) && EnumTexts(c, e)
    ensures TakeList((b: seq<Byte>) => TakeEnum(c, b), EnumsBytes(c, enums) + k) == Some(Read(enums, k))
  {
    var take, bytes, loaded := (b: seq<Byte>) => TakeEnum(c, b), (e: EnumDef) => EnumBytes(c, e), (e: EnumDef) => e;
    forall e | e in enums ensures Undoes(take, bytes, loaded, e) {
      forall k': seq<Byte> ensures take(bytes(e) + k') == Some(Read(loaded(e), k')) { EnumTrip(c, e, k'); }
    }
    ListTrip(take, bytes, loaded, enums, k);
    EachSame(loaded, enums);
  }

  lemma ClassesTrip(c: Codec, classes: seq<ClassDef>, k: seq<Byte>)
    requires Short(classes) && forall x <- classes :: GoodClass(x) && ClassTexts(c, x)
    ensures TakeList((b: seq<Byte>) => TakeClass(c, b), ClassesBytes(c, classes) + k)
      == Some(Read(Each(LoadedClass, classes), k))
  {
    var take, bytes := (b: seq<Byte>) => TakeClass(c, b), (x: ClassDef) => ClassBytes(c, x);
    forall x | x in classes ensures Undoes(take, bytes, LoadedClass, x) {
      forall k': seq<Byte> ensures take(bytes(x) + k') == Some(Read(LoadedClass(x), k')) { ClassTrip(c, x, k'); }
    }
    ListTrip(take, bytes, LoadedClass, classes, k);
  }

  /** Round trip: reading the file of a library takes exactly its bytes and rebuilds its pools, bundles,
      enums, classes, methods and instructions, up to ids, names only debug files keep, and the
      placeholder behind each function reference. */
  lemma LibraryTrip(c: Codec, l: Library, k: seq<Byte>)
    requires GoodLibrary(l) && LibraryTexts(c, l)
    ensures TakeLibrary(c, LibraryBytes(c, l) + k) == Some(Read(LoadedLibrary(l), k))
  {
    hide TakeInt, TakeList, IntBytes, ListBytes, StringsBytes, EnumsBytes, ClassesBytes, DoublesBytes, IntsBytes,
         GoodTexts, GoodEnum, EnumTexts, GoodClass, ClassTexts, LoadedClass;
    var t7 := ClassesBytes(c, l.classes);
    var t6 := EnumsBytes(c, l.enums) + t7;
    var t5 := StringsBytes(c, l.bundles) + t6;
    var t4 := StringsBytes(c, l.charStrings) + t5;
    var t3 := ListBytes(IntsBytes, l.intStrings) + t4;
    var t2 := ListBytes(DoublesBytes, l.floatStrings) + t3;
    var t1 := IntBytes(MAGIC_NUM_LIB) + t2;
    IntThen(VER_NUM, t1, k);
    IntThen(MAGIC_NUM_LIB, t2, k);
    Assoc(ListBytes(DoublesBytes, l.floatStrings), t3, k);
    FloatsTrip(l.floatStrings, t3 + k);
    Assoc(ListBytes(IntsBytes, l.intStrings), t4, k);
    IntPoolsTrip(l.intStrings, t4 + k);
    Assoc(StringsBytes(c, l.charStrings), t5, k);
    StringsTrip(c, l.charStrings, t5 + k);
    Assoc(StringsBytes(c, l.bundles), t6, k);
    StringsTrip(c, l.bundles, t6 + k);
    Assoc(EnumsBytes(c, l.enums), t7, k);
    EnumsTrip(c, l.enums, t7 + k);
    ClassesTrip(c, l.classes, k);
  }
}
