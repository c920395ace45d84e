// How a library file reads, byte by byte.

module FileText {
  import opened Wrappers
  import opened Words
  import opened FileFormat
  import U = Utf8
  import R = RoundTrip

  /** A word is four bytes, the lowest first. */
  lemma LowestFirst(n: int)
    ensures var b: seq<int> := IntBytes(n);
      && |b| == 4 && (n - (b[0] + 0x100 * b[1] + 0x1_0000 * b[2] + 0x100_0000 * b[3])) % TWO_32 == 0
  {
    R.Digits(n % TWO_32);
  }

  lemma Small(n: int)
    requires 0 <= n < 256
    ensures IntBytes(n) == [n, 0, 0, 0]
  {
  }

  /** The bytes of a name of one letter: its length, then the letter. */
  function Letter(p: int): seq<Byte>
    requires 0 < p < 0x80
  {
    [1, 0, 0, 0, p]
  }

  lemma LetterText(p: int)
    requires 0 < p < 0x80
    ensures StringBytes(U.UTF8, [p]) == Letter(p)
  {
    assert [p][1..] == [] && U.Encode([p]) == [p] + [];
    Small(1);
  }

  const RTRN := 75

  const A := 0x41
  const B := 0x42
  const D := 0x44

  /** One instruction of each format: its opcode, its line if there is debug information, its operands in order. */
  lemma InstrText(debug: bool)
    ensures var line: seq<Byte> := if debug then [9, 0, 0, 0] else [];
      && InstrBytes(U.UTF8, debug, Instr(RTRN, 9, Nothing)) == [75] + line
      && InstrBytes(U.UTF8, debug, Instr(LOAD_INT_LIT, 9, One(7))) == [0] + (line + [7, 0, 0, 0])
      && InstrBytes(U.UTF8, debug, Instr(LOAD_INT_VAR, 9, Two(7, 8))) == [3] + (line + [7, 0, 0, 0, 8, 0, 0, 0])
      && InstrBytes(U.UTF8, debug, Instr(MTHD_CALL, 9, Three(5, 6, 1))) == [71] + (line + [5, 0, 0, 0, 6, 0, 0, 0, 1, 0, 0, 0])
      && InstrBytes(U.UTF8, debug, Instr(LOAD_CHAR_LIT, 9, Character(A))) == [1] + (line + Letter(A))
      && InstrBytes(U.UTF8, debug, Instr(LOAD_CHAR_LIT, 9, Character(0))) == [1] + (line + [0, 0, 0, 0])
      && InstrBytes(U.UTF8, debug, Instr(LIB_NEW_OBJ_INST, 9, Class([A]))) == [101] + (line + Letter(A))
      && InstrBytes(U.UTF8, debug, Instr(LIB_MTHD_CALL, 9, Call(1, [A], [B]))) ==
           [102] + (line + ([1, 0, 0, 0] + (Letter(A) + Letter(B))))
      && InstrBytes(U.UTF8, debug, Instr(LIB_FUNC_DEF, 9, Function([A], [B]))) == [104] + (line + (Letter(A) + Letter(B)))
  {
    Smalls();
    LetterText(A);
    LetterText(B);
    hide IntBytes, StringBytes;
    assert [7, 0, 0, 0] + [8, 0, 0, 0] == [7, 0, 0, 0, 8, 0, 0, 0];
    assert [5, 0, 0, 0] + ([6, 0, 0, 0] + [1, 0, 0, 0]) == [5, 0, 0, 0, 6, 0, 0, 0, 1, 0, 0, 0];
    assert forall x: seq<Byte> :: x + [] == x;
  }

  /** What stands behind each opcode, in the order of the opcodes: nothing, one to three words, a character, a double, or the
      names of a class (k), of a native call (n) or of a function (f). */
  const OPERANDS := "1cd200220020022" +
    "200222222222200" +
    "000000000000000" +
    "000000000000000" +
    "000000000003221" +
    "011111000011110" +
    "00000300000knkf"

  function Sign(f: Format): char {
    match f
    case Bare => '0'
    case OneInt => '1'
    case TwoInts => '2'
    case ThreeInts => '3'
    case OneChar => 'c'
    case OneDouble => 'd'
    case ClassName => 'k'
    case NativeNames => 'n'
    case Names => 'f'
  }

  lemma FormatText(op: nat)
    requires op < END_STMTS
    ensures |OPERANDS| == END_STMTS && OPERANDS[op] == Sign(WriteFormat(op))
  {
  }

  lemma Smalls()
    ensures IntBytes(0) == [0, 0, 0, 0] && IntBytes(1) == [1, 0, 0, 0] && IntBytes(2) == [2, 0, 0, 0] && IntBytes(3) == [3, 0, 0, 0]
    ensures IntBytes(4) == [4, 0, 0, 0] && IntBytes(5) == [5, 0, 0, 0] && IntBytes(6) == [6, 0, 0, 0] && IntBytes(7) == [7, 0, 0, 0]
    ensures IntBytes(8) == [8, 0, 0, 0] && IntBytes(9) == [9, 0, 0, 0]
  {
    Small(0);
    Small(1);
    Small(2);
    Small(3);
    Small(4);
    Small(5);
    Small(6);
    Small(7);
    Small(8);
    Small(9);
  }

  function W(n: Byte): seq<Byte> {
    [n, 0, 0, 0]
  }

  const METHOD := Method(1, 2, true, false, true, false, [A], [B], 3, 4, [Entry(5, [D])], [Instr(RTRN, 9, Nothing)])

  /** A method, with and without debug information. */
  lemma MethodText(debug: bool)
    ensures MethodBytes(U.UTF8, debug, METHOD) ==
      W(1) + (W(2) + (W(1) + (W(0) + (W(1) + (W(0) + (Letter(A) + (Letter(B) + (W(3) + (W(4)
      + ((W(1) + (W(5) + if debug then Letter(D) else [])) + ([75] + ((if debug then W(9) else []) + [105]))))))))))))
  {
    Smalls();
    LetterText(A);
    LetterText(B);
    LetterText(D);
    InstrText(debug);
    ReturnText(debug);
    EntryText(debug);
    hide IntBytes, StringBytes, Letter, EntriesBytes, StatementsBytes;
  }

  lemma ReturnText(debug: bool)
    ensures StatementsBytes(U.UTF8, debug, [Instr(RTRN, 9, Nothing)]) == [75] + ((if debug then W(9) else []) + [105])
  {
    InstrText(debug);
    var bytes := (i: Instr) => InstrBytes(U.UTF8, debug, i);
    Alone(bytes, Instr(RTRN, 9, Nothing));
    hide InstrBytes;
  }

  lemma Alone<T>(bytes: T -> seq<Byte>, value: T)
    ensures All(bytes, [value]) == bytes(value)
  {
    assert [value][1..] == [] && bytes(value) + [] == bytes(value);
  }

  lemma EntryText(debug: bool)
    ensures EntriesBytes(U.UTF8, debug, [Entry(5, [D])]) == W(1) + (W(5) + if debug then Letter(D) else [])
  {
    Smalls();
    LetterText(D);
    Alone((e: Entry) => EntryBytes(U.UTF8, debug, e), Entry(5, [D]));
    hide IntBytes, StringBytes, Letter;
  }

  const CLASS := ClassDef(1, [A], 2, [B], [3], [[D]], true, false, true, [D], 4, 5, [], [], [])

  /** A class with debug information and without members. */
  lemma ClassText()
    ensures ClassBytes(U.UTF8, CLASS) ==
      W(1) + (Letter(A) + (W(2) + (Letter(B) + ((W(1) + W(3)) + ((W(1) + Letter(D)) + (W(1) + (W(0) + (W(1) + (Letter(D)
      + (W(4) + (W(5) + (W(0) + (W(0) + W(0))))))))))))))
  {
    Smalls();
    LetterText(A);
    LetterText(B);
    LetterText(D);
    ListsText();
    hide IntBytes, StringBytes, Letter, IntsBytes, StringsBytes, EntriesBytes, MethodsBytes;
  }

  lemma ListsText()
    ensures IntsBytes([3]) == W(1) + W(3) && StringsBytes(U.UTF8, [[D]]) == W(1) + Letter(D)
    ensures EntriesBytes(U.UTF8, true, []) == W(0) && MethodsBytes(U.UTF8, true, []) == W(0)
  {
    Smalls();
    LetterText(D);
    Alone(IntBytes, 3);
    Alone((s: WString) => StringBytes(U.UTF8, s), [D]);
    assert W(0) + [] == W(0);
    hide IntBytes, StringBytes, Letter;
  }

  const ZERO: Double := [0, 0, 0, 0, 0, 0, 0, 0]

  const LIBRARY := Library([[ZERO]], [[3]], [[A]], [[B]], [EnumDef([A], 4, [EnumItem([B], 5)])], [])

  /** A library with pools, bundles and an enum: version 3260, then 0xddde. */
  lemma LibraryText()
    ensures LibraryBytes(U.UTF8, LIBRARY) ==
      [0xbc, 0x0c, 0, 0] + ([0xde, 0xdd, 0, 0] + ((W(1) + (W(1) + ZERO)) + ((W(1) + (W(1) + W(3))) + ((W(1) + Letter(A))
      + ((W(1) + Letter(B)) + ((W(1) + (Letter(A) + (W(4) + (W(1) + (Letter(B) + W(5)))))) + W(0)))))))
  {
    Smalls();
    LetterText(A);
    LetterText(B);
    HeaderText();
    PoolsText();
    EnumText();
    hide IntBytes, StringBytes, Letter, StringsBytes, EnumsBytes, ClassesBytes, DoublesBytes, IntsBytes, ListBytes;
  }

  lemma HeaderText()
    ensures IntBytes(VER_NUM) == [0xbc, 0x0c, 0, 0] && IntBytes(MAGIC_NUM_LIB) == [0xde, 0xdd, 0, 0]
  {
  }

  lemma PoolsText()
    ensures ListBytes(DoublesBytes, [[ZERO]]) == W(1) + (W(1) + ZERO) && ListBytes(IntsBytes, [[3]]) == W(1) + (W(1) + W(3))
    ensures StringsBytes(U.UTF8, [[A]]) == W(1) + Letter(A) && StringsBytes(U.UTF8, [[B]]) == W(1) + Letter(B)
    ensures ClassesBytes(U.UTF8, []) == W(0)
  {
    Smalls();
    LetterText(A);
    LetterText(B);
    Alone(DoublesBytes, [ZERO]);
    Alone((d: Double) => d, ZERO);
    Alone(IntsBytes, [3]);
    Alone(IntBytes, 3);
    Alone((s: WString) => StringBytes(U.UTF8, s), [A]);
    Alone((s: WString) => StringBytes(U.UTF8, s), [B]);
    assert W(0) + [] == W(0);
    hide IntBytes, StringBytes, Letter;
  }

  lemma EnumText()
    ensures EnumsBytes(U.UTF8, [EnumDef([A], 4, [EnumItem([B], 5)])]) == W(1) + (Letter(A) + (W(4) + (W(1) + (Letter(B) + W(5)))))
  {
    Smalls();
    LetterText(A);
    LetterText(B);
    var item, def := EnumItem([B], 5), EnumDef([A], 4, [EnumItem([B], 5)]);
    Alone((e: EnumDef) => EnumBytes(U.UTF8, e), def);
    Alone((i: EnumItem) => ItemBytes(U.UTF8, i), item);
    hide IntBytes, StringBytes, Letter;
  }
}
