// The conversion between wide strings and bytes the compiler and the linker ask the platform for: UTF-8 (RFC 3629,
// section 3), over C strings, which end at a zero. With it the texts of a library come back.

module Utf8 {
  import opened Wrappers
  import opened FileFormat
  import opened RoundTrip

  /** The code points that have bytes and do not end a C string. */
  predicate Scalar(p: int) {
    0 < p < 0xd800 || 0xe000 <= p < 0x11_0000
  }

  /** The bytes of one code point, six bits in each byte behind the first. */
  function Units(p: int): seq<Byte>
    requires Scalar(p)
  {
    if p < 0x80 then [p]
    else if p < 0x800 then [0xc0 + p / 64, 0x80 + p % 64]
    else if p < 0x1_0000 then [0xe0 + p / 64 / 64, 0x80 + p / 64 % 64, 0x80 + p % 64]
    else [0xf0 + p / 64 / 64 / 64, 0x80 + p / 64 / 64 % 64, 0x80 + p / 64 % 64, 0x80 + p % 64]
  }

  /** Nothing behind a code point without bytes is written. */
  function Encode(s: WString): seq<Byte> {
    if s == [] || !Scalar(s[0]) then [] else Units(s[0]) + Encode(s[1..])
  }

  /** n more bytes of a code point that needs them because it is not below least. */
  function Continued(n: nat, p: int, least: int, bytes: seq<Byte>): (r: Option<Read<int>>)
    ensures r.Some? ==> |r.value.rest| <= |bytes|
  {
    if n == 0 then (if Scalar(p) && least <= p then Some(Read(p, bytes)) else None)
    else if bytes == [] || !(0x80 <= bytes[0] < 0xc0) then None
    else Continued(n - 1, 64 * p + (bytes[0] - 0x80), least, bytes[1..])
  }

  function Point(bytes: seq<Byte>): (r: Option<Read<int>>)
    requires bytes != []
    ensures r.Some? ==> |r.value.rest| < |bytes|
  {
    var b := bytes[0];
    if b < 0x80 then Continued(0, b, 0, bytes[1..])
    else if 0xc0 <= b < 0xe0 then Continued(1, b - 0xc0, 0x80, bytes[1..])
    else if 0xe0 <= b < 0xf0 then Continued(2, b - 0xe0, 0x800, bytes[1..])
    else if 0xf0 <= b < 0xf8 then Continued(3, b - 0xf0, 0x1_0000, bytes[1..])
    else None
  }

  function Decode(bytes: seq<Byte>): Option<WString>
    decreases |bytes|
  {
    if bytes == [] || bytes[0] == 0 then Some([]) else
    var p := Point(bytes);
    if p.None? then None else
    var others := Decode(p.value.rest);
    if others.None? then None else Some([p.value.value] + others.value)
  }

  const UTF8 := Codec(Encode, Decode)

  // ----- What comes back -----

  /** The text up to the first code point without bytes. */
  function Written(s: WString): WString {
    if s == [] || !Scalar(s[0]) then [] else [s[0]] + Written(s[1..])
  }

  /** One more byte adds six bits. */
  lemma Next(n: nat, p: int, least: int, bits: int, k: seq<Byte>)
    requires 0 <= bits < 64
    ensures Continued(n + 1, p, least, [0x80 + bits] + k) == Continued(n, 64 * p + bits, least, k)
  {
    var bytes: seq<Byte> := [0x80 + bits] + k;
    assert bytes[1..] == k;
  }

  lemma Last(p: int, least: int, k: seq<Byte>)
    requires Scalar(p) && least <= p
    ensures Continued(0, p, least, k) == Some(Read(p, k))
  {
  }

  /** Taking six bits off a code point. */
  lemma SixBits(p: int)
    requires 0 <= p < 0x11_0000
    ensures p == 64 * (p / 64) + p % 64 && 0 <= p / 64 < 0x4400
    ensures p < 0x80 <==> p / 64 < 2
    ensures p < 0x800 <==> p / 64 < 0x20
    ensures p < 0x1_0000 <==> p / 64 < 0x400
  {
  }

  lemma PointTrip(p: int, k: seq<Byte>)
    requires Scalar(p)
    ensures Units(p) + k != [] && (Units(p) + k)[0] != 0 && Point(Units(p) + k) == Some(Read(p, k))
  {
    assert 0 < p < 0x11_0000;
    hide Continued, Scalar;
    var u := Units(p);
    SixBits(p);
    if p < 0x80 {
      assert (u + k)[1..] == k;
      Last(p, 0, k);
    } else if p < 0x800 {
      assert (u + k)[1..] == [u[1]] + k;
      Next(0, p / 64, 0x80, p % 64, k);
      Last(p, 0x80, k);
    } else {
      SixBits(p / 64);
      if p < 0x1_0000 { ThreeBytes(p, k); } else { FourBytes(p, k); }
    }
  }

  lemma ThreeBytes(p: int, k: seq<Byte>)
    requires Scalar(p) && 0x800 <= p < 0x1_0000
    ensures Point(Units(p) + k) == Some(Read(p, k))
  {
    hide Continued, Scalar;
    var u, a := Units(p), p / 64;
    SixBits(p);
    SixBits(a);
    assert (u + k)[1..] == [u[1]] + ([u[2]] + k);
    Next(1, a / 64, 0x800, a % 64, [u[2]] + k);
    Next(0, a, 0x800, p % 64, k);
    Last(p, 0x800, k);
  }

  lemma FourBytes(p: int, k: seq<Byte>)
    requires Scalar(p) && 0x1_0000 <= p
    ensures Point(Units(p) + k) == Some(Read(p, k))
  {
    assert p < 0x11_0000;
    hide Continued, Scalar, Point;
    SixBits(p);
    SixBits(p / 64);
    SixBits(p / 64 / 64);
    FourOf(p / 64 / 64 / 64, p / 64 / 64 % 64, p / 64 % 64, p % 64, p, k);
  }

  lemma FourOf(a: int, b: int, c: int, d: int, p: int, k: seq<Byte>)
    requires 0 <= a < 5 && 0 <= b < 64 && 0 <= c < 64 && 0 <= d < 64 && p == 64 * (64 * (64 * a + b) + c) + d
    requires Scalar(p) && 0x1_0000 <= p
    ensures Point([0xf0 + a, 0x80 + b, 0x80 + c, 0x80 + d] + k) == Some(Read(p, k))
  {
    hide Continued, Scalar;
    var u: seq<Byte> := [0xf0 + a, 0x80 + b, 0x80 + c, 0x80 + d];
    assert (u + k)[1..] == [u[1]] + ([u[2]] + ([u[3]] + k));
    Next(2, a, 0x1_0000, b, [u[2]] + ([u[3]] + k));
    Next(1, 64 * a + b, 0x1_0000, c, [u[3]] + k);
    Next(0, 64 * (64 * a + b) + c, 0x1_0000, d, k);
    Last(p, 0x1_0000, k);
  }

  lemma {:induction false} Decoded(s: WString)
    ensures Decode(Encode(s)) == Some(Written(s))
  {
    if s != [] && Scalar(s[0]) {
      PointTrip(s[0], Encode(s[1..]));
      Decoded(s[1..]);
    }
  }

  lemma {:induction false} WrittenExact(s: WString)
    ensures Written(s) == s <==> forall p <- s :: Scalar(p)
  {
    if s != [] {
      WrittenExact(s[1..]);
      assert s == [s[0]] + s[1..];
      if Scalar(s[0]) {
        assert Written(s)[1..] == Written(s[1..]);
        assert (forall p <- s :: Scalar(p)) <==> forall p <- s[1..] :: Scalar(p);
      } else {
        assert s[0] in s;
      }
    }
  }

  /** A text comes back exactly when each of its code points has bytes and is not 0, and they fit the size in front. */
  lemma TextExact(s: WString)
    ensures GoodText(UTF8, s) <==> (forall p <- s :: Scalar(p)) && |Encode(s)| < 0x8000_0000
  {
    Decoded(s);
    WrittenExact(s);
  }

  /** A character comes back exactly when it is 0 or has bytes. */
  lemma CharExact(code: int)
    ensures GoodChar(UTF8, code) <==> code == 0 || Scalar(code)
  {
    TextExact([code]);
    assert [code][1..] == [];
  }

  lemma OneText(p: int)
    requires Scalar(p)
    ensures Encode([p]) == Units(p)
  {
    hide Units;
    assert [p][1..] == [] && Units(p) + [] == Units(p);
  }

  /** One code point of each length, byte by byte. */
  lemma EncodedText()
    ensures Encode([0x41]) == [0x41] && Encode([0xe9]) == [0xc3, 0xa9] && Encode([0x20ac]) == [0xe2, 0x82, 0xac]
    ensures Encode([0x1_f600]) == [0xf0, 0x9f, 0x98, 0x80]
  {
    hide Encode;
    OneText(0x41);
    OneText(0xe9);
    OneText(0x20ac);
    OneText(0x1_f600);
  }

  // ----- A library that comes back -----

  /** The euro sign, a letter and a code point of four bytes. */
  const TEXT: WString := [0x20ac, 0x41, 0x1_f600]

  const CODE := [
    Instr(LOAD_CHAR_LIT, 1, Character(0x20ac)),
    Instr(LOAD_CHAR_LIT, 2, Character(0)),
    Instr(LIB_MTHD_CALL, 3, Call(0, TEXT, TEXT)),
    Instr(LIB_FUNC_DEF, 4, Function(TEXT, TEXT))]

  const SAMPLE := Library([[[0, 0, 0, 0, 0, 0, 0, 0]]], [[-1, 1]], [TEXT], [[]], [EnumDef(TEXT, 0, [EnumItem(TEXT, 7)])],
    [ClassDef(1, TEXT, -1, [], [], [TEXT], false, true, true, TEXT, 8, 8, [Entry(0, TEXT)], [],
       [Method(0, 1, false, false, false, false, TEXT, [0x69], 1, 16, [Entry(0, TEXT)], CODE)])])

  lemma TextsWritten()
    ensures GoodText(UTF8, TEXT) && GoodText(UTF8, []) && GoodText(UTF8, [0x69]) && GoodChar(UTF8, 0x20ac) && GoodChar(UTF8, 0)
  {
    TextExact(TEXT);
    TextExact([]);
    TextExact([0x69]);
    CharExact(0x20ac);
  }

  lemma SampleGood()
    ensures GoodLibrary(SAMPLE)
  {
  }

  lemma SampleTexts()
    ensures LibraryTexts(UTF8, SAMPLE)
  {
    hide GoodText, GoodChar;
    TextsWritten();
  }

  /** A library with instructions, names, literals and an enum in it comes back. */
  lemma SampleTrip(k: seq<Byte>)
    ensures GoodLibrary(SAMPLE) && LibraryTexts(UTF8, SAMPLE)
    ensures TakeLibrary(UTF8, LibraryBytes(UTF8, SAMPLE) + k) == Some(Read(LoadedLibrary(SAMPLE), k))
  {
    hide *;
    SampleGood();
    SampleTexts();
    LibraryTrip(UTF8, SAMPLE, k);
  }
}
