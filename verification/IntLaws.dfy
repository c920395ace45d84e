// What integer arithmetic means: for each operation the property that determines its result among all words.

module IntLaws {
  import opened Wrappers
  import opened Words
  import opened Bytecode

  predicate IsWord(n: int) {
    INT_MIN <= n < -INT_MIN
  }

  function Abs(n: int): nat {
    if n < 0 then -n else n
  }

  // ----- Sums, differences, products -----

  /** v is the only word that differs from n by a multiple of 2^32. */
  ghost predicate Congruent(v: int, n: int) {
    IsWord(v) && exists c: int :: v == n + TWO_32 * c
  }

  lemma WrapCongruent(n: int, v: int)
    ensures v == Wrap(n) <==> Congruent(v, n)
  {
    var w := Wrap(n);
    assert w == n + TWO_32 * (w / TWO_32 - n / TWO_32);
    if Congruent(v, n) {
      var c :| v == n + TWO_32 * c;
      assert v - w == TWO_32 * (c - (w / TWO_32 - n / TWO_32));
    }
  }

  /** Addition, subtraction and multiplication are those of the integers, up to multiples of 2^32. */
  lemma RingExact(a: int, b: int, v: int)
    ensures EvalInt(Add, a, b) == Some(v) <==> Congruent(v, a + b)
    ensures EvalInt(Sub, a, b) == Some(v) <==> Congruent(v, a - b)
    ensures EvalInt(Mul, a, b) == Some(v) <==> Congruent(v, a * b)
  {
    WrapCongruent(a + b, v);
    WrapCongruent(a - b, v);
    WrapCongruent(a * b, v);
  }

  // ----- Quotients and remainders -----

  /** q and r divide a by b toward zero: the remainder is smaller than the divisor and has the sign of the dividend. */
  predicate Truncates(a: int, b: int, q: int, r: int) {
    a == q * b + r && Abs(r) < Abs(b) && (r == 0 || (r < 0 <==> a < 0))
  }

  /** Division and remainder exist but for the divisor 0 and one overflow. */
  lemma DivisionDefined(a: int, b: int)
    ensures EvalInt(Div, a, b).Some? == EvalInt(Mod, a, b).Some? == (b != 0 && !(a == INT_MIN && b == -1))
  {
  }

  lemma Least(p: int, d: int)
    requires p > 0 && d > 0
    ensures p * d >= p && p * d >= d
  {
    assert p * d == p * (d - 1) + p && p * d == (p - 1) * d + d;
    Positive(p, d - 1);
    Positive(p - 1, d);
  }

  lemma Positive(x: int, y: int)
    requires x >= 0 && y >= 0
    ensures x * y >= 0
  {
  }

  /** Below p there is no multiple of p but 0. */
  lemma NoMultiple(p: int, d: int)
    requires -p < p * d < p
    ensures d == 0
  {
    assert p * -d == -(p * d);
    if d > 0 { Least(p, d); }
    if d < 0 { Least(p, -d); }
  }

  lemma Truncated(a: int, b: int)
    requires b != 0
    ensures Truncates(a, b, TruncDiv(a, b), a - TruncDiv(a, b) * b)
  {
    var x: int, y: int := Abs(a), Abs(b);
    var q: int := x / y;
    assert x == q * y + x % y;
    assert TruncDiv(a, b) == if (a < 0) == (b < 0) then q else -q;
    Signs(q, y);
    hide TruncDiv;
    var t := TruncDiv(a, b) * b;
    assert t == if a < 0 then -(q * y) else q * y;
  }

  lemma Signs(q: int, y: int)
    ensures (-q) * (-y) == q * y && (-q) * y == -(q * y) && q * (-y) == -(q * y)
  {
  }

  lemma TruncatesOnce(a: int, b: int, q: int, r: int, q': int, r': int)
    requires b != 0 && Truncates(a, b, q, r) && Truncates(a, b, q', r')
    ensures q == q' && r == r'
  {
    var d, y: int := q - q', Abs(b);
    assert d * b == q * b - q' * b == r' - r;
    Signs(d, y);
    assert y * d == d * b || y * d == -(d * b);
    NoMultiple(y, d);
  }

  lemma QuotientWord(a: int, b: int)
    requires IsWord(a) && b != 0 && !(a == INT_MIN && b == -1)
    ensures IsWord(TruncDiv(a, b)) && IsWord(a - TruncDiv(a, b) * b)
  {
    var q := TruncDiv(a, b);
    Truncated(a, b);
    hide TruncDiv;
    var r := a - q * b;
    assert Abs(r) <= Abs(a) by { Smaller(a, b, q, r); }
    if Abs(b) == 1 { assert q * b == a; } else { Halved(a, b, q, r); }
  }

  lemma Smaller(a: int, b: int, q: int, r: int)
    requires b != 0 && Truncates(a, b, q, r)
    ensures Abs(r) <= Abs(a)
  {
    if Abs(a) < Abs(b) { TruncatesOnce(a, b, q, r, 0, a); }
  }

  lemma Halved(a: int, b: int, q: int, r: int)
    requires Abs(b) > 1 && Truncates(a, b, q, r)
    ensures 2 * Abs(q) <= Abs(a)
  {
    Smaller(a, b, q, r);
    if q > 0 { Doubled(q, b); } else if q < 0 { Doubled(-q, b); Signs(q, b); }
  }

  lemma Doubled(q: int, b: int)
    requires q > 0 && Abs(b) > 1
    ensures Abs(q * b) >= 2 * q
  {
    if b > 0 { assert q * b == 2 * q + q * (b - 2); } else { assert q * b == -2 * q + q * (b + 2); }
  }

  /** Quotient and remainder are exactly those of the division toward zero, for all signs. */
  lemma DivisionExact(a: int, b: int, q: int, r: int)
    requires IsWord(a) && b != 0 && !(a == INT_MIN && b == -1)
    ensures EvalInt(Div, a, b) == Some(q) && EvalInt(Mod, a, b) == Some(r) <==> Truncates(a, b, q, r)
  {
    QuotientWord(a, b);
    Truncated(a, b);
    var q', r' := TruncDiv(a, b), a - TruncDiv(a, b) * b;
    assert EvalInt(Div, a, b) == Some(q') && EvalInt(Mod, a, b) == Some(r');
    hide TruncDiv, EvalInt;
    if Truncates(a, b, q, r) { TruncatesOnce(a, b, q, r, q', r'); }
  }

  // ----- Bits -----

  /** Bit k of the two's complement of n. */
  predicate Bit(n: int, k: nat) {
    n / Pow2(k) % 2 == 1
  }

  lemma BitShift(n: int, k: nat)
    requires k > 0
    ensures Bit(n, k) == Bit(n / 2, k - 1)
  {
    DivDiv(n, Pow2(k - 1));
  }

  lemma DivDiv(n: int, p: int)
    requires p > 0
    ensures n / (2 * p) == n / 2 / p
  {
    var h := n / 2;
    var q := h / p;
    assert n == 2 * h + n % 2 && h == p * q + h % p;
    assert n == 2 * p * q + (2 * (h % p) + n % 2);
    Quotient(n, 2 * p, q, 2 * (h % p) + n % 2);
  }

  lemma Quotient(n: int, p: int, q: int, r: int)
    requires p > 0 && n == p * q + r && 0 <= r < p
    ensures n / p == q
  {
    var z := n / p;
    assert n == p * z + n % p;
    assert p * (q - z) == p * q - p * z;
    NoMultiple(p, q - z);
  }

  lemma {:induction false} LowBit(op: BitOp, a: int, b: int, n: nat, k: nat)
    requires k < n
    ensures Bit(LowBits(op, a, b, n), k) == Gate(op, Bit(a, k), Bit(b, k))
    decreases n
  {
    var r := LowBits(op, a, b, n);
    var rest := LowBits(op, a / 2, b / 2, n - 1);
    assert r / 2 == rest && (r % 2 == 1 <==> Gate(op, a % 2 == 1, b % 2 == 1));
    if k > 0 {
      BitShift(r, k);
      BitShift(a, k);
      BitShift(b, k);
      LowBit(op, a / 2, b / 2, n - 1, k - 1);
    }
  }

  lemma Even(v: int, w: int, c: int)
    requires v == w + 2 * c
    ensures v / 2 == w / 2 + c && v % 2 == w % 2
  {
  }

  /** Adding a multiple of 2^n changes none of the lowest n bits. */
  lemma {:induction false} BitsRepeat(v: int, w: int, c: int, n: nat, k: nat)
    requires v == w + Pow2(n) * c && k < n
    ensures Bit(v, k) == Bit(w, k)
    decreases n
  {
    var h := Pow2(n - 1) * c;
    assert Pow2(n) * c == 2 * h;
    Even(v, w, h);
    if k > 0 {
      BitShift(v, k);
      BitShift(w, k);
      BitsRepeat(v / 2, w / 2, c, n - 1, k - 1);
    } else {
      assert Pow2(0) == 1;
    }
  }

  /** The lowest n bits determine a number up to multiples of 2^n. */
  lemma {:induction false} BitsDetermine(v: int, w: int, n: nat) returns (c: int)
    requires forall k: nat :: k < n ==> Bit(v, k) == Bit(w, k)
    ensures v == w + Pow2(n) * c
    decreases n
  {
    if n == 0 {
      c := v - w;
    } else {
      assert Bit(v, 0) == Bit(w, 0) && Pow2(0) == 1;
      forall k: nat | k < n - 1 ensures Bit(v / 2, k) == Bit(w / 2, k) {
        BitShift(v, k + 1);
        BitShift(w, k + 1);
      }
      c := BitsDetermine(v / 2, w / 2, n - 1);
      var h := Pow2(n - 1) * c;
      assert Pow2(n) * c == 2 * h;
    }
  }

  lemma Pow32()
    ensures Pow2(32) == TWO_32
  {
    assert Pow2(8) == 0x100;
    assert Pow2(16) == 0x1_0000;
    assert Pow2(24) == 0x100_0000;
  }

  predicate BitByBit(op: BitOp, a: int, b: int, v: int) {
    IsWord(v) && forall k: nat :: k < 32 ==> Bit(v, k) == Gate(op, Bit(a, k), Bit(b, k))
  }

  lemma BitsGated(op: BitOp, a: int, b: int)
    ensures BitByBit(op, a, b, Bits(op, a, b))
  {
    var n, w := LowBits(op, a, b, 32), Bits(op, a, b);
    WrapCongruent(n, w);
    hide Pow2, Bit, LowBits, Wrap, Bits, Gate;
    Pow32();
    var c :| w == n + TWO_32 * c;
    forall k: nat | k < 32 ensures Bit(w, k) == Gate(op, Bit(a, k), Bit(b, k)) {
      BitsRepeat(w, n, c, 32, k);
      LowBit(op, a, b, 32, k);
    }
  }

  lemma BitsExact(op: BitOp, a: int, b: int, v: int)
    ensures v == Bits(op, a, b) <==> BitByBit(op, a, b, v)
  {
    hide Pow2, Bit, LowBits, Wrap, Bits, Gate;
    BitsGated(op, a, b);
    if BitByBit(op, a, b, v) {
      var d := BitsDetermine(v, Bits(op, a, b), 32);
      Pow32();
    }
  }

  /** The bit operations work on each pair of bits by itself. */
  lemma BitOpsExact(a: int, b: int, v: int)
    ensures EvalInt(BitAnd, a, b) == Some(v) <==> BitByBit(And, a, b, v)
    ensures EvalInt(BitOr, a, b) == Some(v) <==> BitByBit(Or, a, b, v)
    ensures EvalInt(BitXor, a, b) == Some(v) <==> BitByBit(Xor, a, b, v)
  {
    BitsExact(And, a, b, v);
    BitsExact(Or, a, b, v);
    BitsExact(Xor, a, b, v);
  }

  // ----- Shifts -----

  lemma Shrunk(a: int, p: int)
    requires IsWord(a) && p > 0
    ensures IsWord(a / p)
  {
    var q := a / p;
    var t := p * q;
    assert a == t + a % p;
    assert p * -q == -t;
    if q > 0 { Least(p, q); }
    if q < 0 { Least(p, -q); }
  }

  lemma FloorExact(a: int, p: int, v: int)
    requires p > 0
    ensures v == a / p <==> v * p <= a < (v + 1) * p
  {
    var q, t, s := a / p, p * (a / p), p * v;
    assert a == t + a % p;
    assert v * p == s && (v + 1) * p == s + p;
    if s <= a < s + p { Quotient(a, p, v, a - s); }
    if v == q { assert s == t; }
  }

  /** A left shift multiplies, up to multiples of 2^32; a right shift divides and rounds down. */
  lemma ShiftsExact(a: int, k: nat, v: int)
    requires IsWord(a) && k < 32
    ensures EvalInt(Shl, a, k) == Some(v) <==> Congruent(v, a * Pow2(k))
    ensures EvalInt(Shr, a, k) == Some(v) <==> v * Pow2(k) <= a < (v + 1) * Pow2(k)
  {
    hide Pow2;
    WrapCongruent(a * Pow2(k), v);
    FloorExact(a, Pow2(k), v);
    Shrunk(a, Pow2(k));
    Shifted(a, k);
  }

  lemma Shifted(a: int, k: nat)
    requires IsWord(a) && k < 32 && IsWord(a / Pow2(k))
    ensures EvalInt(Shl, a, k) == Some(Wrap(a * Pow2(k))) && EvalInt(Shr, a, k) == Some(a / Pow2(k))
  {
    hide Pow2;
  }

  // ----- Comparisons -----

  /** Of less, equal and greater exactly one holds; the others are their negations; less is a positive distance. */
  lemma ComparisonsExact(a: int, b: int)
    ensures EvalInt(Les, a, b) == Some(1) <==> b - a > 0
    ensures EvalInt(Gtr, a, b) == EvalInt(Les, b, a)
    ensures EvalInt(Eql, a, b) == Some(1) <==> a == b
    ensures EvalInt(Les, a, b).Some? && EvalInt(Eql, a, b).Some?
    ensures EvalInt(Les, a, b).value + EvalInt(Eql, a, b).value + EvalInt(Les, b, a).value == 1
    ensures EvalInt(Neql, a, b) == Some(1 - EvalInt(Eql, a, b).value)
    ensures EvalInt(LesEql, a, b) == Some(1 - EvalInt(Les, b, a).value)
    ensures EvalInt(GtrEql, a, b) == Some(1 - EvalInt(Les, a, b).value)
  {
  }
}
