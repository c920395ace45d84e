// Numeric promotion: the analyzer marks the integer side of a mixed operation to be converted, and
// the emitter then produces code in which every operation finds operands of the width it pops.

module Promotion {
  import opened Wrappers

  datatype Ty = BYTE_TYPE | CHAR_TYPE | INT_TYPE | FLOAT_TYPE | BOOLEAN_TYPE

  datatype Op =
    | ADD_EXPR | SUB_EXPR | MUL_EXPR | DIV_EXPR
    | MOD_EXPR | SHL_EXPR | SHR_EXPR | BIT_AND_EXPR | BIT_OR_EXPR | BIT_XOR_EXPR
    | LES_EXPR | GTR_EXPR | LES_EQL_EXPR | GTR_EQL_EXPR | EQL_EXPR | NEQL_EXPR

  /** A leaf is a literal or a variable, told by a number. */
  datatype Tree = Leaf(ty: Ty, at: int) | Calc(op: Op, left: Tree, right: Tree)

  predicate Compares(op: Op) {
    op.LES_EXPR? || op.GTR_EXPR? || op.LES_EQL_EXPR? || op.GTR_EQL_EXPR? || op.EQL_EXPR? || op.NEQL_EXPR?
  }

  predicate IntegerOnly(op: Op) {
    op.MOD_EXPR? || op.SHL_EXPR? || op.SHR_EXPR? || op.BIT_AND_EXPR? || op.BIT_OR_EXPR? || op.BIT_XOR_EXPR?
  }

  // ----- The rules -----

  /** The type both operands are brought to; None is an error. */
  function Promoted(l: Ty, r: Ty): Option<Ty> {
    if l.BOOLEAN_TYPE? != r.BOOLEAN_TYPE? then None
    else if l.FLOAT_TYPE? || r.FLOAT_TYPE? then Some(FLOAT_TYPE)
    else Some(l)
  }

  predicate Mixed(l: Ty, r: Ty) {
    l.FLOAT_TYPE? != r.FLOAT_TYPE?
  }

  /** The type of an operation over operands of the given types; None is an error. */
  function Result(op: Op, l: Ty, r: Ty): Option<Ty> {
    if Promoted(l, r).None? then None
    else if op.EQL_EXPR? || op.NEQL_EXPR? then Some(BOOLEAN_TYPE)
    else if l.BOOLEAN_TYPE? then None
    else if Compares(op) then Some(BOOLEAN_TYPE)
    else if op.MOD_EXPR? && Mixed(l, r) then None
    else Promoted(l, r)
  }

  function TypeOf(t: Tree): Option<Ty> {
    match t
    case Leaf(ty, _) => Some(ty)
    case Calc(op, left, right) =>
      var l, r := TypeOf(left), TypeOf(right);
      if l.None? || r.None? then None else Result(op, l.value, r.value)
  }

  /** The side of an operation that is converted. */
  predicate Converted(t: Tree, side: Tree)
    requires t.Calc? && TypeOf(t).Some?
  {
    var l, r := TypeOf(t.left).value, TypeOf(t.right).value;
    TypeOf(side).Some? && Mixed(l, r) && !TypeOf(side).value.FLOAT_TYPE?
  }

  // ----- Typed code -----

  datatype Width = IntWord | FloatWords

  datatype Typed = LOAD(w: Width, at: int) | I2F | F2I | OP(op: Op, pops: Width, pushes: Width)

  /** The widths on the operand stack after the code; None when an operation meets the wrong one. */
  function Widths(code: seq<Typed>, stack: seq<Width>): Option<seq<Width>> {
    if code == [] then Some(stack) else
    match code[0]
    case LOAD(w, _) => Widths(code[1..], [w] + stack)
    case I2F => if |stack| > 0 && stack[0] == IntWord then Widths(code[1..], [FloatWords] + stack[1..]) else None
    case F2I => if |stack| > 0 && stack[0] == FloatWords then Widths(code[1..], [IntWord] + stack[1..]) else None
    case OP(_, pops, pushes) =>
      if |stack| > 1 && stack[0] == pops && stack[1] == pops then Widths(code[1..], [pushes] + stack[2..]) else None
  }

  function WidthOf(ty: Ty): Width {
    if ty.FLOAT_TYPE? then FloatWords else IntWord
  }

  /** The operation emitted for operands evaluated to l and r in an expression evaluated to ty. */
  function OpFor(op: Op, l: Ty, r: Ty, ty: Ty): Typed {
    if IntegerOnly(op) then OP(op, IntWord, IntWord)
    else if Compares(op) then OP(op, if l.FLOAT_TYPE? || r.FLOAT_TYPE? then FloatWords else IntWord, IntWord)
    else OP(op, WidthOf(ty), WidthOf(ty))
  }

  function CastCode(ty: Ty, cast: bool): seq<Typed> {
    if cast && !ty.FLOAT_TYPE? then [I2F] else []
  }

  /** The code of a well-typed tree: right, left, operation, and the conversion its parent asks for. */
  function CodeOf(t: Tree, cast: bool): seq<Typed>
    requires TypeOf(t).Some?
  {
    match t
    case Leaf(ty, at) => [LOAD(WidthOf(ty), at)] + CastCode(ty, cast)
    case Calc(op, left, right) =>
      var l, r, ty := TypeOf(left).value, TypeOf(right).value, TypeOf(t).value;
      CodeOf(right, Converted(t, right)) + (CodeOf(left, Converted(t, left)) + ([OpFor(op, l, r, ty)] + CastCode(ty, cast)))
  }

  /** No operation that only exists for integers has a float operand. */
  predicate Clean(t: Tree) {
    t.Calc? ==> Clean(t.left) && Clean(t.right)
                && (IntegerOnly(t.op) ==> TypeOf(t.left) != Some(FLOAT_TYPE) && TypeOf(t.right) != Some(FLOAT_TYPE))
  }

  lemma Step(i: Typed, code: seq<Typed>, stack: seq<Width>)
    ensures ([i] + code)[1..] == code && ([i] + code)[0] == i
  {
  }

  lemma Assoc(a: seq<Typed>, b: seq<Typed>, c: seq<Typed>)
    ensures (a + b) + c == a + (b + c)
  {
  }

  lemma CastRuns(ty: Ty, cast: bool, k: seq<Typed>, stack: seq<Width>)
    requires ty.BOOLEAN_TYPE? ==> !cast
    ensures Widths(CastCode(ty, cast) + k, [WidthOf(ty)] + stack) ==
      Widths(k, [if cast then FloatWords else WidthOf(ty)] + stack)
  {
    if cast && !ty.FLOAT_TYPE? {
      Step(I2F, k, stack);
      assert ([IntWord] + stack)[1..] == stack;
    } else {
      assert [] + k == k;
    }
  }

  /** An operation runs exactly when it finds the two widths it pops. */
  lemma OperationRuns(i: Typed, code: seq<Typed>, wl: Width, wr: Width, stack: seq<Width>)
    requires i.OP?
    ensures Widths([i] + code, [wl] + ([wr] + stack)) ==
      if wl == i.pops && wr == i.pops then Widths(code, [i.pushes] + stack) else None
  {
    Step(i, code, stack);
    var s := [wl] + ([wr] + stack);
    assert s[0] == wl && s[1] == wr && s[2..] == stack;
  }

  /** The operation of a tree and the conversion after it, over operands as their code leaves them. */
  lemma RootRuns(t: Tree, cast: bool, k: seq<Typed>, stack: seq<Width>)
    requires t.Calc? && TypeOf(t).Some? && (TypeOf(t).value.BOOLEAN_TYPE? ==> !cast)
    ensures var l, r, ty := TypeOf(t.left).value, TypeOf(t.right).value, TypeOf(t).value;
      Widths([OpFor(t.op, l, r, ty)] + (CastCode(ty, cast) + k),
             [Left(t.left, Converted(t, t.left))] + ([Left(t.right, Converted(t, t.right))] + stack)) ==
      if IntegerOnly(t.op) && (l.FLOAT_TYPE? || r.FLOAT_TYPE?) then None
      else Widths(k, [Left(t, cast)] + stack)
  {
    var l, r, ty := TypeOf(t.left).value, TypeOf(t.right).value, TypeOf(t).value;
    var wl, wr := Left(t.left, Converted(t, t.left)), Left(t.right, Converted(t, t.right));
    OperandsMeet(t, wl, wr);
    OperationRuns(OpFor(t.op, l, r, ty), CastCode(ty, cast) + k, wl, wr, stack);
    CastRuns(ty, cast, k, stack);
  }

  /** What the code of a tree leaves on the stack. */
  function Left(t: Tree, cast: bool): Width
    requires TypeOf(t).Some?
  {
    if cast then FloatWords else WidthOf(TypeOf(t).value)
  }

  /** Code of a well-typed tree is stack-typed exactly when the tree is clean: each float operation pops
      two floats and each integer operation two words. */
  lemma {:induction false} WidthsRight(t: Tree, cast: bool, k: seq<Typed>, stack: seq<Width>)
    requires TypeOf(t).Some? && (TypeOf(t).value.BOOLEAN_TYPE? ==> !cast)
    ensures Widths(CodeOf(t, cast) + k, stack) == if Clean(t) then Widths(k, [Left(t, cast)] + stack) else None
    decreases t
  {
    hide CastCode, OpFor;
    var ty := TypeOf(t).value;
    match t
    case Leaf(_, at) =>
      Assoc([LOAD(WidthOf(ty), at)], CastCode(ty, cast), k);
      Step(LOAD(WidthOf(ty), at), CastCode(ty, cast) + k, stack);
      CastRuns(ty, cast, k, stack);
    case Calc(op, left, right) =>
      OperandTypes(t);
      CodeShape(t, cast, k);
      RootRuns(t, cast, k, stack);
      hide CodeOf, Widths, TypeOf, Left, Converted, WidthOf, IntegerOnly, Result, Promoted;
      var l, r := TypeOf(left).value, TypeOf(right).value;
      var k2 := [OpFor(op, l, r, ty)] + (CastCode(ty, cast) + k);
      WidthsRight(right, Converted(t, right), CodeOf(left, Converted(t, left)) + k2, stack);
      WidthsRight(left, Converted(t, left), k2, [Left(right, Converted(t, right))] + stack);
  }

  lemma OperandTypes(t: Tree)
    requires t.Calc? && TypeOf(t).Some?
    ensures TypeOf(t.left).Some? && TypeOf(t.right).Some?
    ensures Converted(t, t.left) ==> !TypeOf(t.left).value.BOOLEAN_TYPE?
    ensures Converted(t, t.right) ==> !TypeOf(t.right).value.BOOLEAN_TYPE?
  {
  }

  lemma CodeShape(t: Tree, cast: bool, k: seq<Typed>)
    requires t.Calc? && TypeOf(t).Some?
    ensures var l, r, ty := TypeOf(t.left).value, TypeOf(t.right).value, TypeOf(t).value;
      var k2 := [OpFor(t.op, l, r, ty)] + (CastCode(ty, cast) + k);
      CodeOf(t, cast) + k == CodeOf(t.right, Converted(t, t.right)) + (CodeOf(t.left, Converted(t, t.left)) + k2)
  {
    var l, r, ty := TypeOf(t.left).value, TypeOf(t.right).value, TypeOf(t).value;
    var a, b, i, c := CodeOf(t.right, Converted(t, t.right)), CodeOf(t.left, Converted(t, t.left)),
                      [OpFor(t.op, l, r, ty)], CastCode(ty, cast);
    assert CodeOf(t, cast) == a + (b + (i + c));
    hide CodeOf, OpFor, CastCode;
    Assoc(a, b + (i + c), k);
    Assoc(b, i + c, k);
    Assoc(i, c, k);
  }

  /** What an operation finds on the stack is what it pops, unless it is an integer one over floats. */
  lemma OperandsMeet(t: Tree, wl: Width, wr: Width)
    requires t.Calc? && TypeOf(t).Some?
    requires wl == if Converted(t, t.left) then FloatWords else WidthOf(TypeOf(t.left).value)
    requires wr == if Converted(t, t.right) then FloatWords else WidthOf(TypeOf(t.right).value)
    ensures var l, r, ty := TypeOf(t.left).value, TypeOf(t.right).value, TypeOf(t).value;
      var i := OpFor(t.op, l, r, ty);
      && i.OP? && i.pushes == (if IntegerOnly(t.op) then IntWord else WidthOf(ty))
      && (wl == i.pops && wr == i.pops <==> !(IntegerOnly(t.op) && (l.FLOAT_TYPE? || r.FLOAT_TYPE?)))
      && (l.FLOAT_TYPE? ==> wl == FloatWords) && (r.FLOAT_TYPE? ==> wr == FloatWords)
      && (!(l.FLOAT_TYPE? || r.FLOAT_TYPE?) && !Compares(t.op) ==> !ty.FLOAT_TYPE?)
  {
  }

  function Conversions(code: seq<Typed>): nat {
    if code == [] then 0 else (if code[0].I2F? then 1 else 0) + Conversions(code[1..])
  }

  function MixedNodes(t: Tree): nat
    requires TypeOf(t).Some?
  {
    match t
    case Leaf(_, _) => 0
    case Calc(_, left, right) =>
      MixedNodes(left) + MixedNodes(right) + if Mixed(TypeOf(left).value, TypeOf(right).value) then 1 else 0
  }

  lemma {:induction false} ConversionsJoin(a: seq<Typed>, b: seq<Typed>)
    ensures Conversions(a + b) == Conversions(a) + Conversions(b)
  {
    if a == [] {
      assert a + b == b;
    } else {
      assert (a + b)[1..] == a[1..] + b;
      ConversionsJoin(a[1..], b);
    }
  }

  /** Exactly one conversion for each mixed operation, and one more if the parent asks for it. */
  lemma {:induction false} OneConversionEach(t: Tree, cast: bool)
    requires TypeOf(t).Some?
    ensures Conversions(CodeOf(t, cast)) == MixedNodes(t) + if cast && !TypeOf(t).value.FLOAT_TYPE? then 1 else 0
    decreases t
  {
    var ty := TypeOf(t).value;
    match t
    case Leaf(_, at) => ConversionsJoin([LOAD(WidthOf(ty), at)], CastCode(ty, cast));
    case Calc(op, left, right) =>
      var i := OpFor(op, TypeOf(left).value, TypeOf(right).value, ty);
      var a, b, c := CodeOf(right, Converted(t, right)), CodeOf(left, Converted(t, left)), CastCode(ty, cast);
      OneConversionEach(right, Converted(t, right));
      OneConversionEach(left, Converted(t, left));
      ConversionsJoin(a, b + ([i] + c));
      ConversionsJoin(b, [i] + c);
      ConversionsJoin([i], c);
  }

  /** No operation that exists only for integers is used: + - * / and comparisons. */
  predicate Arithmetic(t: Tree) {
    t.Calc? ==> !IntegerOnly(t.op) && Arithmetic(t.left) && Arithmetic(t.right)
  }

  /** Over + - * / and comparisons the emitted code is always stack-typed, leaving one value. */
  lemma ArithmeticSound(t: Tree, stack: seq<Width>)
    requires TypeOf(t).Some? && Arithmetic(t)
    ensures Widths(CodeOf(t, false), stack) == Some([WidthOf(TypeOf(t).value)] + stack)
  {
    ArithmeticClean(t);
    WidthsRight(t, false, [], stack);
    assert CodeOf(t, false) + [] == CodeOf(t, false);
  }

  lemma {:induction false} ArithmeticClean(t: Tree)
    requires Arithmetic(t)
    ensures Clean(t)
    decreases t
  {
    if t.Calc? {
      ArithmeticClean(t.left);
      ArithmeticClean(t.right);
    }
  }

  /** The analyzer accepts a float shifted by an integer, and a remainder of two floats; their code is not stack-typed. */
  lemma IntegerOperationsOverFloats(a: int, b: int, stack: seq<Width>)
    ensures var shift := Calc(SHL_EXPR, Leaf(FLOAT_TYPE, a), Leaf(INT_TYPE, b));
      TypeOf(shift) == Some(FLOAT_TYPE) && Widths(CodeOf(shift, false), stack) == None
    ensures var remainder := Calc(MOD_EXPR, Leaf(FLOAT_TYPE, a), Leaf(FLOAT_TYPE, b));
      TypeOf(remainder) == Some(FLOAT_TYPE) && Widths(CodeOf(remainder, false), stack) == None
  {
    var shift := Calc(SHL_EXPR, Leaf(FLOAT_TYPE, a), Leaf(INT_TYPE, b));
    var remainder := Calc(MOD_EXPR, Leaf(FLOAT_TYPE, a), Leaf(FLOAT_TYPE, b));
    WidthsRight(shift, false, [], stack);
    WidthsRight(remainder, false, [], stack);
    assert CodeOf(shift, false) + [] == CodeOf(shift, false);
    assert CodeOf(remainder, false) + [] == CodeOf(remainder, false);
  }

  // ----- What the code computes -----

  /** A double is the pair of words it occupies. */
  type Double = (int, int)

  datatype Value = Word(n: int) | Float(d: Double)

  /** Each operator over words, where it may fault, and over doubles; what conversion makes of a word; and the variables. */
  datatype Arithmetics = Arithmetics(
    words: (Op, int, int) -> Option<int>,
    floats: (Op, Double, Double) -> Double,
    compare: (Op, Double, Double) -> int,
    i2f: int -> Double,
    f2i: Double -> int,
    wordAt: int -> int,
    floatAt: int -> Double)

  function AsFloat(a: Arithmetics, v: Value): Double {
    match v
    case Word(n) => a.i2f(n)
    case Float(d) => d
  }

  /** An operation as the tree says it: over words, or, once one side is a double, over doubles, to which the other side
      is converted; integer operations have no meaning there. */
  function Apply(a: Arithmetics, op: Op, l: Value, r: Value): Option<Value> {
    if l.Word? && r.Word? then
      var v := a.words(op, l.n, r.n);
      if v.None? then None else Some(Word(v.value))
    else if IntegerOnly(op) then None
    else if Compares(op) then Some(Word(a.compare(op, AsFloat(a, l), AsFloat(a, r))))
    else Some(Float(a.floats(op, AsFloat(a, l), AsFloat(a, r))))
  }

  /** The value of a tree, told without types and without code. */
  function Denotes(a: Arithmetics, t: Tree): Option<Value> {
    match t
    case Leaf(ty, at) => Some(if ty.FLOAT_TYPE? then Float(a.floatAt(at)) else Word(a.wordAt(at)))
    case Calc(op, left, right) =>
      var l, r := Denotes(a, left), Denotes(a, right);
      if l.None? || r.None? then None else Apply(a, op, l.value, r.value)
  }

  predicate Fits(w: Width, v: Value) {
    w.FloatWords? <==> v.Float?
  }

  /** An operation over two values of the width it pops; the left operand is on top. */
  function Operate(a: Arithmetics, op: Op, pops: Width, pushes: Width, l: Value, r: Value): Option<Value> {
    if !Fits(pops, l) || !Fits(pops, r) then None
    else if l.Word? && r.Word? && pushes.IntWord? then
      var v := a.words(op, l.n, r.n);
      if v.None? then None else Some(Word(v.value))
    else if l.Float? && r.Float? then
      Some(if pushes.IntWord? then Word(a.compare(op, l.d, r.d)) else Float(a.floats(op, l.d, r.d)))
    else None
  }

  /** The values on the operand stack after the code; None is a fault. */
  function Computed(a: Arithmetics, code: seq<Typed>, stack: seq<Value>): Option<seq<Value>> {
    if code == [] then Some(stack) else
    match code[0]
    case LOAD(w, at) => Computed(a, code[1..], [if w.FloatWords? then Float(a.floatAt(at)) else Word(a.wordAt(at))] + stack)
    case I2F => if |stack| > 0 && stack[0].Word? then Computed(a, code[1..], [Float(a.i2f(stack[0].n))] + stack[1..]) else None
    case F2I => if |stack| > 0 && stack[0].Float? then Computed(a, code[1..], [Word(a.f2i(stack[0].d))] + stack[1..]) else None
    case OP(op, pops, pushes) =>
      if |stack| < 2 then None else
      var v := Operate(a, op, pops, pushes, stack[0], stack[1]);
      if v.None? then None else Computed(a, code[1..], [v.value] + stack[2..])
  }

  /** What is left for the code that asked for it: converted, if it asked for that. */
  function Handed(a: Arithmetics, v: Value, cast: bool): Value {
    if cast then Float(AsFloat(a, v)) else v
  }

  /** A tree of float type has a double for its value, and every other a word. */
  lemma {:induction false} ValueFits(a: Arithmetics, t: Tree)
    requires TypeOf(t).Some? && Denotes(a, t).Some?
    ensures Denotes(a, t).value.Float? <==> TypeOf(t).value.FLOAT_TYPE?
    decreases t
  {
    match t
    case Leaf(_, _) =>
    case Calc(_, left, right) =>
      ValueFits(a, left);
      ValueFits(a, right);
  }

  lemma ComputedStep(i: Typed, code: seq<Typed>)
    ensures ([i] + code)[1..] == code && ([i] + code)[0] == i
  {
  }

  lemma CastComputes(a: Arithmetics, ty: Ty, cast: bool, k: seq<Typed>, v: Value, stack: seq<Value>)
    requires v.Float? <==> ty.FLOAT_TYPE?
    ensures Computed(a, CastCode(ty, cast) + k, [v] + stack) == Computed(a, k, [Handed(a, v, cast)] + stack)
  {
    if cast && !ty.FLOAT_TYPE? {
      ComputedStep(I2F, k);
      assert ([v] + stack)[1..] == stack;
    } else {
      assert [] + k == k;
    }
  }

  /** The operation of a node over its operands as their code hands them on. */
  lemma NodeComputes(a: Arithmetics, t: Tree, k: seq<Typed>, l: Value, r: Value, stack: seq<Value>)
    requires t.Calc? && TypeOf(t).Some?
    requires (l.Float? <==> TypeOf(t.left).value.FLOAT_TYPE?) && (r.Float? <==> TypeOf(t.right).value.FLOAT_TYPE?)
    ensures var i := OpFor(t.op, TypeOf(t.left).value, TypeOf(t.right).value, TypeOf(t).value);
      var v := Apply(a, t.op, l, r);
      Computed(a, [i] + k, [Handed(a, l, Converted(t, t.left))] + ([Handed(a, r, Converted(t, t.right))] + stack)) ==
        if v.None? then None else Computed(a, k, [v.value] + stack)
  {
    var i := OpFor(t.op, TypeOf(t.left).value, TypeOf(t.right).value, TypeOf(t).value);
    var s := [Handed(a, l, Converted(t, t.left))] + ([Handed(a, r, Converted(t, t.right))] + stack);
    ComputedStep(i, k);
    assert s[0] == Handed(a, l, Converted(t, t.left)) && s[1] == Handed(a, r, Converted(t, t.right)) && s[2..] == stack;
    NodeOperates(a, t, l, r);
    hide OpFor, Operate, Apply, Handed, TypeOf, Converted;
  }

  lemma NodeOperates(a: Arithmetics, t: Tree, l: Value, r: Value)
    requires t.Calc? && TypeOf(t).Some?
    requires (l.Float? <==> TypeOf(t.left).value.FLOAT_TYPE?) && (r.Float? <==> TypeOf(t.right).value.FLOAT_TYPE?)
    ensures var i := OpFor(t.op, TypeOf(t.left).value, TypeOf(t.right).value, TypeOf(t).value);
      i.OP? && Operate(a, i.op, i.pops, i.pushes, Handed(a, l, Converted(t, t.left)), Handed(a, r, Converted(t, t.right)))
        == Apply(a, t.op, l, r)
  {
  }

  /** The code of every accepted tree computes the value of the tree, converted if the parent asks for it, and faults exactly
      when the tree has none. */
  lemma {:induction false} CodeComputes(a: Arithmetics, t: Tree, cast: bool, k: seq<Typed>, stack: seq<Value>)
    requires TypeOf(t).Some?
    ensures Computed(a, CodeOf(t, cast) + k, stack) ==
      if Denotes(a, t).None? then None else Computed(a, k, [Handed(a, Denotes(a, t).value, cast)] + stack)
    decreases t
  {
    hide CastCode, OpFor, Handed;
    var ty := TypeOf(t).value;
    match t
    case Leaf(_, at) =>
      Assoc([LOAD(WidthOf(ty), at)], CastCode(ty, cast), k);
      ComputedStep(LOAD(WidthOf(ty), at), CastCode(ty, cast) + k);
      CastComputes(a, ty, cast, k, Denotes(a, t).value, stack);
    case Calc(op, left, right) =>
      CalcComputes(a, t, cast, k, stack);
  }

  lemma {:induction false} CalcComputes(a: Arithmetics, t: Tree, cast: bool, k: seq<Typed>, stack: seq<Value>)
    requires t.Calc? && TypeOf(t).Some?
    ensures Computed(a, CodeOf(t, cast) + k, stack) ==
      if Denotes(a, t).None? then None else Computed(a, k, [Handed(a, Denotes(a, t).value, cast)] + stack)
    decreases t, 0
  {
    var left, right := t.left, t.right;
    OperandTypes(t);
    CodeShape(t, cast, k);
    var l, r, v := Denotes(a, left), Denotes(a, right), Denotes(a, t);
    assert v == if l.None? || r.None? then None else Apply(a, t.op, l.value, r.value);
    hide CodeOf, Computed, TypeOf, Denotes, Apply, Handed, Converted, WidthOf, OpFor, CastCode;
    var i := OpFor(t.op, TypeOf(left).value, TypeOf(right).value, TypeOf(t).value);
    var k1 := CastCode(TypeOf(t).value, cast) + k;
    var k2 := [i] + k1;
    CodeComputes(a, right, Converted(t, right), CodeOf(left, Converted(t, left)) + k2, stack);
    if r.Some? {
      var rs := [Handed(a, r.value, Converted(t, right))] + stack;
      CodeComputes(a, left, Converted(t, left), k2, rs);
      if l.Some? {
        ValueFits(a, left);
        ValueFits(a, right);
        NodeComputes(a, t, k1, l.value, r.value, stack);
        if v.Some? {
          ValueFits(a, t);
          CastComputes(a, TypeOf(t).value, cast, k, v.value, stack);
        }
      }
    }
  }

  /** Operators keep Bools: comparisons of words and doubles give 0 or 1. */
  predicate IsBool(v: Value) {
    v == Word(0) || v == Word(1)
  }

  ghost predicate ComparesToBools(a: Arithmetics) {
    && (forall op, x, y {:trigger a.words(op, x, y)} :: Compares(op) && a.words(op, x, y).Some? ==> a.words(op, x, y).value in {0, 1})
    && forall op, x, y {:trigger a.compare(op, x, y)} :: a.compare(op, x, y) in {0, 1}
  }

  predicate BoolLeaves(a: Arithmetics, t: Tree) {
    match t
    case Leaf(ty, at) => ty.BOOLEAN_TYPE? ==> a.wordAt(at) in {0, 1}
    case Calc(_, left, right) => BoolLeaves(a, left) && BoolLeaves(a, right)
  }

  /** A tree is of Bool type only if its value is a Bool whatever its number leaves hold. */
  lemma BoolsDenoted(a: Arithmetics, t: Tree)
    requires TypeOf(t) == Some(BOOLEAN_TYPE) && ComparesToBools(a) && BoolLeaves(a, t) && Denotes(a, t).Some?
    ensures IsBool(Denotes(a, t).value)
  {
    if t.Calc? { assert Compares(t.op); }
  }

  // ----- Which trees are accepted, told by their shape -----

  predicate BoolShape(t: Tree) {
    match t
    case Leaf(ty, _) => ty.BOOLEAN_TYPE?
    case Calc(op, _, _) => Compares(op)
  }

  /** Some float is reached without passing a comparison. */
  predicate FloatShape(t: Tree) {
    match t
    case Leaf(ty, _) => ty.FLOAT_TYPE?
    case Calc(op, left, right) => !Compares(op) && (FloatShape(left) || FloatShape(right))
  }

  function Leftmost(t: Tree): Ty {
    match t
    case Leaf(ty, _) => ty
    case Calc(_, left, _) => Leftmost(left)
  }

  /** Nowhere a Bool beside a number, a Bool under anything but == and <>, or a remainder of a float and an integer. */
  predicate Accepted(t: Tree) {
    t.Calc? ==>
      && Accepted(t.left) && Accepted(t.right) && BoolShape(t.left) == BoolShape(t.right)
      && (BoolShape(t.left) ==> t.op.EQL_EXPR? || t.op.NEQL_EXPR?)
      && (t.op.MOD_EXPR? ==> FloatShape(t.left) == FloatShape(t.right))
  }

  /** Exactly the accepted shapes have a type: Bool for comparisons, Float above floats, and else the first operand's. */
  lemma {:induction false} TypesExact(t: Tree)
    ensures TypeOf(t).Some? <==> Accepted(t)
    ensures Accepted(t) ==> TypeOf(t) == Some(if BoolShape(t) then BOOLEAN_TYPE else if FloatShape(t) then FLOAT_TYPE else Leftmost(t))
    ensures Accepted(t) && !BoolShape(t) && !FloatShape(t) ==> !Leftmost(t).BOOLEAN_TYPE? && !Leftmost(t).FLOAT_TYPE?
    decreases t
  {
    match t
    case Leaf(_, _) =>
    case Calc(_, left, right) =>
      TypesExact(left);
      TypesExact(right);
  }

  // ----- The analyzer, which marks the nodes of the tree -----

  /** The type an expression keeps from the first time it is typed. */
  function BaseOf(t: Tree): Ty
    requires TypeOf(t).Some?
  {
    match t
    case Leaf(ty, _) => ty
    case Calc(_, left, right) => Promoted(TypeOf(left).value, TypeOf(right).value).value
  }

  class Expression {
    const leafType: Ty
    const at: int
    const op: Op
    const left: Expression?
    const right: Expression?
    var evalType: Option<Ty>
    var baseType: Option<Ty>
    var castType: Option<Ty>
    ghost const shape: Tree
    ghost const Repr: set<Expression>

    /** A literal or variable of a known type. */
    constructor OfType(ty: Ty, number: int)
      ensures Valid() && Partial() && shape == Leaf(ty, number) && fresh(Repr) && castType == None
    {
      leafType, at, op, left, right := ty, number, ADD_EXPR, null, null;
      evalType, baseType, castType := None, None, None;
      shape, Repr := Leaf(ty, number), {this};
    }

    /** An operation over two expressions not used elsewhere. */
    constructor Calculated(o: Op, l: Expression, r: Expression)
      requires l.Valid() && r.Valid() && l.Partial() && r.Partial() && l.Repr !! r.Repr
      requires l.castType.None? && r.castType.None?
      ensures Valid() && Partial() && shape == Calc(o, l.shape, r.shape) && fresh(Repr - l.Repr - r.Repr) && castType == None
    {
      leafType, at, op, left, right := INT_TYPE, 0, o, l, r;
      evalType, baseType, castType := None, None, None;
      shape, Repr := Calc(o, l.shape, r.shape), {this} + l.Repr + r.Repr;
    }

    /** The nodes form a tree of the given shape, no node used twice. */
    ghost predicate Valid()
      decreases shape
    {
      && this in Repr
      && match shape
         case Leaf(ty, number) => left == null && right == null && leafType == ty && at == number && Repr == {this}
         case Calc(o, l, r) =>
           && op == o && left != null && right != null
           && left.shape == l && right.shape == r && left.Valid() && right.Valid()
           && Repr == {this} + left.Repr + right.Repr
           && this !in left.Repr && this !in right.Repr && left.Repr !! right.Repr
    }

    /** The node was not typed, or has the types of its tree. */
    ghost predicate Started()
      reads this
    {
      && (evalType.None? <==> baseType.None?)
      && (evalType.Some? ==> TypeOf(shape) == evalType && baseType == Some(BaseOf(shape)))
    }

    /** Whatever was analyzed so far agrees with the types of the tree. */
    ghost predicate Partial()
      requires Valid()
      reads Repr
      decreases shape
    {
      && Started()
      && (shape.Calc? ==>
            && left.Partial() && right.Partial()
            && MayCast(left.shape, left.castType) && MayCast(right.shape, right.castType))
    }

    /** The cast type of an operand: none, or Float when the operand is converted. */
    ghost predicate MayCast(side: Tree, cast: Option<Ty>)
      requires shape.Calc?
    {
      cast.Some? ==> cast == Some(FLOAT_TYPE) && TypeOf(shape.left).Some? && TypeOf(shape.right).Some?
                     && Promoted(TypeOf(shape.left).value, TypeOf(shape.right).value).Some?
                     && Mixed(TypeOf(shape.left).value, TypeOf(shape.right).value)
                     && TypeOf(side).Some? && !TypeOf(side).value.FLOAT_TYPE?
    }

    /** Every node has its types, and exactly the converted operands are marked. */
    ghost predicate Complete()
      requires Valid()
      reads Repr
      decreases shape
    {
      && TypeOf(shape).Some? && evalType == TypeOf(shape) && baseType == Some(BaseOf(shape))
      && (shape.Calc? ==>
            && left.Complete() && right.Complete()
            && left.castType == (if Converted(shape, shape.left) then Some(FLOAT_TYPE) else None)
            && right.castType == (if Converted(shape, shape.right) then Some(FLOAT_TYPE) else None))
    }

    /** A complete tree is determined: a second analysis that ends complete changed nothing. */
    twostate lemma Stable()
      requires Valid() && old(Complete()) && Complete() && old(castType) == castType
      ensures unchanged(Repr`evalType, Repr`baseType, Repr`castType)
      decreases shape
    {
      if shape.Calc? {
        left.Stable();
        right.Stable();
      }
    }

    method SetEvalType(t: Ty)
      modifies this`evalType, this`baseType
      ensures evalType == Some(t) && baseType == if old(baseType).None? then Some(t) else old(baseType)
    {
      evalType := Some(t);
      if baseType.None? {
        baseType := evalType;
      }
    }

    /** Asks for a conversion of a typed expression. */
    method SetCastType(t: Ty)
      requires Valid() && Complete()
      modifies this`castType
      ensures castType == Some(t) && Complete()
    {
      castType := Some(t);
    }

    /** Types the operation by its operands, preferring a cast to the operand's own type, and marks the integer side. */
    method AnalyzeCalculationCast() returns (ok: bool)
      requires Valid() && shape.Calc? && left.Complete() && right.Complete() && Started()
      requires MayCast(left.shape, left.castType) && MayCast(right.shape, right.castType)
      modifies this`evalType, this`baseType, left`castType, right`castType
      ensures left.Complete() && right.Complete() && MayCast(left.shape, left.castType) && MayCast(right.shape, right.castType)
      ensures ok <==> Promoted(TypeOf(shape.left).value, TypeOf(shape.right).value).Some?
      ensures ok ==>
        && evalType == Promoted(TypeOf(shape.left).value, TypeOf(shape.right).value)
        && baseType == (if old(baseType).None? then evalType else old(baseType))
        && (Mixed(TypeOf(shape.left).value, TypeOf(shape.right).value) ==>
              && left.castType == (if TypeOf(shape.left).value.FLOAT_TYPE? then None else Some(FLOAT_TYPE))
              && right.castType == (if TypeOf(shape.right).value.FLOAT_TYPE? then None else Some(FLOAT_TYPE)))
    {
      var l := if left.castType.Some? then left.castType.value else left.evalType.value;
      var r := if right.castType.Some? then right.castType.value else right.evalType.value;
      if l.BOOLEAN_TYPE? != r.BOOLEAN_TYPE? {
        return false;
      }
      if !l.FLOAT_TYPE? && r.FLOAT_TYPE? {
        left.SetCastType(r);
        SetEvalType(r);
      } else if l.FLOAT_TYPE? && !r.FLOAT_TYPE? {
        right.SetCastType(l);
        SetEvalType(l);
      } else {
        SetEvalType(l);
      }
      return true;
    }

    /** Rejects operations on operands they are not for, and makes a comparison Boolean. */
    method CheckOperation() returns (ok: bool)
      requires Valid() && shape.Calc? && left.Complete() && right.Complete()
      requires MayCast(left.shape, left.castType) && MayCast(right.shape, right.castType)
      requires Promoted(TypeOf(shape.left).value, TypeOf(shape.right).value).Some?
      requires evalType == Promoted(TypeOf(shape.left).value, TypeOf(shape.right).value)
      requires baseType.Some?
      requires Mixed(TypeOf(shape.left).value, TypeOf(shape.right).value) ==> left.castType.Some? || right.castType.Some?
      modifies this`evalType, this`baseType
      ensures ok <==> TypeOf(shape).Some?
      ensures ok ==> evalType == TypeOf(shape) && baseType == old(baseType)
    {
      var l, r := left.evalType.value, right.evalType.value;
      if op.EQL_EXPR? || op.NEQL_EXPR? {
        if l.BOOLEAN_TYPE? != r.BOOLEAN_TYPE? {
          return false;
        }
        SetEvalType(BOOLEAN_TYPE);
        return true;
      }
      if l.BOOLEAN_TYPE? || r.BOOLEAN_TYPE? {
        return false;
      }
      if Compares(op) {
        SetEvalType(BOOLEAN_TYPE);
      } else if op.MOD_EXPR? {
        var lc, rc := left.castType, right.castType;
        if (l.FLOAT_TYPE? && lc != None && lc != Some(INT_TYPE)) || (r.FLOAT_TYPE? && rc != None && rc != Some(INT_TYPE))
           || lc == Some(FLOAT_TYPE) || rc == Some(FLOAT_TYPE) {
          return false;
        }
      }
      return true;
    }

    /** Accepts exactly the well-typed trees, and completes them; a tree already complete stays as it is. */
    method AnalyzeCalculation() returns (ok: bool)
      requires Valid() && Partial() && shape.Calc?
      modifies Repr
      ensures castType == old(castType)
      ensures ok <==> TypeOf(shape).Some?
      ensures ok ==> Complete()
      ensures old(Complete()) ==> unchanged(Repr`evalType, Repr`baseType, Repr`castType)
      decreases shape, 0
    {
      ok := AnalyzeOperands();
      if !ok {
        return;
      }
      ok := AnalyzeCalculationCast();
      if !ok {
        return;
      }
      ok := CheckOperation();
      if ok && old(Complete()) {
        Stable();
      }
    }

    /** Nested operations are analyzed a first time before both operands are. */
    method AnalyzeOperands() returns (ok: bool)
      requires Valid() && Partial() && shape.Calc?
      modifies left.Repr, right.Repr
      ensures left.castType == old(left.castType) && right.castType == old(right.castType)
      ensures ok <==> TypeOf(shape.left).Some? && TypeOf(shape.right).Some?
      ensures ok ==> left.Complete() && right.Complete()
      decreases shape, 0, 0
    {
      ok := true;
      if left.left != null {
        ok := left.AnalyzeCalculation();
        if !ok {
          return;
        }
        left.CompleteIsPartial();
      }
      if right.left != null {
        ok := right.AnalyzeCalculation();
        if !ok {
          return;
        }
        right.CompleteIsPartial();
      }
      ok := left.AnalyzeExpression();
      if ok {
        ok := right.AnalyzeExpression();
      }
    }

    lemma CompleteIsPartial()
      requires Valid() && Complete()
      ensures Partial()
      decreases shape
    {
      if shape.Calc? {
        left.CompleteIsPartial();
        right.CompleteIsPartial();
      }
    }

    method AnalyzeExpression() returns (ok: bool)
      requires Valid() && Partial()
      modifies Repr
      ensures castType == old(castType)
      ensures ok <==> TypeOf(shape).Some?
      ensures ok ==> Complete()
      ensures old(Complete()) ==> unchanged(Repr`evalType, Repr`baseType, Repr`castType)
      decreases shape, 1
    {
      if left == null {
        SetEvalType(leafType);
        return true;
      }
      ok := AnalyzeCalculation();
    }
  }

  // ----- The emitter -----

  class CalculationEmitter {
    var immBlock: seq<Typed>

    method AddInstruction(i: Typed)
      modifies this
      ensures immBlock == old(immBlock) + [i]
    {
      immBlock := immBlock + [i];
    }

    /** A marked integer is converted where it was computed; a float marked as a float is left alone. */
    method EmitCast(e: Expression)
      requires e.baseType.Some? && (e.castType.Some? ==> e.castType == Some(FLOAT_TYPE) && !e.baseType.value.BOOLEAN_TYPE?)
      modifies this
      ensures immBlock == old(immBlock) + CastCode(e.baseType.value, e.castType.Some?)
    {
      if e.castType.Some? {
        match e.baseType.value {
          case BYTE_TYPE | CHAR_TYPE | INT_TYPE =>
            if e.castType.value.FLOAT_TYPE? {
              AddInstruction(I2F);
            }
          case FLOAT_TYPE =>
            if !e.castType.value.FLOAT_TYPE? {
              AddInstruction(F2I);
            }
          case BOOLEAN_TYPE =>
        }
      }
    }

    /** Emits the code of an analyzed tree, whose widths WidthsRight decides. */
    method EmitExpression(e: Expression)
      requires e.Valid() && e.Complete()
      requires e.castType.Some? ==> e.castType == Some(FLOAT_TYPE) && !e.evalType.value.BOOLEAN_TYPE?
      modifies this
      ensures immBlock == old(immBlock) + CodeOf(e.shape, e.castType.Some?)
      decreases e.shape, 1
    {
      if e.left == null {
        AddInstruction(LOAD(WidthOf(e.evalType.value), e.at));
        EmitCast(e);
      } else {
        EmitCalculation(e);
      }
    }

    method EmitCalculation(e: Expression)
      requires e.Valid() && e.Complete() && e.shape.Calc?
      requires e.castType.Some? ==> e.castType == Some(FLOAT_TYPE) && !e.evalType.value.BOOLEAN_TYPE?
      modifies this
      ensures immBlock == old(immBlock) + CodeOf(e.shape, e.castType.Some?)
      decreases e.shape, 0
    {
      OperandTypes(e.shape);
      EmitExpression(e.right);
      EmitExpression(e.left);
      EmitOperation(e);
      hide *;
      CodeParts(old(immBlock), e.shape, e.castType.Some?);
    }

    /** The operation itself, chosen by the types of its operands or of its result. */
    method EmitOperation(e: Expression)
      requires e.Valid() && e.Complete() && e.shape.Calc?
      requires e.castType.Some? ==> e.castType == Some(FLOAT_TYPE) && !e.evalType.value.BOOLEAN_TYPE?
      modifies this
      ensures immBlock == old(immBlock) + ([OpFor(e.shape.op, TypeOf(e.shape.left).value, TypeOf(e.shape.right).value,
                                                  TypeOf(e.shape).value)] + CastCode(TypeOf(e.shape).value, e.castType.Some?))
    {
      var l, r, ty := e.left.evalType.value, e.right.evalType.value, e.evalType.value;
      if IntegerOnly(e.op) {
        AddInstruction(OP(e.op, IntWord, IntWord));
      } else if Compares(e.op) {
        AddInstruction(OP(e.op, if l.FLOAT_TYPE? || r.FLOAT_TYPE? then FloatWords else IntWord, IntWord));
      } else if ty.FLOAT_TYPE? {
        AddInstruction(OP(e.op, FloatWords, FloatWords));
      } else {
        AddInstruction(OP(e.op, IntWord, IntWord));
      }
      BaseAgrees(e.shape);
      EmitCast(e);
    }
  }

  lemma CodeParts(before: seq<Typed>, t: Tree, cast: bool)
    requires t.Calc? && TypeOf(t).Some?
    ensures var a, b := CodeOf(t.right, Converted(t, t.right)), CodeOf(t.left, Converted(t, t.left));
      var c := [OpFor(t.op, TypeOf(t.left).value, TypeOf(t.right).value, TypeOf(t).value)] + CastCode(TypeOf(t).value, cast);
      before + CodeOf(t, cast) == ((before + a) + b) + c
  {
    var a, b := CodeOf(t.right, Converted(t, t.right)), CodeOf(t.left, Converted(t, t.left));
    var c := [OpFor(t.op, TypeOf(t.left).value, TypeOf(t.right).value, TypeOf(t).value)] + CastCode(TypeOf(t).value, cast);
    assert CodeOf(t, cast) == a + (b + c);
    hide *;
    Assoc(before, a, b + c);
    Assoc(before + a, b, c);
  }

  /** The base type serves for conversion: it differs from the type only for comparisons, which are never converted. */
  lemma BaseAgrees(t: Tree)
    requires TypeOf(t).Some?
    ensures !TypeOf(t).value.BOOLEAN_TYPE? ==> BaseOf(t) == TypeOf(t).value
  {
  }
}
