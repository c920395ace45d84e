// The stack bytecode the compiler back end emits and the machine that runs it.

module Wrappers {
  datatype Option<+T> = None | Some(value: T)
}

/** 32-bit machine arithmetic (INT_VALUE is a 32-bit int). */
module Words {
  import opened Wrappers

  const TWO_32 := 0x1_0000_0000
  const INT_MIN := -0x8000_0000

  /** The 32-bit two's complement word congruent to n. */
  function Wrap(n: int): (w: int)
    ensures INT_MIN <= w <= -INT_MIN - 1
    ensures INT_MIN <= n <= -INT_MIN - 1 ==> w == n
    ensures w % TWO_32 == n % TWO_32
  {
    var r := n % TWO_32;
    if r <= -INT_MIN - 1 then r else r - TWO_32
  }

  function Pow2(k: nat): (p: int)
    ensures p >= 1
  {
    if k == 0 then 1 else 2 * Pow2(k - 1)
  }

  /** C division: the quotient truncated toward zero. */
  function TruncDiv(a: int, b: int): int
    requires b != 0
  {
    if a >= 0 && b > 0 then a / b
    else if a >= 0 then -(a / -b)
    else if b > 0 then -(-a / b)
    else -a / -b
  }

  function Bool(b: bool): int {
    if b then 1 else 0
  }

  datatype BitOp = And | Or | Xor

  predicate Gate(op: BitOp, x: bool, y: bool) {
    match op
    case And => x && y
    case Or => x || y
    case Xor => x != y
  }

  /** The lowest n bits of a and b, pair by pair. */
  function LowBits(op: BitOp, a: int, b: int, n: nat): nat
    decreases n
  {
    if n == 0 then 0 else 2 * LowBits(op, a / 2, b / 2, n - 1) + Bool(Gate(op, a % 2 == 1, b % 2 == 1))
  }

  function Bits(op: BitOp, a: int, b: int): int {
    Wrap(LowBits(op, a, b, 32))
  }
}

module Bytecode {
  import opened Wrappers
  import opened Words

  /** Slots of a frame: LOCAL_SIZE words, the first of which holds the instance. */
  const LOCAL_WORDS := 191

  datatype MemoryContext = CLS | INST | LOCL

  datatype IntOp =
    | Add | Sub | Mul | Div | Mod | BitAnd | BitOr | BitXor | Shl | Shr
    | Eql | Neql | Les | Gtr | LesEql | GtrEql

  datatype FloatOp = AddF | SubF | MulF | DivF

  /** A double is the pair of 32-bit words it occupies. */
  type Double = (int, int)

  /** The bound class and method ids of a call. */
  type MethodId = (int, int)

  /** Opcodes no optimization looks into; special ones keep a method from being inlined. */
  datatype Opcode = Special(number: int) | Plain(number: int)

  /** Instructions the back end inspects carry their own constructor; OTHER stands for
      every opcode that no optimization looks into. */
  datatype Instr =
    | LOAD_INT_LIT(value: int)
    | LOAD_FLOAT_LIT(double: Double)
    | LOAD_INT_VAR(slot: int, ctx: MemoryContext)
    | STOR_INT_VAR(slot: int, ctx: MemoryContext)
    | COPY_INT_VAR(slot: int, ctx: MemoryContext)
    | LOAD_FLOAT_VAR(slot: int, ctx: MemoryContext)
    | STOR_FLOAT_VAR(slot: int, ctx: MemoryContext)
    | COPY_FLOAT_VAR(slot: int, ctx: MemoryContext)
    | LOAD_FUNC_VAR(slot: int, ctx: MemoryContext)
    | STOR_FUNC_VAR(slot: int, ctx: MemoryContext)
    | COPY_FUNC_VAR(slot: int, ctx: MemoryContext)
    | LOAD_INST_MEM
    | LOAD_CLS_MEM
    | INT_OP(op: IntOp)
    | FLOAT_OP(fop: FloatOp)
    | I2F
    | F2I
    | SWAP_INT
    | POP_INT
    | POP_FLOAT
    | JMP(target: int, cond: int)
    | LBL(mark: int)
    | RTRN
    | MTHD_CALL(id: MethodId)
    | TRAP(count: int)
    | OTHER(opcode: Opcode, operand: int)

  type Heap = map<(int, int), int>

  /** One activation of a method: operand stack (top first), frame and shared memory. */
  datatype Machine = Machine(stack: seq<int>, locals: seq<int>, inst: int, cls: int, heap: Heap, ext: int)

  datatype Effect = Effect(stack: seq<int>, heap: Heap, ext: int)

  /** What the machine does outside the instructions modelled here. */
  datatype Host = Host(
    floatOp: (FloatOp, Double, Double) -> Double,
    i2f: int -> Double,
    f2i: Double -> int,
    other: (Instr, seq<int>, Heap, int) -> Option<Effect>,
    stale: (int, int) -> int,                  // what slot k of a recycled frame still holds
    bind: (MethodId, int, int) -> MethodId)    // dynamic binding of a virtual method

  datatype Method = Method(
    cls: int,
    clsMem: int,
    clsName: string,
    name: string,
    virtual: bool,
    numParams: nat,
    space: nat,
    code: seq<Instr>)

  type Program = map<MethodId, Method>

  /** left is the word on top of the stack; None is a machine fault. */
  function EvalInt(op: IntOp, left: int, right: int): Option<int> {
    match op
    case Add => Some(Wrap(left + right))
    case Sub => Some(Wrap(left - right))
    case Mul => Some(Wrap(left * right))
    case Div => if right == 0 || (left == INT_MIN && right == -1) then None else Some(Wrap(TruncDiv(left, right)))
    case Mod =>
      if right == 0 || (left == INT_MIN && right == -1) then None
      else Some(Wrap(left - TruncDiv(left, right) * right))
    case BitAnd => Some(Bits(And, left, right))
    case BitOr => Some(Bits(Or, left, right))
    case BitXor => Some(Bits(Xor, left, right))
    case Shl => if 0 <= right < 32 then Some(Wrap(left * Pow2(right))) else None
    case Shr => if 0 <= right < 32 then Some(Wrap(left / Pow2(right))) else None
    case Eql => Some(Bool(left == right))
    case Neql => Some(Bool(left != right))
    case Les => Some(Bool(left < right))
    case Gtr => Some(Bool(left > right))
    case LesEql => Some(Bool(left <= right))
    case GtrEql => Some(Bool(left >= right))
  }

  function HeapGet(heap: Heap, at: (int, int)): int {
    if at in heap then heap[at] else 0
  }

  predicate IsControl(i: Instr) {
    i.JMP? || i.LBL? || i.RTRN? || i.MTHD_CALL?
  }

  predicate InFrame(m: Machine, x: int, words: int) {
    0 <= x && x + words <= |m.locals|
  }

  /** The effect of an instruction that is not control flow; None is a machine fault. */
  function Step(h: Host, i: Instr, m: Machine): (r: Option<Machine>)
    requires !IsControl(i)
    ensures r.Some? ==> |r.value.locals| == |m.locals| && r.value.inst == m.inst && r.value.cls == m.cls
  {
    var s := m.stack;
    match i
    case LOAD_INT_LIT(v) => Some(m.(stack := [v] + s))
    case LOAD_FLOAT_LIT(d) => Some(m.(stack := [d.1, d.0] + s))
    case LOAD_INT_VAR(x, LOCL) =>
      if InFrame(m, x, 1) then Some(m.(stack := [m.locals[x]] + s)) else None
    case LOAD_INT_VAR(x, _) =>
      if |s| >= 1 && s[0] != 0 then Some(m.(stack := [HeapGet(m.heap, (s[0], x))] + s[1..])) else None
    case STOR_INT_VAR(x, LOCL) =>
      if |s| >= 1 && InFrame(m, x, 1) then Some(m.(stack := s[1..], locals := m.locals[x := s[0]])) else None
    case STOR_INT_VAR(x, _) =>
      if |s| >= 2 && s[0] != 0 then Some(m.(stack := s[2..], heap := m.heap[(s[0], x) := s[1]])) else None
    case COPY_INT_VAR(x, LOCL) =>
      if |s| >= 1 && InFrame(m, x, 1) then Some(m.(locals := m.locals[x := s[0]])) else None
    case COPY_INT_VAR(x, _) =>
      if |s| >= 2 && s[0] != 0 then Some(m.(stack := s[1..], heap := m.heap[(s[0], x) := s[1]])) else None
    case LOAD_FLOAT_VAR(x, LOCL) =>
      if InFrame(m, x, 2) then Some(m.(stack := [m.locals[x + 1], m.locals[x]] + s)) else None
    case LOAD_FLOAT_VAR(x, _) =>
      if |s| >= 1 && s[0] != 0
      then Some(m.(stack := [HeapGet(m.heap, (s[0], x + 1)), HeapGet(m.heap, (s[0], x))] + s[1..])) else None
    case STOR_FLOAT_VAR(x, LOCL) =>
      if |s| >= 2 && InFrame(m, x, 2)
      then Some(m.(stack := s[2..], locals := m.locals[x := s[1]][x + 1 := s[0]])) else None
    case STOR_FLOAT_VAR(x, _) =>
      if |s| >= 3 && s[0] != 0
      then Some(m.(stack := s[3..], heap := m.heap[(s[0], x) := s[2]][(s[0], x + 1) := s[1]])) else None
    case COPY_FLOAT_VAR(x, LOCL) =>
      if |s| >= 2 && InFrame(m, x, 2)
      then Some(m.(locals := m.locals[x := s[1]][x + 1 := s[0]])) else None
    case COPY_FLOAT_VAR(x, _) =>
      if |s| >= 3 && s[0] != 0
      then Some(m.(stack := s[1..], heap := m.heap[(s[0], x) := s[2]][(s[0], x + 1) := s[1]])) else None
    case LOAD_FUNC_VAR(x, LOCL) =>
      if InFrame(m, x, 2) then Some(m.(stack := [m.locals[x], m.locals[x + 1]] + s)) else None
    case LOAD_FUNC_VAR(x, _) =>
      if |s| >= 1 && s[0] != 0
      then Some(m.(stack := [HeapGet(m.heap, (s[0], x)), HeapGet(m.heap, (s[0], x + 1))] + s[1..])) else None
    case STOR_FUNC_VAR(x, LOCL) =>
      if |s| >= 2 && InFrame(m, x, 2)
      then Some(m.(stack := s[2..], locals := m.locals[x := s[0]][x + 1 := s[1]])) else None
    case STOR_FUNC_VAR(x, _) =>
      if |s| >= 3 && s[0] != 0
      then Some(m.(stack := s[3..], heap := m.heap[(s[0], x) := s[1]][(s[0], x + 1) := s[2]])) else None
    case COPY_FUNC_VAR(_, _) => None   // neither emitted nor known to the machine
    case LOAD_INST_MEM => Some(m.(stack := [m.inst] + s))
    case LOAD_CLS_MEM => Some(m.(stack := [m.cls] + s))
    case INT_OP(op) =>
      if |s| < 2 then None else
      var v := EvalInt(op, s[0], s[1]);
      if v.None? then None else Some(m.(stack := [v.value] + s[2..]))
    case FLOAT_OP(op) =>
      if |s| < 4 then None else
      var d := h.floatOp(op, (s[1], s[0]), (s[3], s[2]));
      Some(m.(stack := [d.1, d.0] + s[4..]))
    case I2F => if |s| < 1 then None else var d := h.i2f(s[0]); Some(m.(stack := [d.1, d.0] + s[1..]))
    case F2I => if |s| < 2 then None else Some(m.(stack := [h.f2i((s[1], s[0]))] + s[2..]))
    case SWAP_INT => if |s| < 2 then None else Some(m.(stack := [s[1], s[0]] + s[2..]))
    case POP_INT => if |s| < 1 then None else Some(m.(stack := s[1..]))
    case POP_FLOAT => if |s| < 2 then None else Some(m.(stack := s[2..]))
    case TRAP(n) => if |s| < n then None else Perform(h, i, m)
    case OTHER(_, _) => Perform(h, i, m)
  }

  function Perform(h: Host, i: Instr, m: Machine): Option<Machine> {
    var e := h.other(i, m.stack, m.heap, m.ext);
    if e.None? then None
    else Some(m.(stack := e.value.stack, heap := e.value.heap, ext := e.value.ext))
  }

  /** The code that follows the first placement of label l. */
  function AfterLabel(code: seq<Instr>, l: int): (r: Option<seq<Instr>>)
    ensures r.Some? ==> |r.value| < |code|
  {
    if code == [] then None
    else if code[0] == LBL(l) then Some(code[1..])
    else AfterLabel(code[1..], l)
  }

  /** A method being run: its code, the program it calls into, and how deep calls may nest. */
  datatype Activation = Activation(host: Host, program: Program, code: seq<Instr>, depth: nat)

  datatype Outcome =
    | Done(m: Machine, fuel: nat)    // returned
    | Fell(m: Machine)               // ran past the last instruction
    | Fault                          // machine error
    | Timeout                        // too many backward jumps or nested calls

  function NewFrame(h: Host, ext: int): (f: seq<int>)
    ensures |f| == LOCAL_WORDS
  {
    seq(LOCAL_WORDS, k => h.stale(ext, k))
  }

  function Enter(h: Host, callee: Method, m: Machine): Machine
    requires |m.stack| >= 1
  {
    Machine(m.stack[1..], NewFrame(h, m.ext), m.stack[0], callee.clsMem, m.heap, m.ext)
  }

  function Leave(caller: Machine, callee: Machine): Machine {
    caller.(stack := callee.stack, heap := callee.heap, ext := callee.ext)
  }

  /** The method a call reaches: virtual methods are bound through the instance. */
  function Callee(h: Host, p: Program, id: MethodId, m: Machine): Option<MethodId>
    requires |m.stack| >= 1
  {
    if id !in p then None
    else if !p[id].virtual then Some(id)
    else
      var bound := h.bind(id, m.stack[0], m.ext);
      if bound in p && !p[bound].virtual then Some(bound) else None
  }

  datatype Move =
    | Halt(outcome: Outcome)
    | Goto(rest: seq<Instr>, m: Machine, fuel: nat)

  /** One instruction other than a call. fuel bounds the backward jumps taken. */
  function Advance(h: Host, code: seq<Instr>, rest: seq<Instr>, m: Machine, fuel: nat): (r: Move)
    requires rest != [] && !rest[0].MTHD_CALL?
    ensures r.Goto? ==> |r.m.locals| == |m.locals| && (r.fuel < fuel || (r.fuel == fuel && |r.rest| < |rest|))
    ensures r.Halt? ==> !r.outcome.Fell? && (r.outcome.Done? ==> r.outcome == Done(m, fuel))
  {
    var i := rest[0];
    if i.LBL? then Goto(rest[1..], m, fuel)
    else if i.RTRN? then Halt(Done(m, fuel))
    else if i.JMP? then
      if i.cond < 0 then Jump(code, i.target, rest, m, fuel)
      else if |m.stack| == 0 then Halt(Fault)
      else
        var m1 := m.(stack := m.stack[1..]);
        if m.stack[0] == i.cond then Jump(code, i.target, rest, m1, fuel) else Goto(rest[1..], m1, fuel)
    else
      var s := Step(h, i, m);
      if s.None? then Halt(Fault) else Goto(rest[1..], s.value, fuel)
  }

  function Jump(code: seq<Instr>, l: int, rest: seq<Instr>, m: Machine, fuel: nat): (r: Move)
    ensures r.Goto? ==> r.m == m && (r.fuel < fuel || (r.fuel == fuel && |r.rest| < |rest|))
  {
    var t := AfterLabel(code, l);
    if t.None? then Halt(Fault)
    else if |t.value| < |rest| then Goto(t.value, m, fuel)
    else if fuel == 0 then Halt(Timeout)
    else Goto(t.value, m, fuel - 1)
  }

  /** Runs the rest of an activation. Every terminating run has an outcome once fuel and depth
      are large enough, and the fuel left over counts its backward jumps exactly. */
  function Run(a: Activation, rest: seq<Instr>, m: Machine, fuel: nat): (r: Outcome)
    ensures r.Done? ==> r.fuel <= fuel && |r.m.locals| == |m.locals|
    ensures r.Fell? ==> |r.m.locals| == |m.locals|
    decreases a.depth, fuel, |rest|
  {
    if rest == [] then Fell(m)
    else if rest[0].MTHD_CALL? then
      if |m.stack| == 0 then Fault else
      var target := Callee(a.host, a.program, rest[0].id, m);
      if target.None? then Fault
      else if a.depth == 0 then Timeout else
      var callee := a.program[target.value];
      var r := Run(Activation(a.host, a.program, callee.code, a.depth - 1), callee.code,
                   Enter(a.host, callee, m), fuel);
      if r.Done? then Run(a, rest[1..], Leave(m, r.m), r.fuel)
      else if r.Fell? then Fault
      else r
    else
      match Advance(a.host, a.code, rest, m, fuel)
      case Halt(o) => o
      case Goto(rest', m', fuel') => Run(a, rest', m', fuel')
  }
}
