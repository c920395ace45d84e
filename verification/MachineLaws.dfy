// What the instructions of the machine do to its operand stack and its variables, told without their definitions.

module MachineLaws {
  import opened Wrappers
  import opened Words
  import opened Bytecode

  /** Words an instruction takes off the stack. A variable of a class or an instance is found through the word on top. */
  function Pops(i: Instr): nat {
    match i
    case LOAD_INT_LIT(_) => 0
    case LOAD_FLOAT_LIT(_) => 0
    case LOAD_INT_VAR(_, ctx) => if ctx == LOCL then 0 else 1
    case STOR_INT_VAR(_, ctx) => if ctx == LOCL then 1 else 2
    case COPY_INT_VAR(_, ctx) => if ctx == LOCL then 1 else 2
    case LOAD_FLOAT_VAR(_, ctx) => if ctx == LOCL then 0 else 1
    case STOR_FLOAT_VAR(_, ctx) => if ctx == LOCL then 2 else 3
    case COPY_FLOAT_VAR(_, ctx) => if ctx == LOCL then 2 else 3
    case LOAD_FUNC_VAR(_, ctx) => if ctx == LOCL then 0 else 1
    case STOR_FUNC_VAR(_, ctx) => if ctx == LOCL then 2 else 3
    case INT_OP(_) => 2
    case FLOAT_OP(_) => 4
    case I2F => 1
    case F2I => 2
    case SWAP_INT => 2
    case POP_INT => 1
    case POP_FLOAT => 2
    case _ => 0
  }

  /** Words it leaves there. */
  function Pushes(i: Instr): nat {
    match i
    case LOAD_INT_LIT(_) => 1
    case LOAD_FLOAT_LIT(_) => 2
    case LOAD_INT_VAR(_, _) => 1
    case COPY_INT_VAR(_, _) => 1
    case LOAD_FLOAT_VAR(_, _) => 2
    case COPY_FLOAT_VAR(_, _) => 2
    case LOAD_FUNC_VAR(_, _) => 2
    case LOAD_INST_MEM => 1
    case LOAD_CLS_MEM => 1
    case INT_OP(_) => 1
    case FLOAT_OP(_) => 2
    case I2F => 2
    case F2I => 1
    case SWAP_INT => 2
    case _ => 0
  }

  /** Not left to the host. */
  predicate Own(i: Instr) {
    !IsControl(i) && !i.TRAP? && !i.OTHER?
  }

  /** An instruction needs what it pops, and leaves everything below as it was. */
  lemma StackBalance(h: Host, i: Instr, m: Machine)
    requires Own(i) && Step(h, i, m).Some?
    ensures Pops(i) <= |m.stack| && Pushes(i) <= |Step(h, i, m).value.stack|
    ensures Step(h, i, m).value.stack[Pushes(i)..] == m.stack[Pops(i)..]
  {
    hide EvalInt, HeapGet;
  }

  function Both(h: Host, i: Instr, j: Instr, m: Machine): Option<Machine>
    requires Own(i) && Own(j)
  {
    var r := Step(h, i, m);
    if r.None? then None else Step(h, j, r.value)
  }

  /** A local keeps what is stored in it, and no other local changes. */
  lemma LocalKeeps(h: Host, x: int, m: Machine)
    ensures var r := Both(h, STOR_INT_VAR(x, LOCL), LOAD_INT_VAR(x, LOCL), m);
      r.Some? ==> r.value.stack == m.stack && SameButLocals(m, r.value, x, 1)
    ensures var r := Both(h, STOR_FLOAT_VAR(x, LOCL), LOAD_FLOAT_VAR(x, LOCL), m);
      r.Some? ==> r.value.stack == m.stack && SameButLocals(m, r.value, x, 2)
    ensures var r := Both(h, STOR_FUNC_VAR(x, LOCL), LOAD_FUNC_VAR(x, LOCL), m);
      r.Some? ==> r.value.stack == m.stack && SameButLocals(m, r.value, x, 2)
  {
  }

  predicate SameButLocals(m: Machine, n: Machine, x: int, words: int) {
    && |n.locals| == |m.locals| && n.inst == m.inst && n.cls == m.cls && n.heap == m.heap && n.ext == m.ext
    && forall k :: 0 <= k < |m.locals| && !(x <= k < x + words) ==> n.locals[k] == m.locals[k]
  }

  /** The instance below the value, as a store of an instance variable finds them. */
  function WithInstance(m: Machine, instance: int): Machine {
    m.(stack := [instance] + m.stack)
  }

  /** A variable of an instance keeps what is stored in it, and nothing else of the memory changes. */
  lemma InstanceKeeps(h: Host, x: int, instance: int, m: Machine)
    requires instance != 0 && |m.stack| >= 1
    ensures var s := Step(h, STOR_INT_VAR(x, INST), WithInstance(m, instance));
      && s.Some? && SameButCells(m, s.value, instance, x, 1)
      && var r := Step(h, LOAD_INT_VAR(x, INST), WithInstance(s.value, instance));
         r.Some? && r.value.stack == m.stack && r.value.heap == s.value.heap
  {
  }

  lemma InstanceKeepsFloat(h: Host, x: int, instance: int, m: Machine)
    requires instance != 0 && |m.stack| >= 2
    ensures var s := Step(h, STOR_FLOAT_VAR(x, INST), WithInstance(m, instance));
      && s.Some? && SameButCells(m, s.value, instance, x, 2)
      && var r := Step(h, LOAD_FLOAT_VAR(x, INST), WithInstance(s.value, instance));
         r.Some? && r.value.stack == m.stack && r.value.heap == s.value.heap
  {
    var s := [instance] + m.stack;
    assert s[3..] == m.stack[2..];
  }

  ghost predicate SameButCells(m: Machine, n: Machine, instance: int, x: int, words: nat)
    requires words <= |m.stack|
  {
    && n.locals == m.locals && n.inst == m.inst && n.cls == m.cls && n.ext == m.ext && n.stack == m.stack[words..]
    && forall at: (int, int) {:trigger HeapGet(n.heap, at)} :: !(at.0 == instance && x <= at.1 < x + words) ==> HeapGet(n.heap, at) == HeapGet(m.heap, at)
  }

  /** What is pushed can be dropped. */
  lemma PushedAndDropped(h: Host, v: int, d: Double, m: Machine)
    ensures Both(h, LOAD_INT_LIT(v), POP_INT, m) == Some(m) && Both(h, LOAD_FLOAT_LIT(d), POP_FLOAT, m) == Some(m)
  {
    var s := m.stack;
    assert ([v] + s)[1..] == s && ([d.1, d.0] + s)[2..] == s;
  }

  /** The two words on top change places; swapped twice they are as they were. */
  lemma Swapped(h: Host, m: Machine)
    requires |m.stack| >= 2
    ensures var r := Step(h, SWAP_INT, m);
      && r.Some? && r.value == m.(stack := r.value.stack)
      && |r.value.stack| == |m.stack| && r.value.stack[0] == m.stack[1] && r.value.stack[1] == m.stack[0]
    ensures Both(h, SWAP_INT, SWAP_INT, m) == Some(m)
  {
    var s := m.stack;
    assert ([s[1], s[0]] + s[2..])[2..] == s[2..];
    assert [s[0], s[1]] + s[2..] == s;
  }

  /** Of two operands the one pushed last is the left one. */
  lemma LeftOnTop(h: Host, op: IntOp, left: int, right: int, m: Machine)
    ensures var r := Step(h, LOAD_INT_LIT(right), m).value;
      Both(h, LOAD_INT_LIT(left), INT_OP(op), r) ==
        var v := EvalInt(op, left, right);
        if v.None? then None else Some(m.(stack := [v.value] + m.stack))
  {
    hide EvalInt;
    assert ([left] + ([right] + m.stack))[2..] == m.stack;
  }

  /** A conditional jump pops the word on top and jumps if that is its condition; an unconditional one looks at nothing. */
  lemma JumpDecides(h: Host, code: seq<Instr>, l: int, cond: int, rest: seq<Instr>, m: Machine, fuel: nat)
    requires rest != [] && rest[0] == JMP(l, cond)
    ensures cond < 0 ==> Advance(h, code, rest, m, fuel) == Jump(code, l, rest, m, fuel)
    ensures cond >= 0 && m.stack == [] ==> Advance(h, code, rest, m, fuel) == Halt(Fault)
    ensures forall top: int, below: seq<int> :: cond >= 0 && m.stack == [top] + below ==>
      Advance(h, code, rest, m, fuel) ==
        if top == cond then Jump(code, l, rest, m.(stack := below), fuel) else Goto(rest[1..], m.(stack := below), fuel)
  {
    forall top: int, below: seq<int> | m.stack == [top] + below ensures m.stack[0] == top && m.stack[1..] == below {
      assert ([top] + below)[1..] == below;
    }
  }
}
