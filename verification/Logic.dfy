// Chains of & and |: the parser hangs the first operand on the right, the emitter evaluates the
// right child first, and so source operands are evaluated from left to right.

module Logic {
  import opened Wrappers
  import opened Words
  import opened Bytecode
  import opened Source
  import opened Emission
  import opened Discipline
  import opened Placement
  import opened ExprMeaning

  /** Operand stands for the tokens of one comparison. */
  datatype Token = Operand(e: Expr) | NotToken | AndToken | OrToken | OtherToken

  predicate Joins(tokens: seq<Token>, pos: nat) {
    pos < |tokens| && (tokens[pos].AndToken? || tokens[pos].OrToken?)
  }

  /** not x is x <> true. */
  function Negated(e: Expr): Expr {
    Calculated(Neql, e, IntLit(1))
  }

  /** One operand, possibly negated, and where it ends; None is a syntax error. */
  function Single(tokens: seq<Token>, pos: nat): (r: Option<(Expr, nat)>)
    ensures r.Some? ==> pos < r.value.1 <= |tokens|
  {
    if pos < |tokens| && tokens[pos].Operand? then Some((tokens[pos].e, pos + 1))
    else if pos + 1 < |tokens| && tokens[pos].NotToken? && tokens[pos + 1].Operand?
    then Some((Negated(tokens[pos + 1].e), pos + 2))
    else None
  }

  /** The expression a logical chain starting at pos stands for, and where the chain ends. */
  function Logical(tokens: seq<Token>, pos: nat): (r: Option<(Expr, nat)>)
    ensures r.Some? ==> pos < r.value.1 <= |tokens| && !Joins(tokens, r.value.1)
    decreases |tokens| - pos
  {
    var first := Single(tokens, pos);
    if first.None? || !Joins(tokens, first.value.1) then first else
    var rest := Logical(tokens, first.value.1 + 1);
    if rest.None? then None
    else Some((Expr.Logic(tokens[first.value.1].AndToken?, first.value.0, rest.value.0), rest.value.1))
  }

  class Parser {
    const tokens: seq<Token>
    var pos: nat

    constructor (ts: seq<Token>)
      ensures tokens == ts && pos == 0
    {
      tokens, pos := ts, 0;
    }

    method ParseMathLogic() returns (e: Option<Expr>)
      modifies this`pos
      ensures if old(pos) < |tokens| && tokens[old(pos)].Operand? then e == Some(tokens[old(pos)].e) && pos == old(pos) + 1
              else e == None && pos == old(pos)
    {
      e := None;
      if pos < |tokens| && tokens[pos].Operand? { e, pos := Some(tokens[pos].e), pos + 1; }
    }

    /** The loop meets at most one operator: parsing its right side takes all that follow. */
    method ParseLogic() returns (e: Option<Expr>)
      modifies this`pos
      ensures var r := Logical(tokens, old(pos));
        if r.Some? then e == Some(r.value.0) && pos == r.value.1 else e.None?
      decreases |tokens| - pos
    {
      ghost var start := pos;
      var operand: Option<Expr>;
      if pos < |tokens| && tokens[pos].NotToken? {
        pos := pos + 1;
        operand := ParseMathLogic();
        if operand.Some? { operand := Some(Negated(operand.value)); }
      } else {
        operand := ParseMathLogic();
      }
      if operand.None? { return None; }
      var left := operand.value;
      assert Single(tokens, start) == Some((left, pos));
      e := None;
      while Joins(tokens, pos)
        invariant start < pos <= |tokens|
        invariant e.None? ==> Single(tokens, start) == Some((left, pos))
        invariant e.Some? ==> Logical(tokens, start) == Some((e.value, pos)) && !Joins(tokens, pos)
        decreases |tokens| - pos
      {
        // a second round would make the expression built so far the left operand
        if e.Some? { assert false; }
        var isAnd := tokens[pos].AndToken?;
        pos := pos + 1;
        var right := ParseLogic();
        if right.None? { return None; }
        // the operands change sides
        e := Some(Expr.Logic(isAnd, left, right.value));
      }
      if e.None? { e := Some(left); }
    }
  }

  // ----- What a chain means -----

  /** operands[0] ops[0] (operands[1] ops[1] (...)); an op is true for & and false for |. */
  function Nest(operands: seq<Expr>, ops: seq<bool>): Expr
    requires |operands| == |ops| + 1
  {
    if ops == [] then operands[0] else Expr.Logic(ops[0], operands[0], Nest(operands[1..], ops[1..]))
  }

  /** One operand as it is written: with or without a not in front. */
  datatype Factor = Factor(negated: bool, e: Expr)

  function Written(f: Factor): seq<Token> {
    (if f.negated then [NotToken] else []) + [Operand(f.e)]
  }

  function Tokens(factors: seq<Factor>, ops: seq<bool>): seq<Token>
    requires |factors| == |ops| + 1
  {
    if ops == [] then Written(factors[0])
    else Written(factors[0]) + ([if ops[0] then AndToken else OrToken] + Tokens(factors[1..], ops[1..]))
  }

  function Meant(f: Factor): Expr {
    if f.negated then Negated(f.e) else f.e
  }

  function AllMeant(factors: seq<Factor>): (r: seq<Expr>)
    ensures |r| == |factors| && forall i :: 0 <= i < |r| ==> r[i] == Meant(factors[i])
  {
    seq(|factors|, i requires 0 <= i < |factors| => Meant(factors[i]))
  }

  lemma NegatedEval(h: Host, e: Expr, env: Env)
    ensures Eval(h, Negated(e), env) ==
      var r := Eval(h, e, env);
      if r.None? then None else Some((Bool(r.value.0 != 1), r.value.1))
  {
    var one := IntLit(1);
    assert Eval(h, one, env) == Some((1, env));
  }

  /** Over a Bool operand, not turns 1 into 0 and 0 into 1, and keeps the operand's effects and faults. */
  lemma NotNegates(h: Host, e: Expr, env: Env)
    ensures Eval(h, e, env).None? ==> Eval(h, Negated(e), env).None?
    ensures var r := Eval(h, e, env); r.Some? && r.value.0 in {0, 1} ==> Eval(h, Negated(e), env) == Some((1 - r.value.0, r.value.1))
  {
    hide Eval, Negated;
    NegatedEval(h, e, env);
  }

  lemma WrittenAt(tokens: seq<Token>, pos: nat, f: Factor, k: seq<Token>)
    requires pos <= |tokens| && Written(f) + k <= tokens[pos..]
    ensures Single(tokens, pos) == Some((Meant(f), pos + |Written(f)|))
    ensures k <= tokens[pos + |Written(f)|..]
  {
    var w, rest := Written(f), tokens[pos..];
    assert (w + k)[..|w|] == w && (w + k)[|w|..] == k;
    assert rest[0] == w[0] && rest[|w| - 1] == w[|w| - 1];
    assert tokens[pos] == rest[0] && tokens[pos + |w| - 1] == rest[|w| - 1];
    assert tokens[pos + |w|..] == rest[|w|..];
  }

  lemma LastOne(tokens: seq<Token>, pos: nat)
    requires var first := Single(tokens, pos); first.Some? && !Joins(tokens, first.value.1)
    ensures Logical(tokens, pos) == Single(tokens, pos)
  {
  }

  lemma OneMore(tokens: seq<Token>, pos: nat)
    requires Single(tokens, pos).Some? && Joins(tokens, Single(tokens, pos).value.1)
    requires Logical(tokens, Single(tokens, pos).value.1 + 1).Some?
    ensures var (first, at) := Single(tokens, pos).value;
      var rest := Logical(tokens, at + 1).value;
      Logical(tokens, pos) == Some((Expr.Logic(tokens[at].AndToken?, first, rest.0), rest.1))
  {
  }

  /** Whatever the operators and negations, the chain nests to the right: & does not bind tighter than |, and a not
      is about one operand. */
  lemma {:induction false} ParsedNests(factors: seq<Factor>, ops: seq<bool>, tokens: seq<Token>, pos: nat)
    requires |factors| == |ops| + 1 && pos <= |tokens| && Tokens(factors, ops) <= tokens[pos..]
    requires !Joins(tokens, pos + |Tokens(factors, ops)|)
    ensures Logical(tokens, pos) == Some((Nest(AllMeant(factors), ops), pos + |Tokens(factors, ops)|))
    decreases |ops|
  {
    hide Written, Meant, Single, Logical;
    if ops == [] {
      assert Tokens(factors, ops) == Written(factors[0]) + [];
      WrittenAt(tokens, pos, factors[0], []);
      LastOne(tokens, pos);
    } else {
      var op, tail := if ops[0] then AndToken else OrToken, Tokens(factors[1..], ops[1..]);
      WrittenAt(tokens, pos, factors[0], [op] + tail);
      var at := pos + |Written(factors[0])|;
      assert tokens[at] == tokens[at..][0] == op;
      assert ([op] + tail)[1..] == tail && tokens[at..][1..] == tokens[at + 1..];
      ParsedNests(factors[1..], ops[1..], tokens, at + 1);
      OneMore(tokens, pos);
      assert AllMeant(factors)[1..] == AllMeant(factors[1..]);
    }
  }

  /** The values of the first k operands evaluated one after the other, and the memory behind them. */
  function InOrder(h: Host, operands: seq<Expr>, k: nat, env: Env): Option<(seq<int>, Env)>
    requires k <= |operands|
  {
    if k == 0 then Some(([], env)) else
    var r := Eval(h, operands[0], env);
    if r.None? then None else
    var rest := InOrder(h, operands[1..], k - 1, r.value.1);
    if rest.None? then None else Some(([r.value.0] + rest.value.0, rest.value.1))
  }

  /** k is the operand that decides the chain: every earlier & operand is 1 and every earlier |
      operand is 0, and k is the last one or differs. */
  predicate Decides(values: seq<int>, ops: seq<bool>, k: nat)
    requires k <= |ops| && |values| == k + 1
  {
    (forall j :: 0 <= j < k ==> values[j] == Bool(ops[j])) && (k == |ops| || values[k] != Bool(ops[k]))
  }

  /** Operands are evaluated from the left, exactly up to the one that decides. */
  lemma {:induction false} NestStops(h: Host, operands: seq<Expr>, ops: seq<bool>, env: Env, k: nat)
    requires |operands| == |ops| + 1 && k <= |ops|
    requires var r := InOrder(h, operands, k + 1, env); r.Some? && |r.value.0| == k + 1 && Decides(r.value.0, ops, k)
    ensures var r := InOrder(h, operands, k + 1, env).value;
      Eval(h, Nest(operands, ops), env) == Some((if k == |ops| then r.0[k] else Bool(!ops[k]), r.1))
    decreases k
  {
    var r := InOrder(h, operands, k + 1, env).value;
    var first := Eval(h, operands[0], env).value;
    var rest := InOrder(h, operands[1..], k, first.1).value;
    assert r.0 == [first.0] + rest.0;
    if k > 0 {
      assert r.0[0] == Bool(ops[0]);
      forall j | 0 <= j < k - 1 ensures rest.0[j] == Bool(ops[1..][j]) { assert r.0[j + 1] == Bool(ops[j + 1]); }
      assert rest.0[k - 1] == r.0[k];
      NestStops(h, operands[1..], ops[1..], first.1, k - 1);
    } else {
      assert r.0[0] == first.0;
      assert InOrder(h, operands[1..], 0, first.1) == Some(([], first.1));
    }
  }

  /** The formula the chain writes down. */
  function Formula(values: seq<bool>, ops: seq<bool>): bool
    requires |values| == |ops| + 1
  {
    if ops == [] then values[0]
    else if ops[0] then values[0] && Formula(values[1..], ops[1..])
    else values[0] || Formula(values[1..], ops[1..])
  }

  /** Over boolean operands without effects the chain has the truth value of its formula. */
  lemma {:induction false} NestIsFormula(h: Host, operands: seq<Expr>, ops: seq<bool>, values: seq<bool>, env: Env)
    requires |operands| == |values| == |ops| + 1
    requires forall i :: 0 <= i < |operands| ==> Eval(h, operands[i], env) == Some((Bool(values[i]), env))
    ensures Eval(h, Nest(operands, ops), env) == Some((Bool(Formula(values, ops)), env))
    decreases |ops|
  {
    assert Eval(h, operands[0], env) == Some((Bool(values[0]), env));
    if ops != [] {
      forall i | 0 <= i < |operands[1..]| ensures Eval(h, operands[1..][i], env) == Some((Bool(values[1..][i]), env)) {
        assert operands[1..][i] == operands[i + 1] && values[1..][i] == values[i + 1];
      }
      NestIsFormula(h, operands[1..], ops[1..], values[1..], env);
    }
  }

  /** A written chain over Bool operands without effects has, parsed, the truth value of the formula that is written:
      grouped from the right, each not about its own operand. */
  lemma ParsedFormula(h: Host, factors: seq<Factor>, ops: seq<bool>, values: seq<bool>, env: Env)
    requires |factors| == |values| == |ops| + 1
    requires forall i :: 0 <= i < |factors| ==> Eval(h, factors[i].e, env) == Some((Bool(values[i]), env))
    ensures var r, signed := Logical(Tokens(factors, ops), 0), seq(|values|, i requires 0 <= i < |values| => values[i] != factors[i].negated);
      r.Some? && Eval(h, r.value.0, env) == Some((Bool(Formula(signed, ops)), env))
  {
    var signed := seq(|values|, i requires 0 <= i < |values| => values[i] != factors[i].negated);
    var tokens := Tokens(factors, ops);
    assert tokens[0..] == tokens;
    ParsedNests(factors, ops, tokens, 0);
    forall i | 0 <= i < |factors| ensures Eval(h, AllMeant(factors)[i], env) == Some((Bool(signed[i]), env)) {
      NotNegates(h, factors[i].e, env);
    }
    NestIsFormula(h, AllMeant(factors), ops, signed, env);
  }

  lemma {:induction false} NestGood(operands: seq<Expr>, ops: seq<bool>)
    requires |operands| == |ops| + 1 && forall i :: 0 <= i < |operands| ==> GoodExpr(operands[i], 1)
    ensures GoodExpr(Nest(operands, ops), 1)
    decreases |ops|
  {
    assert GoodExpr(operands[0], 1);
    if ops != [] {
      forall i | 0 <= i < |operands[1..]| ensures GoodExpr(operands[1..][i], 1) { assert operands[1..][i] == operands[i + 1]; }
      NestGood(operands[1..], ops[1..]);
    }
  }

  /** The emitted code of a parsed chain: one more word, that of the deciding operand, the memory as
      the evaluated operands left it, and no local changed but slot 0. */
  lemma ChainCodeRuns(a: Activation, operands: seq<Expr>, ops: seq<bool>, n: Labels, rest: seq<Instr>, env: Env, m: Machine,
                      fuel: nat, k: nat) returns (m': Machine)
    requires |operands| == |ops| + 1 && (forall i :: 0 <= i < |operands| ==> GoodExpr(operands[i], 1))
    requires Runnable(a) && Agree(env, m, 1) && IsSuffix(ExprCode(Nest(operands, ops), n, rest), a.code) && k <= |ops|
    requires var r := InOrder(a.host, operands, k + 1, env); r.Some? && |r.value.0| == k + 1 && Decides(r.value.0, ops, k)
    ensures var r := InOrder(a.host, operands, k + 1, env).value;
      && Run(a, ExprCode(Nest(operands, ops), n, rest), m, fuel) == Run(a, rest, m', fuel)
      && m'.stack == [if k == |ops| then r.0[k] else Bool(!ops[k])] + m.stack
      && m'.heap == r.1.heap && m'.ext == r.1.ext && m'.inst == m.inst && m'.cls == m.cls
      && |m'.locals| == |m.locals| && forall x :: 1 <= x < |m.locals| ==> m'.locals[x] == m.locals[x]
  {
    var e := Nest(operands, ops);
    NestGood(operands, ops);
    NestStops(a.host, operands, ops, env, k);
    var r := InOrder(a.host, operands, k + 1, env).value;
    hide Run, Fine, OneWord, ExprCode, IsSuffix, Nest, InOrder, Decides;
    m' := ExprComputes(a, e, n, rest, env, m, fuel, 1);
    assert Eval(a.host, e, env).value.1.vars == env.vars;
  }
}
