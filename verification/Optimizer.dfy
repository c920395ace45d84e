// The optimizer as it works: passes that loop over a block with a working stack, and the walk over
// classes and methods that replaces their blocks.

module Optimizer {
  import opened Wrappers
  import opened Words
  import opened Bytecode
  import opened Simulation
  import P = Passes
  import A = Accessors
  import I = Inlining
  import M = InlineMethod
  import opened Programs
  import L = Pipeline

  class ItermediateOptimizer {
    var program: Program
    const host: Host
    const level: int
    const reserved: int

    /** unconditional is the last label the emitter has used, option the command line's level. */
    constructor (p: Program, unconditional: int, option: string, h: Host)
      ensures program == p && host == h && reserved == unconditional + 1
      ensures level == if option == "s1" then 1 else if option == "s2" then 2 else if option == "s3" then 3 else 0
    {
      program := p;
      host := h;
      level := if option == "s1" then 1 else if option == "s2" then 2 else if option == "s3" then 3 else 0;
      reserved := unconditional + 1;
    }

    /** Empties the working stack from its back, oldest first. */
    static method AddBack(outputs: seq<Instr>, workingStack: seq<Instr>) returns (r: seq<Instr>)
      ensures r == outputs + workingStack
    {
      r := outputs;
      var i := 0;
      while i < |workingStack|
        invariant i <= |workingStack| && r == outputs + workingStack[..i]
      {
        r := r + [workingStack[i]];
        i := i + 1;
      }
    }

    static method CleanJumps(inputs: seq<Instr>) returns (outputs: seq<Instr>)
      ensures outputs == P.CleanJumps([], inputs)
    {
      outputs := [];
      var workingStack: seq<Instr> := [];
      var i := 0;
      while i < |inputs|
        invariant i <= |inputs|
        invariant P.CleanJumps([], inputs) == outputs + P.CleanJumps(workingStack, inputs[i..])
      {
        var instr := inputs[i];
        assert inputs[i..][0] == instr && inputs[i..][1..] == inputs[i + 1..];
        if instr.JMP? {
          workingStack := workingStack + [instr];
        } else {
          if instr.LBL? && workingStack != [] && P.Last(workingStack).JMP? && P.Last(workingStack).target == instr.mark {
            workingStack := P.Front(workingStack);
          }
          outputs := AddBack(outputs, workingStack);
          outputs, workingStack := outputs + [instr], [];
        }
        i := i + 1;
      }
      outputs := AddBack(outputs, workingStack);
    }

    static method RemoveUselessInstructions(inputs: seq<Instr>) returns (outputs: seq<Instr>)
      ensures outputs == P.RemoveUseless([], inputs)
    {
      outputs := [];
      var workingStack: seq<Instr> := [];
      var i := 0;
      while i < |inputs|
        invariant i <= |inputs|
        invariant P.RemoveUseless([], inputs) == outputs + P.RemoveUseless(workingStack, inputs[i..])
      {
        var instr := inputs[i];
        assert inputs[i..][0] == instr && inputs[i..][1..] == inputs[i + 1..];
        if instr.LOAD_INT_VAR? && instr.ctx == LOCL {
          workingStack := workingStack + [instr];
        } else if P.Undoes(workingStack, instr) {
          workingStack := P.Front(workingStack);
        } else {
          outputs := AddBack(outputs, workingStack);
          outputs, workingStack := outputs + [instr], [];
        }
        i := i + 1;
      }
    }

    method InlineSettersGetters(inputs: seq<Instr>) returns (outputs: seq<Instr>)
      ensures outputs == A.InlineSettersGetters(program, inputs)
    {
      outputs := [];
      var i := 0;
      while i < |inputs|
        invariant i <= |inputs|
        invariant A.InlineSettersGetters(program, inputs) == outputs + A.InlineSettersGetters(program, inputs[i..])
      {
        var instr := inputs[i];
        assert inputs[i..][0] == instr && inputs[i..][1..] == inputs[i + 1..];
        if A.Inlinable(program, instr) {
          outputs := outputs + A.AccessorBody(program[instr.id]);
        } else {
          outputs := outputs + [instr];
        }
        i := i + 1;
      }
    }

    /** Folds the two youngest literals; ok is false when the division faults. */
    static method CalculateIntFold(instr: Instr, workingStack: seq<Instr>, outputs: seq<Instr>)
      returns (ws: seq<Instr>, out: seq<Instr>, ok: bool)
      requires P.IntLits(workingStack) && instr.INT_OP? && P.Folds(instr.op)
      ensures |workingStack| < 2 ==> ok && ws == [] && out == outputs + workingStack + [instr]
      ensures |workingStack| >= 2 ==>
        var v := EvalInt(instr.op, workingStack[|workingStack| - 1].value, workingStack[|workingStack| - 2].value);
        out == outputs && ok == v.Some? && (ok ==> ws == workingStack[..|workingStack| - 2] + [LOAD_INT_LIT(v.value)])
      ensures P.IntLits(ws)
    {
      ws, out, ok := workingStack, outputs, true;
      if |ws| == 1 {
        ws, out := [], out + [ws[0]] + [instr];
      } else if |ws| > 1 {
        var left := P.Last(ws);
        ws := P.Front(ws);
        var right := P.Last(ws);
        ws := P.Front(ws);
        var value := EvalInt(instr.op, left.value, right.value);
        if value.None? { return ws, out, false; }
        ws := ws + [LOAD_INT_LIT(value.value)];
      } else {
        out := out + [instr];
      }
    }

    static method FoldIntConstants(inputs: seq<Instr>) returns (outputs: Option<seq<Instr>>)
      ensures outputs == P.FoldInts([], inputs)
    {
      var out: seq<Instr> := [];
      var workingStack: seq<Instr> := [];
      var i := 0;
      P.ThenTwice([], [], P.FoldInts([], inputs));
      assert inputs[0..] == inputs;
      while i < |inputs|
        invariant i <= |inputs| && P.IntLits(workingStack)
        invariant P.FoldInts([], inputs) == P.Then(out, P.FoldInts(workingStack, inputs[i..]))
      {
        var instr := inputs[i];
        assert inputs[i..][0] == instr && inputs[i..][1..] == inputs[i + 1..];
        P.ThenTwice(out, workingStack + [instr], P.FoldInts([], inputs[i + 1..]));
        assert out + workingStack + [instr] == out + (workingStack + [instr]);
        if instr.LOAD_INT_LIT? {
          workingStack := workingStack + [instr];
        } else if instr.INT_OP? && P.Folds(instr.op) {
          var ok;
          workingStack, out, ok := CalculateIntFold(instr, workingStack, out);
          if !ok { return None; }
        } else {
          out := AddBack(out, workingStack);
          out, workingStack := out + [instr], [];
        }
        i := i + 1;
      }
      out := AddBack(out, workingStack);
      outputs := Some(out);
    }

    method FoldFloatConstants(inputs: seq<Instr>) returns (outputs: seq<Instr>)
      ensures outputs == P.FoldFloats(host, [], inputs)
    {
      outputs := [];
      var workingStack: seq<Instr> := [];
      var i := 0;
      while i < |inputs|
        invariant i <= |inputs| && P.FloatLits(workingStack)
        invariant P.FoldFloats(host, [], inputs) == outputs + P.FoldFloats(host, workingStack, inputs[i..])
      {
        var instr := inputs[i];
        assert inputs[i..][0] == instr && inputs[i..][1..] == inputs[i + 1..];
        if instr.LOAD_FLOAT_LIT? {
          workingStack := workingStack + [instr];
        } else if instr.FLOAT_OP? && |workingStack| > 1 {
          var left := P.Last(workingStack);
          assert P.Front(P.Front(workingStack)) == workingStack[..|workingStack| - 2];
          workingStack := P.Front(workingStack);
          var right := P.Last(workingStack);
          workingStack := P.Front(workingStack);
          workingStack := workingStack + [LOAD_FLOAT_LIT(host.floatOp(instr.fop, left.double, right.double))];
        } else {
          outputs := AddBack(outputs, workingStack);
          outputs, workingStack := outputs + [instr], [];
        }
        i := i + 1;
      }
      outputs := AddBack(outputs, workingStack);
    }

    /** Emits everything held back around a product or quotient, shifted when it can be. */
    static method CalculateReduction(instr: Instr, workingStack: seq<Instr>, outputs: seq<Instr>) returns (out: seq<Instr>)
      requires P.Scales(instr) && P.LitsAndVars(workingStack)
      ensures var r := P.Reduction(workingStack);
        out == outputs + if r.None? then workingStack + [instr]
               else workingStack[..|workingStack| - 2] + P.Shifted(r.value.0, r.value.1, instr)
    {
      var ws := workingStack;
      out := outputs;
      if |ws| > 1 {
        var top := P.Last(ws);
        ws := P.Front(ws);
        var next := P.Last(ws);
        var shift := 0;
        if top.LOAD_INT_LIT? && next.LOAD_INT_VAR? { shift := P.ShiftFor(top.value); }
        else if top.LOAD_INT_VAR? && next.LOAD_INT_LIT? { shift := P.ShiftFor(next.value); }
        if shift > 0 {
          var rewritten := [LOAD_INT_LIT(shift)];
          if !next.LOAD_INT_LIT? { rewritten := rewritten + [next]; }
          if !top.LOAD_INT_LIT? { rewritten := rewritten + [top]; }
          ws := P.Front(ws);
          rewritten := rewritten + [INT_OP(if instr == INT_OP(Mul) then Shl else Shr)];
          out := AddBack(out, ws);
          out := out + rewritten;
        } else {
          out := AddBack(out, ws);
          out := out + [top] + [instr];
        }
      } else {
        out := AddBack(out, ws);
        out := out + [instr];
      }
    }

    static method StrengthReduction(inputs: seq<Instr>) returns (outputs: seq<Instr>)
      ensures outputs == P.ReduceStrength([], inputs)
    {
      outputs := [];
      var workingStack: seq<Instr> := [];
      var i := 0;
      while i < |inputs|
        invariant i <= |inputs| && P.LitsAndVars(workingStack)
        invariant P.ReduceStrength([], inputs) == outputs + P.ReduceStrength(workingStack, inputs[i..])
      {
        var instr := inputs[i];
        assert inputs[i..][0] == instr && inputs[i..][1..] == inputs[i + 1..];
        if instr.LOAD_INT_LIT? || instr.LOAD_INT_VAR? {
          workingStack := workingStack + [instr];
        } else if P.Scales(instr) {
          outputs := CalculateReduction(instr, workingStack, outputs);
          workingStack := [];
        } else {
          outputs := AddBack(outputs, workingStack);
          outputs, workingStack := outputs + [instr], [];
        }
        i := i + 1;
      }
      outputs := AddBack(outputs, workingStack);
    }

    static lemma Regroup(x: seq<Instr>, y: seq<Instr>, z: seq<Instr>)
      ensures (x + y) + z == x + (y + z)
    {
    }

    /** The stores a block starts with. */
    static method Prologue(inputs: seq<Instr>) returns (n: nat)
      ensures n == P.PrologueLength(inputs)
    {
      n := 0;
      assert inputs[0..] == inputs;
      while n < |inputs| && P.Stores(inputs[n])
        invariant n <= |inputs| && P.PrologueLength(inputs) == n + P.PrologueLength(inputs[n..])
      {
        assert inputs[n..][0] == inputs[n] && inputs[n..][1..] == inputs[n + 1..];
        n := n + 1;
      }
    }

    static lemma ReplaceNext(ws: seq<Instr>, rest: seq<Instr>)
      requires rest != []
      ensures var i := rest[0];
        P.ReplaceStores(ws, rest) ==
          if i.LOAD_INT_VAR? || i.LOAD_FLOAT_VAR? then
            if ws != [] && P.CopyFor(P.Last(ws), i).Some?
            then [P.CopyFor(P.Last(ws), i).value] + P.ReplaceStores(P.Front(ws), rest[1..])
            else (ws + [i]) + P.ReplaceStores([], rest[1..])
          else if P.Stores(i) && !(ws != [] && P.Last(ws).STOR_INT_VAR?) then P.ReplaceStores(ws + [i], rest[1..])
          else (ws + [i]) + P.ReplaceStores([], rest[1..])
    {
    }

    static method InstructionReplacement(inputs: seq<Instr>) returns (outputs: seq<Instr>)
      ensures outputs == P.ReplaceInstructions(inputs)
    {
      var i := Prologue(inputs);
      outputs := inputs[..i];
      ghost var whole, n := P.ReplaceInstructions(inputs), i;
      assert whole == outputs + P.ReplaceStores([], inputs[i..]);
      hide P.ReplaceInstructions, P.ReplaceStores, P.CopyFor, P.PrologueLength;
      var workingStack: seq<Instr> := [];
      while i < |inputs|
        invariant n <= i <= |inputs|
        invariant whole == outputs + P.ReplaceStores(workingStack, inputs[i..])
      {
        var instr := inputs[i];
        ghost var before, rest, ws := outputs, inputs[i + 1..], workingStack;
        assert inputs[i..][0] == instr && inputs[i..][1..] == rest;
        ReplaceNext(ws, inputs[i..]);
        Regroup(before, ws + [instr], P.ReplaceStores([], rest));
        Regroup(before, ws, [instr]);
        if instr.LOAD_INT_VAR? || instr.LOAD_FLOAT_VAR? {
          workingStack, outputs := ReplacementInstruction(instr, workingStack, outputs);
          if ws != [] && P.CopyFor(P.Last(ws), instr).Some? {
            Regroup(before, [P.CopyFor(P.Last(ws), instr).value], P.ReplaceStores(P.Front(ws), rest));
          }
        } else if P.Stores(instr) && !(workingStack != [] && P.Last(workingStack).STOR_INT_VAR?) {
          workingStack := workingStack + [instr];
        } else {
          outputs := AddBack(outputs, workingStack);
          outputs, workingStack := outputs + [instr], [];
        }
        i := i + 1;
      }
      outputs := AddBack(outputs, workingStack);
      NothingLeft(inputs, i, workingStack);
    }

    static lemma NothingLeft(inputs: seq<Instr>, i: nat, ws: seq<Instr>)
      requires i == |inputs|
      ensures P.ReplaceStores(ws, inputs[i..]) == ws
    {
    }

    static method ReplacementInstruction(instr: Instr, workingStack: seq<Instr>, outputs: seq<Instr>)
      returns (ws: seq<Instr>, out: seq<Instr>)
      ensures if workingStack != [] && P.CopyFor(P.Last(workingStack), instr).Some?
        then ws == P.Front(workingStack) && out == outputs + [P.CopyFor(P.Last(workingStack), instr).value]
        else ws == [] && out == outputs + workingStack + [instr]
    {
      ws, out := workingStack, outputs;
      if ws != [] {
        var top := P.Last(ws);
        if top.STOR_INT_VAR? && instr.LOAD_INT_VAR? && instr.slot == top.slot && instr.ctx == top.ctx {
          out := out + [COPY_INT_VAR(top.slot, top.ctx)];
          ws := P.Front(ws);
        } else if top.STOR_FLOAT_VAR? && instr.LOAD_FLOAT_VAR? && instr.slot == top.slot && instr.ctx == top.ctx {
          out := out + [COPY_FLOAT_VAR(top.slot, top.ctx)];
          ws := P.Front(ws);
        } else {
          out := AddBack(out, ws);
          ws, out := [], out + [instr];
        }
      } else {
        out := out + [instr];
      }
    }

    /** The pipeline of one block: a level above 0, 1 and 2 adds passes. */
    method OptimizeMethod(inputs: seq<Instr>) returns (outputs: Option<seq<Instr>>)
      ensures outputs == L.OptimizeBlock(host, program, level, inputs)
      ensures outputs.Some? && A.WellLinked(program) && L.BlockReady(host, program, level, inputs)
              && L.QuotientsSafe(host, program, level, inputs) ==>
        Refines(host, program, inputs, outputs.value, 1)
    {
      var block := CleanJumps(inputs);
      block := RemoveUselessInstructions(block);
      outputs := Some(block);
      if level > 0 {
        block := InlineSettersGetters(block);
        outputs := FoldIntConstants(block);
        if outputs.Some? {
          block := FoldFloatConstants(outputs.value);
          if level > 1 { block := StrengthReduction(block); }
          if level > 2 { block := InstructionReplacement(block); }
          outputs := Some(block);
        }
      }
      if outputs.Some? && A.WellLinked(program) && L.BlockReady(host, program, level, inputs)
         && L.QuotientsSafe(host, program, level, inputs) {
        L.OptimizeBlockRefines(host, program, level, inputs);
      }
    }

    /** Whether the callee passes every check of the inlining test, scanning its instructions. */
    method CanInlineMethod(called: MethodId, current: MethodId, space: nat, inlined: set<MethodId>, labels: set<int>)
      returns (can: bool)
      requires current in program && called in program
      ensures can == I.CanInlineMethod(program, current, called, space, inlined, labels)
    {
      if called in inlined || called == current { return false; }
      if '$' in program[called].clsName || program[called].cls != program[current].cls { return false; }
      if space + program[called].space > I.LOCL_INLINE_MEM_MAX { return false; }
      if I.Contains(program[called].name, ":New:") || I.Contains(program[current].name, ":Main:o.System.String*,") {
        return false;
      }
      var code := program[called].code;
      if |code| < 2 { return false; }
      var foundReturn := false;
      var j := 0;
      while j < |code|
        invariant j <= |code|
        invariant I.BodyInlinable(code, labels, false) == I.BodyInlinable(code[j..], labels, foundReturn)
      {
        var instr := code[j];
        assert code[j..][0] == instr && code[j..][1..] == code[j + 1..];
        if I.IsVariable(instr) {
          if instr.ctx != LOCL { return false; }
        } else if instr.TRAP? || (instr.OTHER? && instr.opcode.Special?) {
          return false;
        } else if I.LabelOf(instr).Some? {
          if I.LabelOf(instr).value in labels { return false; }
        } else if instr.RTRN? {
          if foundReturn { return false; }
          foundReturn := true;
        }
        j := j + 1;
      }
      return true;
    }

    static method GetLastLocalOffset(code: seq<Instr>) returns (offset: nat)
      ensures offset == I.LastLocalOffset(code)
    {
      offset := 0;
      var i := 0;
      while i < |code|
        invariant i <= |code|
        invariant I.LastLocalOffset(code) == if I.LastLocalOffset(code[i..]) > offset then I.LastLocalOffset(code[i..]) else offset
      {
        var instr := code[i];
        assert code[i..][0] == instr && code[i..][1..] == code[i + 1..];
        if I.IsVariable(instr) && instr.ctx == LOCL && instr.slot > offset { offset := instr.slot; }
        i := i + 1;
      }
    }

    static method CollectLabels(code: seq<Instr>) returns (labels: set<int>)
      ensures labels == L.LabelsOf(code)
    {
      labels := {};
      var i := 0;
      while i < |code|
        invariant i <= |code| && L.LabelsOf(code) == labels + L.LabelsOf(code[i..])
      {
        assert code[i..][0] == code[i] && code[i..][1..] == code[i + 1..];
        if I.LabelOf(code[i]).Some? { labels := labels + {I.LabelOf(code[i]).value}; }
        i := i + 1;
      }
    }

    /** The callee's instructions, moved into the caller's frame; its last one is dropped. */
    static method InlineBody(offset: nat, code: seq<Instr>) returns (body: seq<Instr>)
      requires code != []
      ensures body == I.InlinedBody(offset, code)
    {
      body := [STOR_INT_VAR(offset, LOCL)];
      var j := 0;
      while j < |code| - 1
        invariant j <= |code| - 1 == |P.Front(code)| && |body| == j + 1 && body[0] == STOR_INT_VAR(offset, LOCL)
        invariant forall k :: 0 <= k < j ==> body[k + 1] == I.Relocate(offset, P.Front(code)[k])
      {
        var instr := code[j];
        if I.IsVariable(instr) {
          body := body + [if instr.ctx == LOCL then I.Relocate(offset, instr) else instr];
        } else if instr.LOAD_INST_MEM? {
          body := body + [LOAD_INT_VAR(offset, LOCL)];
        } else {
          body := body + [instr];
        }
        j := j + 1;
      }
      assert body[1..] == I.RelocateAll(offset, P.Front(code));
    }

    lemma InlineNext(current: MethodId, offset: nat, labels: set<int>, rest: seq<Instr>, space: nat, inlined: set<MethodId>)
      requires current in program && rest != []
      ensures var i := rest[0];
        var can := i.MTHD_CALL? && i.id in program && I.CanInlineMethod(program, current, i.id, space, inlined, labels);
        if can then
          var space', inlined' := space + 8 + program[i.id].space, inlined + {i.id};
          I.InlineCalls(program, current, offset, labels, rest, space, inlined) ==
            I.InlinedBody(offset, program[i.id].code) + I.InlineCalls(program, current, offset, labels, rest[1..], space', inlined')
          && space + L.InlinedSpace(program, M.InlinedIds(program, current, labels, rest, space, inlined)) ==
               space' + L.InlinedSpace(program, M.InlinedIds(program, current, labels, rest[1..], space', inlined'))
        else
          I.InlineCalls(program, current, offset, labels, rest, space, inlined) ==
            [i] + I.InlineCalls(program, current, offset, labels, rest[1..], space, inlined)
          && M.InlinedIds(program, current, labels, rest, space, inlined) ==
               M.InlinedIds(program, current, labels, rest[1..], space, inlined)
    {
      var i := rest[0];
      hide I.InlinedBody, I.BodyInlinable;
      if i.MTHD_CALL? && I.CanInlineMethod(program, current, i.id, space, inlined, labels) {
        var ids := M.InlinedIds(program, current, labels, rest[1..], space + 8 + program[i.id].space, inlined + {i.id});
        assert ([i.id] + ids)[0] == i.id && ([i.id] + ids)[1..] == ids;
      }
    }

    /** Appends an instruction, or the body of the method it calls. */
    method InlineInstruction(current: MethodId, offset: nat, labels: set<int>, instr: Instr, space: nat, inlined: set<MethodId>,
                             outputs: seq<Instr>, ghost rest: seq<Instr>)
      returns (outputs': seq<Instr>, space': nat, inlined': set<MethodId>)
      requires current in program && rest != [] && rest[0] == instr
      ensures outputs' + I.InlineCalls(program, current, offset, labels, rest[1..], space', inlined')
           == outputs + I.InlineCalls(program, current, offset, labels, rest, space, inlined)
      ensures space' + L.InlinedSpace(program, M.InlinedIds(program, current, labels, rest[1..], space', inlined'))
           == space + L.InlinedSpace(program, M.InlinedIds(program, current, labels, rest, space, inlined))
    {
      InlineNext(current, offset, labels, rest, space, inlined);
      hide I.InlineCalls, I.CanInlineMethod, I.InlinedBody, L.InlinedSpace, M.InlinedIds;
      outputs', space', inlined' := outputs + [instr], space, inlined;
      var can := false;
      if instr.MTHD_CALL? && instr.id in program { can := CanInlineMethod(instr.id, current, space, inlined, labels); }
      if can {
        var body := InlineBody(offset, program[instr.id].code);
        outputs' := outputs + body;
        space' := space + 8 + program[instr.id].space;
        inlined' := inlined + {instr.id};
        Regroup(outputs, body, I.InlineCalls(program, current, offset, labels, rest[1..], space', inlined'));
      } else {
        Regroup(outputs, [instr], I.InlineCalls(program, current, offset, labels, rest[1..], space, inlined));
      }
    }

    /** Inlines calls into the current method's block and enlarges its space. */
    method InlineMethod(current: MethodId) returns (method': Method)
      requires current in program
      ensures method' == L.InlineInto(program, current, reserved)
    {
      var inputs := program[current].code;
      var labels := CollectLabels(inputs);
      labels := labels + {reserved};
      var offset := GetLastLocalOffset(inputs);
      offset := offset + 2;
      var outputs: seq<Instr>, inlined: set<MethodId>, space: nat := [], {}, program[current].space;
      ghost var code := I.InlineCalls(program, current, offset, labels, inputs, space, {});
      ghost var total := space + L.InlinedSpace(program, M.InlinedIds(program, current, labels, inputs, space, {}));
      assert L.InlineInto(program, current, reserved) == program[current].(code := code, space := total);
      hide I.InlineCalls, I.InlinedBody, L.InlinedSpace, M.InlinedIds, L.InlineInto, L.LabelsOf;
      var i := 0;
      assert inputs[0..] == inputs && [] + code == code;
      while i < |inputs|
        invariant i <= |inputs|
        invariant code == outputs + I.InlineCalls(program, current, offset, labels, inputs[i..], space, inlined)
        invariant total == space + L.InlinedSpace(program, M.InlinedIds(program, current, labels, inputs[i..], space, inlined))
      {
        assert inputs[i..][0] == inputs[i] && inputs[i..][1..] == inputs[i + 1..];
        outputs, space, inlined :=
          InlineInstruction(current, offset, labels, inputs[i], space, inlined, outputs, inputs[i..]);
        i := i + 1;
      }
      NoMoreCalls(current, offset, labels, inputs, i, space, inlined, outputs);
      method' := program[current].(code := outputs, space := space);
    }

    lemma NoMoreCalls(current: MethodId, offset: nat, labels: set<int>, inputs: seq<Instr>, i: nat, space: nat,
                      inlined: set<MethodId>, outputs: seq<Instr>)
      requires current in program && i == |inputs|
      ensures outputs + I.InlineCalls(program, current, offset, labels, inputs[i..], space, inlined) == outputs
      ensures L.InlinedSpace(program, M.InlinedIds(program, current, labels, inputs[i..], space, inlined)) == 0
    {
    }

    /** Optimizes the methods of a class, one after the other. */
    method OptimizeMethods(methods: seq<MethodId>, ghost later: seq<L.Pass>) returns (ok: bool)
      requires forall k :: 0 <= k < |methods| ==> methods[k] in program
      modifies this`program
      ensures L.RunPasses(host, old(program), level, reserved, L.OptimizeEach(methods) + later) ==
        if ok then L.RunPasses(host, program, level, reserved, later) else None
      ensures program.Keys == old(program).Keys
    {
      ghost var whole := L.RunPasses(host, program, level, reserved, L.OptimizeEach(methods) + later);
      hide L.OptimizeBlock;
      var j := 0;
      assert methods[0..] == methods;
      while j < |methods|
        invariant j <= |methods| && program.Keys == old(program).Keys
        invariant whole == L.RunPasses(host, program, level, reserved, L.OptimizeEach(methods[j..]) + later)
      {
        NextPass(L.Pass.Optimize(methods[j]), L.OptimizeEach(methods[j + 1..]), later);
        assert methods[j..][0] == methods[j] && methods[j..][1..] == methods[j + 1..];
        var block := OptimizeMethod(program[methods[j]].code);
        if block.None? { return false; }
        program := program[methods[j] := program[methods[j]].(code := block.value)];
        j := j + 1;
      }
      assert methods[j..] == [] && [] + later == later;
      return true;
    }

    /** Inlines into the methods of a class, one after the other. */
    method InlineMethods(methods: seq<MethodId>, ghost later: seq<L.Pass>)
      requires forall k :: 0 <= k < |methods| ==> methods[k] in program
      modifies this`program
      ensures L.RunPasses(host, old(program), level, reserved, L.InlineEach(methods) + later) ==
        L.RunPasses(host, program, level, reserved, later)
      ensures program.Keys == old(program).Keys
    {
      ghost var whole := L.RunPasses(host, program, level, reserved, L.InlineEach(methods) + later);
      hide L.InlineInto;
      var j := 0;
      assert methods[0..] == methods;
      while j < |methods|
        invariant j <= |methods| && program.Keys == old(program).Keys
        invariant whole == L.RunPasses(host, program, level, reserved, L.InlineEach(methods[j..]) + later)
      {
        NextPass(L.Pass.Inline(methods[j]), L.InlineEach(methods[j + 1..]), later);
        assert methods[j..][0] == methods[j] && methods[j..][1..] == methods[j + 1..];
        if level > 2 {
          var inlined := InlineMethod(methods[j]);
          program := program[methods[j] := inlined];
        }
        j := j + 1;
      }
      assert methods[j..] == [] && [] + later == later;
    }

    /** Optimizes every method of every class, then inlines into it; ok is false when the compiler
        faults while folding. */
    method Optimize(classes: seq<seq<MethodId>>) returns (ok: bool)
      requires forall c, k :: 0 <= c < |classes| && 0 <= k < |classes[c]| ==> classes[c][k] in program
      modifies this`program
      ensures var q := L.RunPasses(host, old(program), level, reserved, L.Schedule(classes));
        ok == q.Some? && (ok ==> program == q.value)
      ensures ok && L.PassesReady(host, old(program), level, reserved, L.Schedule(classes)) ==>
        CoTerminate(host, old(program), program)
    {
      ghost var whole := L.RunPasses(host, program, level, reserved, L.Schedule(classes));
      hide L.RunPass, L.OptimizeEach, L.InlineEach, L.PassReady, CoTerminate;
      var i := 0;
      assert classes[0..] == classes;
      while i < |classes|
        invariant i <= |classes| && program.Keys == old(program).Keys
        invariant whole == L.RunPasses(host, program, level, reserved, L.Schedule(classes[i..]))
      {
        var methods := classes[i];
        ghost var later := L.Schedule(classes[i + 1..]);
        assert classes[i..][0] == methods && classes[i..][1..] == classes[i + 1..];
        forall k | 0 <= k < |methods| ensures methods[k] in program { assert classes[i][k] in program; }
        var done := OptimizeMethods(methods, L.InlineEach(methods) + later);
        if !done { return false; }
        InlineMethods(methods, later);
        i := i + 1;
      }
      if L.PassesReady(host, old(program), level, reserved, L.Schedule(classes)) {
        L.OptimizerCoTerminates(host, old(program), level, reserved, L.Schedule(classes));
      }
      return true;
    }

    static lemma NextPass(pass: L.Pass, passes: seq<L.Pass>, later: seq<L.Pass>)
      ensures ([pass] + passes + later)[0] == pass && ([pass] + passes + later)[1..] == passes + later
    {
    }
  }
}
