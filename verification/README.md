# Objeck back end: emitter, optimizer, linker

A verified model of the compiler back end of the Objeck language: the emitter that turns structured
statements into a label/jump stack bytecode, the optimizer that rewrites this bytecode, and the linker
with its binary library format. The bytecode has a small-step semantics taken from the virtual machine
(`src/vm/interpreter.cpp`, `src/vm/interpreter.h`): 32-bit words, doubles of two words, one operand stack
shared by all calls, and recycled frames. A fresh frame is zeroed; a released one is cleared only in its
first LOCAL_SIZE bytes, so its upper words keep what an earlier call left. The model lets any word of a
callee's frame hold anything, as a function of the shared state, so its theorems hold for both.

## How it is organised

- `Bytecode`, `IntLaws`, `MachineLaws`, `Simulation`, `Programs`: the machine and the laws of its
  instructions, and what it means that one block or one program refines another. Fuel counts backward jumps and depth bounds nested calls; results are stated for
  every fuel and depth, equally for returning, faulting and endless runs.
- `Passes`, `Quotients`, `Accessors`, `Inlining`, `InlineMethod`, `Pipeline`, `Optimizer`: each pass as a
  function of the instructions held back and still to come, its refinement theorem, and the imperative
  pass (`Optimizer`) proved to compute that function.
- `Limits`, `InlineLimits`, `InlineSpace`, `SharedSlots`, `TwiceInlined`, `LabelCopies`: where the passes
  are not right, with an input and a condition; `Untouched`: blocks no pass changes; `Thorough`: what
  each pass achieves.
- `Shape`, `InlineShape`, `Stages`: what every pass keeps of every method, so that conditions on the
  original program are enough for the whole optimizer.
- `Source`, `SourceLaws`, `Emission`, `Discipline`, `StmtDiscipline`, `Placement`, `ExprMeaning`, `SelectMeaning`,
  `StmtMeaning`, `Emitter`, `Compiler`: source syntax and big-step semantics, the emitted code, label
  discipline, compiler correctness for whole programs with calls, and the imperative emitter proved to
  emit that code.
- `WellCalled`, `Assigned`, `Booleans`, `DoWhileTests`: what the analyzer's checks of calls and of Bool
  tests, and definite assignment, promise of the source.
- `Ready`, `CompiledProgram`, `Faultless`: emitted programs meet what the optimizer asks for, so source
  semantics carries over to optimized programs at every level; `SampleProgram` is one of them.
- `Logic`: the operand order of `&` and `|` between parser and emitter.
- `Linking`, `Strings`, `FileFormat`, `RoundTrip`, `FileText`, `Utf8`, `LibraryFile`, `Loading`, `Signatures`: reachable classes,
  ids, relinking, constant pools, the library file with its texts and the signature decoder.
- `Promotion`: numeric promotion in the analyzer and its conversions in the emitter.

## Where the code does not do what it is for

Each point names the theorems that show it. Where such a theorem is called exact, or the point says
"exactly when", the condition is an if-and-only-if; the others give an input.

- `CleanJumps` also deletes a conditional jump before its own label, leaving its operand on the stack
  (`Limits.CleanJumpExact`); the emitter never produces one (`Compiler.RoutineDisciplined`).
- `RemoveUselessInstructions` has no final flush (`Limits.RemoveUselessExact`); every emitted block
  ends so that nothing is held back (`Pipeline.EndFlushes`).
- Folding a DIV or MOD without a value faults the compiler (`Limits.FoldIntsFaultsExact`).
- Strength reduction of DIV rounds the wrong way for negative dividends that are not multiples, and turns
  literal / variable into a shift of the variable (`Quotients.QuotientExact`,
  `Quotients.LiteralQuotientExact`); it reorders operands under INST and CLS variables, as
  in a literal times a field (`Limits.ProductShiftExact`).
- `InstructionReplacement` moves a copy ahead of a pending float store (`Limits.OvertakenStoreExact`),
  and replaces pairs on instance memory (`Limits.CopyExact`).
- Inlining into a caller without locals declares one word too little (`InlineSpace.NoLocalsOverflow`; in
  general `InlineSpace.InlinedSpaceExact`). Two or more callees leave eight spare bytes each.
- The set of labels in use is not extended by what is inlined, so a label can come to a method twice;
  a program is given that then answers differently (`TwiceInlined.LabelTwiceDiverges`). Labels stay unique
  exactly when no labelled method came twice (`LabelCopies.UniqueExactly`); that none can, along the calls
  of the original program, is what `Stages.ProperCoTerminates` asks for.
- The inlining test does not see that a callee reads a local it has not written; it finds there what the
  callee inlined before it left (`SharedSlots.SharedSlotExact`, `SharedSlots.ClearedFramesExact`).
- Function variables are neither counted among a caller's locals nor moved with a callee's
  (`InlineLimits.CallerFunctionExact`, `InlineLimits.CalleeFunctionExact`, for one caller and one callee).
- The analyzer looks at no operator of an operation assignment, so += and -= on Bool variables are accepted
  and leave words that are neither 0 nor 1 (`Booleans.KeepsBoolsExact`). The do/while test, which asks for 1
  where the other tests ask for anything but 0, then ends its loop (`Booleans.AddedToTrue`); without such
  assignments the two agree on every accepted test (`Booleans.AcceptedDoWhile`).
- `&` and `|` have one precedence and nest to the right (`Logic.ParsedNests`).
- The link closure does not follow function references (`Linking.DanglingFunction`).
- COPY_FUNC_VAR is written but cannot be loaded (`RoundTrip.FunctionCopyUnreadable`).
- A float array constant holding NaN is never found in the merged pool (`Strings.Found`).
- Function parameters that return arrays, or take functions, are decoded differently from how they
  were encoded (`Signatures.SignatureTrip`, `Signatures.NestedFunctionCut`).
- Shifts and bit operations on a float, and MOD of two floats, pass the analyzer and run an integer
  operation over the words of a double (`Promotion.IntegerOperationsOverFloats`, exactly when:
  `Promotion.WidthsRight`).

## Model

| member | source | states |
|---|---|---|
| Words.Wrap | src/shared/sys.h:45-48 | A word is the 32-bit two's-complement residue: in range, congruent modulo 2^32, the identity on words. |
| IntLaws.RingExact | src/vm/interpreter.cpp:334-377 | Sum, difference and product are the integers' own, up to multiples of 2^32: that determines each result. |
| IntLaws.DivisionExact | src/vm/interpreter.cpp:379-413 | Quotient q and remainder r of words of any signs are exactly those with a = q b + r, r smaller than b in size and r zero or of the sign of a. |
| IntLaws.DivisionDefined | src/vm/interpreter.cpp:379-413 | Both have no value for the divisor 0 and for the smallest word over -1, and only there. |
| IntLaws.BitOpsExact | src/vm/interpreter.cpp:415-440 | The word whose 32 bits are the and, or, exclusive or of the operands' bits, one by one, and no other. |
| IntLaws.ShiftsExact | src/vm/interpreter.cpp:251-269 | A left shift is the product with 2^k up to multiples of 2^32, a right shift the quotient by 2^k rounded down. |
| IntLaws.ComparisonsExact | src/vm/interpreter.cpp:442-512 | Of less, equal and greater exactly one holds; the other three are their negations. |
| MachineLaws.StackBalance | src/vm/interpreter.cpp:144-312 | Every instruction takes a number of words told by a table, leaves another, and touches nothing below. |
| MachineLaws.LocalKeeps | src/vm/interpreter.cpp:144-312 | A local of either width, or a function variable, holds what was stored, and no other local changes. |
| MachineLaws.InstanceKeeps | src/vm/interpreter.cpp:144-204 | So does an integer of an instance, and no other cell of the memory changes. |
| MachineLaws.InstanceKeepsFloat | src/vm/interpreter.cpp:205-250 | So does a double of an instance. |
| MachineLaws.PushedAndDropped | src/vm/interpreter.cpp:781-802 | What a literal pushes POP_INT or POP_FLOAT drops. |
| MachineLaws.Swapped | src/vm/interpreter.cpp:781-787 | The two words on top change places; swapping twice changes nothing. |
| MachineLaws.LeftOnTop | src/vm/interpreter.cpp:334-377 | Of two operands the one pushed last is the left one. |
| MachineLaws.JumpDecides | src/vm/interpreter.cpp:1128-1150 | A conditional jump pops one word and jumps if and only if it is the condition. |
| Bytecode.Step | src/vm/interpreter.cpp:144-312 | Only the operand stack, frame contents and shared memory change: frame size, instance and class memory stay; function variables take two words of their frame or instance; faults are None. |
| Bytecode.Advance | src/vm/interpreter.cpp:1128-1150 | A jump compares with 0/1 unless operand2 is -1; every move spends code or, backwards, one unit of fuel. |
| Bytecode.Run | src/vm/interpreter.cpp:334-512 | A run ends with no more fuel than it began with and a frame of the same size; calls push a recycled frame and share the operand stack. |
| Simulation.DepthMonotone | src/vm/interpreter.cpp:1648-1706 | A run that ends within a call depth ends the same way with any greater depth. |
| Simulation.RunStraight | src/vm/interpreter.cpp:334-512 | Code without control flow runs as the composition of its steps, whatever follows it. |
| Simulation.Landing | src/compiler/optimization.cpp:267-313 | A pass restarted at any label gives the suffix the whole pass gives: a jump lands at corresponding places of input and output. |
| Simulation.JumpDirection | src/compiler/optimization.cpp:267-313 | Between corresponding places a jump goes backward in the output exactly if it does in the input. |
| Simulation.Simulates | src/compiler/optimization.cpp:89-207 | Input and output blocks, started at corresponding places, reach the same outcome with the same fuel, in both directions. |
| Simulation.ChunksRefine | src/compiler/optimization.cpp:89-207 | Any pass whose output is made of effect-preserving pieces refines its input for every machine, fuel and depth. |
| Passes.CleanJumpsRefines | src/compiler/optimization.cpp:267-313 | On uniquely labelled code with no conditional jump directly before its own label, jump cleaning keeps every run. |
| Limits.CleanJumpExact | src/compiler/optimization.cpp:282-287 | Deleting JMP L before LBL L is right if and only if the jump is unconditional; operand2 is never looked at. |
| Passes.RemoveUselessChunks | src/compiler/optimization.cpp:209-265 | Nested LOAD x / STOR x local pairs cancel: with what is held back appended, the block has the effect it had. |
| Passes.MissingFlush | src/compiler/optimization.cpp:255-265 | The output of load/store removal is the flushed output minus exactly the loads still held at the end. |
| Pipeline.RemoveUselessRefines | src/compiler/optimization.cpp:209-265 | Load/store removal refines its block up to exactly the forgotten trailing loads. |
| Limits.RemoveUselessExact | src/compiler/optimization.cpp:255-265 | On straight-line code load/store removal is right if and only if nothing is left held back at the end. |
| Passes.FoldIntsChunks | src/compiler/optimization.cpp:725-840 | Repeated folding through the literal stack keeps the effect of every piece, operands in order for SUB, DIV and MOD, unfolded literals flushed in order. |
| Limits.FoldIntsFaultsExact | src/compiler/optimization.cpp:769-840 | Folding faults the compiler if and only if it comes to a DIV or MOD of two literals whose divisor is 0, or is -1 under the smallest word. |
| Passes.FoldFloatsChunks | src/compiler/optimization.cpp:842-931 | The same for doubles, whatever the float operations compute. |
| Quotients.ReducedRuns | src/compiler/optimization.cpp:451-616 | Wherever a run meets only products and quotients the shift computes, the reduced block runs as the original, jumps, loops and calls included. |
| Quotients.ReducedRefines | src/compiler/optimization.cpp:451-616 | If every run of the block does, the reduced block refines it. |
| Quotients.ScaledWellExact | src/compiler/optimization.cpp:451-616 | For a local variable a rewriting is right on a machine if and only if the variable holds a good operand: any for a product, non-negative or a multiple for a dividend, the literal or a band of negatives for a divisor. |
| Quotients.ProductsReduceSafely | src/compiler/optimization.cpp:451-616 | A block that divides nowhere by or into such a literal meets the condition on every run. |
| Passes.ProductToShift | src/compiler/optimization.cpp:529-604 | Literal, local, MUL and the shifted form agree on all machines: left shift is 32-bit wrap-around multiplication, on either side. |
| Limits.ProductShiftExact | src/compiler/optimization.cpp:492-604 | Reducing a product to a shift is right if and only if the variable is local; under INST or CLS the instance is taken from the wrong place. |
| Quotients.ReducedQuotient | src/compiler/optimization.cpp:492-604 | The pass turns [literal, load, DIV], in either order, into the load shifted right: both become the same code. |
| Quotients.QuotientExact | src/compiler/optimization.cpp:529-604 | Variable / 2^k: what the pass puts out computes what the block computed if and only if the dividend is non-negative or a multiple of 2^k. |
| Quotients.LiteralQuotientExact | src/compiler/optimization.cpp:492-511 | Literal / variable: what the pass puts out is right if and only if v == 2^k or -2^k <= v < -2^k / 2. |
| Limits.InstanceTakenFromStack | src/compiler/optimization.cpp:529-604 | For every k and every INST or CLS variable: a machine on which the product runs and the shifted form faults. |
| Passes.ReplaceStoresChunks | src/compiler/optimization.cpp:364-449 | With local pairs and no store after a float store, STOR x; LOAD x becomes COPY x with the same effect. |
| Limits.CopyExact | src/compiler/optimization.cpp:419-449 | Replacing a store and a load by a copy keeps the effect if and only if the variable is local. |
| Limits.OvertakenStoreExact | src/compiler/optimization.cpp:385-397 | STOR_FLOAT a; STOR_INT b; LOAD_INT b is reordered: the copy overtakes the float store, right only if both words happen to be equal. |
| Pipeline.EndFlushes | src/compiler/optimization.cpp:255-265 | A block that ends in RTRN (or in the instance of a constructor) leaves nothing held back. |
| Thorough.JumpsCleaned | src/compiler/optimization.cpp:268-313 | Jump cleaning takes out exactly the jumps directly before their own label. |
| Thorough.UselessRemoved | src/compiler/optimization.cpp:209-265 | No local is left that is loaded and stored right back. |
| Thorough.AccessorsInlined | src/compiler/optimization.cpp:315-361 | No call of an accessor is left. |
| Thorough.AccessorShapes | src/compiler/optimization.h:253-321 | The accessor shapes, one by one, with what comes in place of a call. |
| Thorough.IntsFolded | src/compiler/optimization.cpp:725-840 | No foldable operation is left over two integer literals. |
| Thorough.FloatsFolded | src/compiler/optimization.cpp:842-931 | No operation is left over two float literals. |
| Thorough.ProductsReduced | src/compiler/optimization.cpp:451-604 | No product or quotient of a variable and 2, 4, ..., 256 is left. |
| Thorough.StoreCopied | src/compiler/optimization.cpp:364-449 | A store met by its own load becomes a copy, whatever follows. |
| Thorough.EachPassRuns | src/compiler/optimization.cpp:89-207 | A block that one pass alone would change comes out, from that pass's level on, as the pass leaves it: no pass is skipped. |
| Thorough.BlockThorough | src/compiler/optimization.cpp:89-207 | What is not left in a block after the optimizer, level by level. |
| Pipeline.OptimizeBlockRuns | src/compiler/optimization.cpp:89-207 | For each level 0-3 and each run whose quotients the shifts compute, a block and its optimized form return the same value and memory, if at level 3 the reduced block pairs its stores and loads cleanly, which Ready.RoutineReady proves of emitted blocks. |
| Pipeline.OptimizeBlockRefines | src/compiler/optimization.cpp:89-207 | If the quotients are right on all runs, the optimized block refines the block. |
| Shape.OptimizeBlockKeeps | src/compiler/optimization.cpp:89-207 | No pass loses a label, adds a jump, a call or a local, moves the return, or makes a local read before it is written. |
| Accessors.CallStraight | src/compiler/optimization.h:253-321 | Calling a straight-line body is pushing a frame, running it and popping the frame. |
| Accessors.CallWithParameter | src/compiler/optimization.h:293-316 | A setter's or printer's call runs its last two steps with instance and parameter as the frame had them. |
| Accessors.AccessorActs | src/compiler/optimization.h:253-321 | Every getter, constant, printer and setter acts on all machines as the instructions put in place of its call. |
| Accessors.InlineSettersGettersRefines | src/compiler/optimization.cpp:315-361 | A block with its accessor calls replaced reaches the outcomes of the block, one call level less deep. |
| Inlining.InlinedRun | src/compiler/optimization.cpp:618-723 | A callee that writes locals before reading them runs inlined (shifted slots, saved instance, no final return) exactly as in a frame of its own, loops and nested calls included. |
| InlineMethod.InlineSimulates | src/compiler/optimization.cpp:618-723 | A whole block with any number of calls inlined keeps the caller's own slots, result and shared memory. |
| InlineMethod.InlineCallsRefines | src/compiler/optimization.cpp:618-723 | Under the compiler's checks plus write-before-read, closed jumps, disjoint labels and function variables below the offset, a caller cannot tell the inlined block from the original. |
| InlineMethod.RelocatedSlotsFit | src/compiler/optimization.h:103-216 | The memory bound of the inlining test keeps every relocated slot, a trailing double included, inside a frame. |
| InlineMethod.LastLocalNamed | src/compiler/optimization.h:223-247 | The offset is a local slot one of the six integer and float opcodes names; function variables do not count. |
| InlineLimits.CallerFunctionExact | src/compiler/optimization.h:223-247 | In a two-method program, a caller's function variable at any slot beyond its last counted local: inlining a storing callee is right if and only if neither the saved instance nor the moved slot falls on its two words. |
| InlineLimits.CalleeFunctionExact | src/compiler/optimization.cpp:662-707 | In a two-method program, a callee's function variable is copied without being moved: right if and only if its two words miss the caller's local. |
| SharedSlots.SharedSlotExact | src/compiler/optimization.cpp:642-668 | A callee that assigns its local x, then one that returns its local y unassigned, both run through the optimizer: no call changes if and only if the second one's fresh local holds what it finds in the shared slots, the value written if x = y. |
| SharedSlots.ClearedFramesExact | src/vm/interpreter.h:101-154 | In frames cleared alike, inlining the two is right if and only if x != y or the value written is the cleared word. |
| InlineSpace.InlinedSpaceExact | src/compiler/optimization.cpp:646-650 | However many calls are inlined, the space InlineMethod declares holds the block it makes if and only if it holds the caller's last local, two words, the instance and the largest callee. |
| InlineSpace.EnoughSpace | src/compiler/optimization.cpp:646-650 | If every space holds its own words and the caller's covers its last local, it is enough for any number of callees. |
| InlineSpace.TightCalleeExact | src/compiler/optimization.cpp:646-650 | For one callee that fills its space: enough if and only if the caller's space covers its last local. |
| InlineSpace.NoLocalsOverflow | src/compiler/optimization.cpp:646-650 | A caller without locals: the method after inlining declares one word too little. |
| Programs.ReplacedCoTerminate | src/compiler/optimization.cpp:36-63 | Replacing one method by a refinement leaves every call of the whole program, recursion included, with the outcomes it had, both ways. |
| Pipeline.NothingInlinedInto | src/compiler/optimization.cpp:618-723 | A method into which nothing can be inlined stays as it is, space included. |
| Pipeline.PassCoTerminates | src/compiler/optimization.cpp:36-87 | Optimizing or inlining into one method keeps the outcomes of all calls of the program. |
| Pipeline.OptimizerCoTerminates | src/compiler/optimization.cpp:36-87 | The whole optimizer, class by class and pass by pass at any level, keeps the outcomes of all calls, if each pass finds its program ready. |
| TwiceInlined.LabelTwiceDiverges | src/compiler/optimization.cpp:624-650 | A method with a label and a jump comes to a caller directly and through another callee: run through the optimizer's own schedule, its label stands there twice, and a call that returned does not return. |
| Untouched.InertKept | src/compiler/optimization.cpp:89-207 | A block without foldable operators, accessor calls, jumps to the next label or neighbouring loads and stores is left as it is at every level. |
| LabelCopies.UniqueExactly | src/compiler/optimization.cpp:618-723 | After the optimizer a method's labels are unique if and only if no method with a label came to it twice. |
| InlineShape.FitOptimized | src/compiler/optimization.cpp:89-207 | Optimizing keeps what inlining asks of a callee: a return at the end, closed jumps, covered slots, writes before reads. |
| InlineShape.FitInlined | src/compiler/optimization.cpp:618-723 | Inlining fit callees into a fit method leaves it fit. |
| Stages.ProperCoTerminates | src/compiler/optimization.cpp:36-87 | The optimizer keeps the outcomes of all calls under conditions on the original program alone, instance, class and float variables included: labels and returns in order, writes before reads where a method may be taken in, no function variables where methods mix, no label twice along its calls; and right quotients and copies of each block in the programs the passes come to. |
| Optimizer.ItermediateOptimizer.constructor | src/compiler/optimization.h:323-345 | The level is the command line's; one label is kept back for inlining. |
| Optimizer.ItermediateOptimizer.CleanJumps | src/compiler/optimization.cpp:267-313 | The loop over the working stack produces the pass proved above. |
| Optimizer.ItermediateOptimizer.RemoveUselessInstructions | src/compiler/optimization.cpp:209-265 | The same, without a final flush. |
| Optimizer.ItermediateOptimizer.InlineSettersGetters | src/compiler/optimization.cpp:315-361 | Every inlinable call is replaced by the accessor's own instructions, all else in order. |
| Optimizer.ItermediateOptimizer.CalculateIntFold | src/compiler/optimization.cpp:769-840 | Two literals become one value, the younger being the left operand; fewer are flushed with the operator; division faults are reported. |
| Optimizer.ItermediateOptimizer.FoldIntConstants | src/compiler/optimization.cpp:725-767 | The loop is the folding proved above, and fails exactly when that does. |
| Optimizer.ItermediateOptimizer.FoldFloatConstants | src/compiler/optimization.cpp:842-880 | The loop is the float folding proved above. |
| Optimizer.ItermediateOptimizer.StrengthReduction | src/compiler/optimization.cpp:451-490 | The loop is the reduction proved above. |
| Optimizer.ItermediateOptimizer.InstructionReplacement | src/compiler/optimization.cpp:364-417 | The prologue stores come out unchanged and the rest is the replacement proved above. |
| Optimizer.ItermediateOptimizer.OptimizeMethod | src/compiler/optimization.cpp:89-207 | The passes of the level, in order; None when folding faults. |
| Optimizer.ItermediateOptimizer.CanInlineMethod | src/compiler/optimization.h:103-216 | The scan accepts exactly another method of the same class, not inlined before, within the memory bound, with local variables only, no label in use, at most one return and no special instruction. |
| Optimizer.ItermediateOptimizer.GetLastLocalOffset | src/compiler/optimization.h:223-247 | The scan finds the largest local slot named. |
| Optimizer.ItermediateOptimizer.InlineMethod | src/compiler/optimization.cpp:618-723 | Code and space of the method after inlining every acceptable call once. |
| Optimizer.ItermediateOptimizer.Optimize | src/compiler/optimization.cpp:36-87 | The walk over classes and methods is the schedule of passes; if each is ready, the program it leaves co-terminates with the one it got. |
| Discipline.ExprDisciplined | src/compiler/intermediate.cpp:2547-2569 | Expression code places only fresh labels, each once, targets only those, and never branches to the next instruction. |
| StmtDiscipline.DivideIds | src/compiler/intermediate.cpp:63-99 | The nodes of a select tree are numbered apart. |
| StmtDiscipline.DivideTests | src/compiler/intermediate.cpp:63-99 | The tree tests only values of the select. |
| StmtDiscipline.StmtBefore | src/compiler/intermediate.cpp:704-781 | Statement code put in front of disciplined code stays disciplined: labels fresh and unique, open jumps only to the break label. |
| StmtDiscipline.SelectBefore | src/compiler/intermediate.cpp:104-190 | The same for tree, cases and other of a select. |
| Compiler.RoutineDisciplined | src/compiler/intermediate.h:453-457 | In an emitted method every jump target is placed exactly once in that method, both kinds of labels stay apart, and no jump directly precedes its own label. |
| Compiler.ProgramLabels | src/compiler/intermediate.h:453-457 | No label number is placed in two methods. |
| Compiler.FineUnique | src/compiler/optimization.cpp:282-287 | Emitted code meets what jump cleaning asks for, so only unconditional jumps are deleted. |
| ExprMeaning.ExprComputes | src/compiler/intermediate.cpp:2122-2268 | For every expression the code leaves the source value on top of an unchanged stack, with the same effects and faults; only slot 0 may change. |
| ExprMeaning.CalculatedComputes | src/compiler/intermediate.cpp:2955-3146 | Right first, left on top: operators find their operands in source order. |
| ExprMeaning.LogicComputes | src/compiler/intermediate.cpp:2906-2950 | Short-circuit code evaluates the second operand exactly when the first does not decide. |
| ExprMeaning.CondComputes | src/compiler/intermediate.cpp:2547-2569 | A conditional evaluates exactly the chosen branch. |
| SelectMeaning.DivideFinds | src/compiler/intermediate.cpp:63-99 | Over strictly sorted values the tree finds a value if and only if it is one of them; no range smaller than two or outside the array is met. |
| SelectMeaning.DivideBalanced | src/compiler/intermediate.cpp:63-99 | Every dispatch over n values visits at most floor(log2 n) + 1 nodes. |
| SelectMeaning.TreeDispatches | src/compiler/intermediate.cpp:138-190 | For every value of a pure selector the comparisons reach that value's label, or the default. |
| StmtMeaning.StmtFollows | src/compiler/intermediate.cpp:704-781 | For every nest of statements the code ends with the locals, memory, exit point, fault or exhaustion the source semantics gives; the stack is restored and break lands behind the innermost loop. |
| StmtMeaning.SelectFollows | src/compiler/intermediate.cpp:104-190 | A select with two or more values runs exactly that value's statements, or other, or none. |
| StmtMeaning.SingleFollows | src/compiler/intermediate.cpp:1899-1941 | A select with one value compares once. |
| StmtMeaning.LoopFollows | src/compiler/intermediate.cpp:1977-2061 | while and for loops, round by round. |
| StmtMeaning.DoWhileFollows | src/compiler/intermediate.cpp:1947-1972 | do/while runs its body once more exactly while the test gives 1. |
| StmtMeaning.ChainFollows | src/compiler/intermediate.cpp:2065-2117 | if / else if / else chains run the first branch whose test holds. |
| Compiler.PrologueBinds | src/compiler/intermediate.cpp:637-667 | The prologue pops the arguments, last first, into the parameters. |
| Compiler.NoBreak | src/compiler/intermediate.cpp:759-763 | Outside a loop no statement is left by a break. |
| Source.Bound | src/compiler/intermediate.cpp:637-667 | Binding puts each argument into its parameter's slot and leaves the other slots. |
| SourceLaws.ForIsWhile | src/compiler/intermediate.cpp:2028-2061 | for (pre; test; update) body is pre; while (test) { body; update }, with every break, return, fault and endless run. |
| SourceLaws.SelectIsChain | src/compiler/intermediate.cpp:1892-1941 | A select over a pure selector is a chain of comparisons with its values, in order. |
| SourceLaws.OperationAssigns | src/compiler/intermediate.cpp:3357-3582 | x op= e is x := x op e, for variables of the method and of its instance. |
| SourceLaws.BranchesTaken | src/compiler/intermediate.cpp:2065-2117 | 1 takes the first branch of a conditional and of an if, 0 the second. |
| SourceLaws.CountsDown | src/compiler/intermediate.cpp:1977-2005 | A while loop that counts a variable down takes as many rounds as it holds and leaves 0. |
| SourceLaws.CallSubtracts | src/compiler/intermediate.cpp:3676-3898 | A call of a method that returns the difference of its parameters stores the first argument less the second. |
| SourceLaws.InstanceReturned | src/compiler/intermediate.cpp:595-693 | A constructor returns its instance. |
| StmtMeaning.CallFollows | src/compiler/intermediate.cpp:787-1027 | A call statement evaluates its arguments in order, reaches the method the instance binds, and stores, drops or misses the value as its destination says. |
| Compiler.RoutineFollows | src/compiler/intermediate.cpp:595-693 | The block of a method returns, faults or goes on exactly as the source method does, if the methods it calls do so. |
| Compiler.ProgramRuns | src/compiler/intermediate.cpp:506-693 | Whole programs: every emitted method, calls and recursion included, returns, faults or goes on exactly as its source, for all arguments, memories, fuels and depths. |
| WellCalled.InvokeAnswers | src/compiler/context.cpp:2695-2726 | In a program the analyzer accepts no call goes wrong, at any depth, and each leaves a word exactly if its method is declared to. |
| DoWhileTests.DoWhileExact | src/compiler/intermediate.cpp:1947-1972 | Over all tests, accepted or not: asking for 1 runs as asking for anything but 0 if and only if every test the loop comes to gives 0 or 1. |
| Booleans.BoolValue | src/compiler/context.cpp:2662-2667 | Whatever the analyzer accepts as a test, comparisons, the two logical operators, conditionals, Bool literals and Bool variables, gives 0 or 1 when the Bool variables hold 0 or 1. |
| Booleans.ExecBools | src/compiler/context.cpp:2731-2791 | Statements that change Bool variables by assignments, *= and /= and by calls leave 0 or 1 in them, and Bool methods return 0 or 1, through all loops and calls. |
| Booleans.KeepsBoolsExact | src/compiler/context.cpp:877-882 | Of the four operation assignments, which the analyzer lets through on Bool variables, exactly *= and /= give a Bool for all Bools. |
| Booleans.AcceptedDoWhile | src/compiler/intermediate.cpp:1947-1972 | In a program the analyzer accepts in which no Bool is changed by += or -=, every do/while runs as if it asked for anything but 0. |
| Booleans.AddedToTrue | src/compiler/context.cpp:877-882 | An accepted program with true added to a true Bool: its do/while ends at once, where one asking for anything but 0 never ends. |
| Assigned.RoutineWrites | src/compiler/intermediate.cpp:595-693 | If on every path the source assigns its variables before it reads them, the emitted block writes every local before it reads it. |
| Ready.RoutineReady | src/compiler/intermediate.cpp:595-693 | Emitted methods meet the preconditions of every optimizer level, whatever accessors are put in place of their calls. |
| Ready.ReducedFed | src/compiler/optimization.cpp:89-207 | Through all passes before the copies, no load from an instance comes directly behind a store. |
| Ready.WithoutDivision | src/compiler/optimization.cpp:492-604 | Emitted, inlined and folded, a method without a division, and without fields or without products, has only products of locals to reduce. |
| Ready.OptimizedRoutineRuns | src/compiler/optimization.cpp:89-207 | Source to optimized bytecode: at every level the optimized method, in a program of emitted ones, returns, faults or goes on as its source, wherever the run meets quotients the shifts compute. |
| CompiledProgram.EmittedProgramProper | src/compiler/intermediate.cpp:506-693 | Emitted programs, calls included, meet everything the optimizer asks of an original program and of its blocks in turn. |
| CompiledProgram.UndividedRight | src/compiler/optimization.cpp:492-604 | Programs whose source divides nowhere, and has no fields or no products, meet the condition on quotients at every level and under every sequence of passes. |
| CompiledProgram.AccessorsRecognized | src/compiler/optimization.h:253-321 | A method that returns a variable of its instance, and one that sets it, are emitted as the patterns the optimizer puts in place of calls. |
| CompiledProgram.CompiledProgramCoTerminates | src/compiler/optimization.cpp:36-87 | An emitted program with calls, optimized and inlined class by class at any level, keeps the outcomes of all calls; of the programs in between only the quotients are asked to be right, each block in turn. |
| CompiledProgram.OptimizedProgramAnswers | src/compiler/optimization.cpp:36-87 | From source to optimized program: in an accepted program every call of what the optimizer left comes to what the source method comes to, and the other way round. |
| SampleProgram.SampleAnswers | src/compiler/optimization.cpp:36-87 | A program with a call and an accessor meets all of these conditions at every level, under every host, and so answers as its source. |
| Faultless.NeverFaults | src/compiler/optimization.cpp:769-840 | Whatever passes are run over it, a program without integer divisions and remainders is not refused by the optimizer. |
| Emitter.IntermediateEmitter.constructor | src/compiler/intermediate.h:449-458 | Conditional labels count from 0, unconditional ones from 2^30. |
| Emitter.IntermediateEmitter.EmitExpression | src/compiler/intermediate.cpp:2122-2268 | Appends the code proved above and advances both counters as its labels require. |
| Emitter.IntermediateEmitter.EmitAndOr | src/compiler/intermediate.cpp:2906-2950 | Appends the short-circuit code up to the joining label. |
| Emitter.IntermediateEmitter.EmitConditional | src/compiler/intermediate.cpp:2547-2569 | Appends the two-way code with its own labels. |
| Emitter.IntermediateEmitter.Divide | src/compiler/intermediate.cpp:63-99 | Builds the balanced tree, bumping the conditional counter once a node. |
| Emitter.IntermediateEmitter.EmitTree | src/compiler/intermediate.cpp:138-190 | Appends the comparisons of the tree, node by node. |
| Emitter.IntermediateEmitter.LabelValues | src/compiler/intermediate.cpp:38-58 | Case values get consecutive fresh labels. |
| Emitter.IntermediateEmitter.EmitSelect | src/compiler/intermediate.cpp:1892-1942 | Appends the whole select; break labels as before. |
| Emitter.IntermediateEmitter.EmitIf | src/compiler/intermediate.cpp:2065-2117 | Appends the chain; break labels as before. |
| Emitter.IntermediateEmitter.EmitWhile | src/compiler/intermediate.cpp:1977-2001 | Appends the loop; the break label is pushed and popped. |
| Emitter.IntermediateEmitter.EmitDoWhile | src/compiler/intermediate.cpp:1947-1972 | Appends the loop; the break label is pushed and popped. |
| Emitter.IntermediateEmitter.EmitFor | src/compiler/intermediate.cpp:2028-2061 | Appends the loop; the break label is pushed and popped. |
| Emitter.IntermediateEmitter.EmitAssignment | src/compiler/intermediate.cpp:3357-3578 | Appends store or operate-and-store code for local integers. |
| Emitter.IntermediateEmitter.EmitField | src/compiler/intermediate.cpp:3302-3320 | The instance, then the load from it. |
| Emitter.IntermediateEmitter.EmitFieldAssignment | src/compiler/intermediate.cpp:3468-3573 | Value, for an operation the old value and the operator, then the instance and the store. |
| Emitter.IntermediateEmitter.EmitMethodCallParameters | src/compiler/intermediate.cpp:3595-3671 | The arguments in order, each as its expression. |
| Emitter.IntermediateEmitter.EmitMethodCallStatement | src/compiler/intermediate.cpp:787-1027 | Arguments, instance, call, and a store, a POP_INT or nothing for the value. |
| Emitter.IntermediateEmitter.EmitStatement | src/compiler/intermediate.cpp:704-781 | Any statement: appended code, new counters, balanced break labels. |
| Emitter.IntermediateEmitter.EmitMethod | src/compiler/intermediate.cpp:595-693 | One block: prologue, statements, epilogue. |
| Emitter.IntermediateEmitter.EmitClass | src/compiler/intermediate.cpp:506-590 | Counters run on from method to method. |
| Logic.Parser.ParseLogic | src/compiler/parser.cpp:2127-2180 | The token cursor and the swapped operands come to the right-nested chain. |
| Logic.ParsedNests | src/compiler/parser.cpp:2127-2180 | Every chain of the two logical operators, negations included, nests to the right, "and" binding no tighter than "or" and "not" about one operand. |
| Logic.NestStops | src/compiler/parser.cpp:2127-2180 | Operands are evaluated from the left, exactly up to the first that decides, which gives the 0/1 value. |
| Logic.NestIsFormula | src/compiler/parser.cpp:2127-2180 | Over boolean operands the chain has the truth value of its right-nested formula. |
| Logic.NotNegates | src/compiler/parser.cpp:2139-2145 | Over a Bool operand with value x the parsed "not" has the value 1 - x, and its effects and faults. |
| Logic.ParsedFormula | src/compiler/parser.cpp:2127-2180 | From tokens to truth: a written chain of Bool operands, some negated, evaluates to the value of its right-nested formula. |
| Logic.ChainCodeRuns | src/compiler/intermediate.cpp:2906-2950 | The emitted code evaluates just those operands and changes no local but slot 0. |
| Linking.Linker.SearchClassLibraries | src/compiler/linker.h:1091-1100 | The first class of that name. |
| Linking.Linker.ResloveExternalClass | src/compiler/linker.cpp:42-77 | Everything a class leads to is marked, nothing else, and the recursion ends because uncalled classes decrease. |
| Linking.Linker.ResloveExternalClasses | src/compiler/linker.cpp:79-93 | Marks the least superset of the called classes closed under NEW, CAST and MTHD references; fails if and only if no closed set exists. |
| Linking.Linker.AssignIds | src/compiler/intermediate.cpp:196-214 | Called classes are numbered by their place among the emitted ones. |
| Linking.Linker.RelinkMethod | src/compiler/linker.cpp:95-196 | Symbolic instructions are rewritten in place; fails exactly on a missing name. |
| Linking.Linker.ResolveExternalMethodCalls | src/compiler/linker.cpp:95-196 | Every method of every class is rewritten, nothing else changes. |
| Linking.EmittedAt | src/compiler/intermediate.cpp:264-282 | A called class stands in the emitted program at the place its id says. |
| Linking.LinkedReferences | src/compiler/linker.cpp:95-196 | In an emitted class every rewritten NEW, CAST and MTHD instruction carries the id of an emitted class of the right name and of its method. |
| Linking.LinkedFunction | src/compiler/linker.cpp:163-185 | A function reference becomes the ids of the method and class it names, its placeholder taking the second. |
| Linking.OthersKept | src/compiler/linker.cpp:95-196 | Nothing but symbolic instructions and placeholders is changed. |
| Linking.FunctionClassEmitted | src/compiler/linker.cpp:163-185 | A class that was called for some reason is emitted at the place a function reference's id says; one that was not, and whose name is its own, is not in the program at all. |
| Linking.LinkedThrough | src/compiler/linker.cpp:42-196 | One instruction through closure, numbering and rewriting: a reference names an emitted class of the right name, a function reference the method and the class it names, and anything else is unchanged. |
| Linking.Linker.Link | src/compiler/linker.cpp:42-196 | Closure, numbering and rewriting in one run: it succeeds if and only if some closed set holds the called classes and every reference names a class and method some library has; the called classes are then the least closed superset, numbered in order, and every instruction in them is rewritten as it should be. |
| Linking.RelinkedExact | src/compiler/linker.cpp:42-196 | Rewriting a method fails exactly at a reference no library answers. |
| Linking.DanglingFunction | src/compiler/linker.cpp:42-77 | A program in which a function reference is relinked to a class that is not emitted. |
| Strings.MergeAddsNoDuplicates | src/compiler/intermediate.cpp:298-389 | Merging adds no value equal to one already there. |
| Strings.Found | src/compiler/intermediate.cpp:391-444 | The asserted search succeeds if and only if the constant is equal to itself (NaN arrays are not). |
| Strings.PoolKeepsProgram | src/compiler/intermediate.cpp:351-389 | Program constants keep their indices. |
| Strings.Search | src/compiler/intermediate.cpp:391-444 | The first equal entry. |
| Strings.MergeInto | src/compiler/intermediate.cpp:298-389 | The loop is the merge. |
| Strings.EmitPool | src/compiler/intermediate.cpp:287-450 | Every registered copy instruction ends up pointing at an entry equal to the constant it was registered for; one without an entry keeps its operand. |
| Strings.Registry.Register | src/compiler/linker.cpp:718-737 | A copy instruction is registered with the constant its operand names, or refused. |
| Strings.FirstOperand | src/compiler/linker.h:70-106 | Of the operands of a loaded instruction, the one a trap or a merge looks at is the first. |
| Strings.LibraryStrings.LoadStatements | src/compiler/linker.cpp:718-737 | Loading registers exactly the instructions two before each TRAP_RTRN that copies a constant, each in the pool the trap number selects, with the constant its operand names; it succeeds if and only if every such operand is an index of that pool. |
| Strings.MergePools | src/compiler/intermediate.cpp:287-450 | Over all libraries: the program's pool is a prefix of the result, and each registered instruction points at its own library's constant. |
| Strings.LoadAndMerge | src/compiler/linker.cpp:718-737 | Loading and merging together, for all three kinds: the merged pool at the new operand is the library's own pool at the old one, and every other instruction keeps its operand. |
| FileFormat.FormatsAgree | src/shared/instrs.h:35-162 | The linker reads an opcode as the compiler writes it if and only if it is no machine-only opcode and not COPY_FUNC_VAR. |
| FileText.FormatText | src/compiler/target.h:196-277 | What stands behind each of the 105 opcodes, as a table. |
| FileText.LowestFirst | src/compiler/target.h:74-76 | A word is the four bytes whose sum, the lowest first, is the word modulo 2^32. |
| FileText.InstrText | src/compiler/target.h:196-277 | One instruction of each format, byte by byte. |
| FileText.MethodText | src/compiler/target.h:963-984 | A method with a different value in every field, byte by byte. |
| FileText.ClassText | src/compiler/target.h:1153-1190 | A class, byte by byte. |
| FileText.LibraryText | src/compiler/target.h:1426-1500 | A library with pools, a bundle and an enum, byte by byte, version and magic number first. |
| RoundTrip.StringTrip | src/compiler/linker.h:793-806 | With whatever conversion and whatever follows: a text comes back, its bytes consumed exactly, if and only if its bytes are decoded to it and their number fits the signed word in front. |
| RoundTrip.CharTrip | src/compiler/linker.h:774-791 | A character comes back if and only if it is 0, or its text does and has bytes. |
| Utf8.TextExact | src/shared/sys.h:144-274 | With UTF-8 a text comes back if and only if each code point is a scalar value other than 0 and the bytes fit. |
| Utf8.CharExact | src/shared/sys.h:208-222 | With UTF-8 a character comes back if and only if it is 0 or a scalar value. |
| Utf8.EncodedText | src/shared/sys.h:226-274 | A code point of one, two, three and four bytes, byte by byte. |
| RoundTrip.InstrTrip | src/compiler/target.h:196-277 | Every instruction whose texts the conversion gives back comes back from its bytes, consuming them exactly. |
| RoundTrip.StatementsTrip | src/compiler/linker.cpp:455-996 | Instruction lists whose texts do come back in order, each LIB_FUNC_DEF with one LOAD_INT_LIT -1 behind it. |
| RoundTrip.LoadedPlaced | src/compiler/linker.cpp:630-640 | Whatever bytes statements are loaded from: behind each LIB_FUNC_DEF stands LOAD_INT_LIT -1, on its line. |
| RoundTrip.StatementsPlaced | src/compiler/linker.cpp:455-996 | Written statements come back with one instruction more for each LIB_FUNC_DEF; without those they are the written ones, in order. |
| Loading.LoadedHeld | src/compiler/linker.cpp:345-450 | Every method of every class loaded from any file has the placeholders relinking asks for. |
| Loading.SymbolicText | src/compiler/linker.cpp:598-641 | The linker's four kinds of references and integer literals, with what each carries; nothing else is taken for one. |
| RoundTrip.FunctionCopyUnreadable | src/compiler/linker.cpp:984-991 | A written COPY_FUNC_VAR cannot be loaded. |
| RoundTrip.MethodTrip | src/compiler/target.h:963-984 | Methods whose texts do come back, entry names, which need not be convertible then, lost without debug information. |
| RoundTrip.ClassTrip | src/compiler/target.h:1153-1190 | Classes whose texts do come back with all their methods. |
| RoundTrip.EnumTrip | src/compiler/target.h:1287-1295 | Enums whose names do come back. |
| RoundTrip.LibraryTrip | src/compiler/target.h:1426-1500 | Every library, debug or not, whose texts the conversion gives back comes back from its bytes whatever follows them. |
| Utf8.SampleTrip | src/compiler/target.h:1426-1500 | A library with pools, an enum and a debug class whose method holds literals, names and references, with texts of one, three and four bytes a character, is one of these. |
| LibraryFile.TargetEmitter.WriteString | src/compiler/target.h:60-68 | Length and bytes of the encoded text. |
| LibraryFile.TargetEmitter.WriteChar | src/compiler/target.h:78-93 | Character 0 is a length of 0. |
| LibraryFile.TargetEmitter.WriteInstruction | src/compiler/target.h:196-277 | The bytes of an instruction. |
| LibraryFile.TargetEmitter.WriteMethod | src/compiler/target.h:963-984 | The bytes of a method. |
| LibraryFile.TargetEmitter.WriteClass | src/compiler/target.h:1153-1190 | The bytes of a class. |
| LibraryFile.TargetEmitter.WriteEnum | src/compiler/target.h:1287-1295 | The bytes of an enum. |
| LibraryFile.TargetEmitter.Write | src/compiler/target.h:1426-1500 | The bytes of the library file. |
| LibraryFile.Library.ReadInt | src/compiler/linker.h:760-765 | Four little-endian bytes, the cursor behind them. |
| LibraryFile.Library.LoadStatements | src/compiler/linker.cpp:455-996 | The loop reads up to the end mark and inserts placeholders. |
| LibraryFile.Library.LoadMethods | src/compiler/linker.cpp:409-450 | All methods, in order. |
| LibraryFile.Library.LoadClasses | src/compiler/linker.cpp:345-405 | All classes, in order. |
| LibraryFile.Library.LoadEnums | src/compiler/linker.cpp:322-340 | All enums, in order. |
| LibraryFile.Library.LoadFile | src/compiler/linker.cpp:232-317 | On the bytes of a library whose texts the conversion gives back the loader returns it and leaves nothing over; other versions and kinds are refused. |
| Signatures.SignatureTrip | src/compiler/linker.h:190-286 | Parsing the encoded parameters gives the same kinds, names and dimensions in order if and only if no function parameter returns an array. |
| Signatures.EncodingsDiffer | src/compiler/context.cpp:4111-4131 | Two types, functions of basic and class types among them, are written alike if and only if they are the same, up to which stars of a function type are its own. |
| Signatures.FunctionParametersTrip | src/compiler/context.cpp:4111-4122 | Between a function's parentheses every parameter stands, in order: the decoder finds their kinds, names and twice their dimensions. |
| Signatures.LettersText | src/compiler/tree.cpp:87-117 | The letters of the basic types. |
| Signatures.KindTrip | src/compiler/tree.cpp:87-168 | One encoded type is taken apart and the cursor left at its stars or comma. |
| Signatures.NestedFunctionCut | src/compiler/linker.h:238-253 | A function parameter that takes a function is cut at the wrong ~. |
| Signatures.LibraryMethod.ParseParameters | src/compiler/linker.h:190-286 | The cursor loop appends what the recursive decoder gives, and always ends. |
| Promotion.WidthsRight | src/compiler/intermediate.cpp:2955-3199 | The code of an accepted tree is stack-typed, leaving one value of its type, if and only if no integer-only operator has a float operand. |
| Promotion.CodeComputes | src/compiler/intermediate.cpp:2955-3199 | The code of every accepted tree leaves the value of the tree, told from the tree alone over any integer and float operations, converted where the parent asks, and faults exactly when it has none. |
| Promotion.TypesExact | src/compiler/context.cpp:2797-2944 | A tree is accepted if and only if no Bool stands beside a number or under another operator than == and <>, and no remainder mixes a float and an integer; its type is then told by its shape. |
| Promotion.BoolsDenoted | src/compiler/context.cpp:2845-2944 | A tree of Bool type has the value 0 or 1 if its Bool leaves and comparisons have. |
| Promotion.ArithmeticSound | src/compiler/intermediate.cpp:2955-3199 | Over + - * / and comparisons every float operation pops two doubles and every integer operation two words. |
| Promotion.OneConversionEach | src/compiler/intermediate.cpp:3155-3199 | Exactly one I2F for each mixed operation, on its integer side. |
| Promotion.IntegerOperationsOverFloats | src/compiler/context.cpp:2907-2944 | A shifted float and a remainder of two floats are accepted and give code that is not stack-typed. |
| Promotion.BaseAgrees | src/compiler/tree.h:536-550 | The base type used for conversion is the type of the expression, comparisons aside. |
| Promotion.Expression.SetEvalType | src/compiler/tree.h:540-550 | The base type is set once. |
| Promotion.Expression.AnalyzeCalculationCast | src/compiler/context.cpp:2951-3361 | The operand types, casts preferred, give the common type; exactly the integer side of a mixed pair is marked. |
| Promotion.Expression.CheckOperation | src/compiler/context.cpp:2845-2944 | Accepts exactly the operand types the operator is for. |
| Promotion.Expression.AnalyzeCalculation | src/compiler/context.cpp:2797-2944 | Accepts exactly the well-typed trees, completes every node, and changes nothing on a tree analyzed before. |
| Promotion.CalculationEmitter.EmitCast | src/compiler/intermediate.cpp:3155-3199 | A marked integer gets one I2F, a marked float nothing. |
| Promotion.CalculationEmitter.EmitCalculation | src/compiler/intermediate.cpp:2955-3146 | Right, left, operation chosen by the analyzed types, conversion. |

## Left out

- Passes.CleanJumpsRefines: asks for unique labels and no conditional jump before its own label, which `Compiler.FineUnique` proves of emitted code.
- Limits.CopyExact: the adjacent store and load of an instance it starts from is not one the emitter produces (`Ready.ReducedFed`).
- Pipeline.OptimizeBlockRefines: from level 2 on asks that every rewritten quotient meets a good operand on every run; `Pipeline.OptimizeBlockRuns` asks it of the run at hand, `CompiledProgram.UndividedRight` discharges it without divisions.
- InlineLimits.CallerFunctionExact: exact for one caller and one callee; for programs in general `FunctionsBelow` and `SlotsFit` are sufficient only, as is its companion for callees.
- Stages.ProperCoTerminates: function variables are excluded from methods that are inlined or inlined into; the conditions on quotients and copies are asked of every block in each program the given passes come to, on all its runs.
- CompiledProgram.CompiledProgramCoTerminates: a quotient that some machine gets wrong excludes the program even if no call meets that machine; `Ready.OptimizedRoutineRuns` is per run, for one method.
- Booleans.ExecBools: Bool locals, parameters and results; Bool fields and arrays are not among the Bool variables. Fresh frames are asked to hold 0 or 1 in Bool locals, as cleared ones do.
- InlineMethod.InlineCallsRefines: asks for disjoint labels, write-before-read callees and function variables out of the way, none of which the compiler checks; `CompiledProgram.CompiledProgramCoTerminates` derives them for emitted programs from the source and its calls.
- Bytecode.Run: DYN_MTHD_CALL and ASYNC_MTHD_CALL are opaque host effects, independent of the program, so the co-termination theorems say nothing of calls through function variables or of threads.
- Compiler.ProgramRuns: the source language has local integers, integer variables of the own instance, pure and effectful one-word expressions, and call statements on the own instance with integer arguments; calls inside larger expressions and on other instances are opaque effects.
- Emitter.IntermediateEmitter.EmitExpression: strings, arrays, floats and nested calls are one opaque effect each.
- Emitter.IntermediateEmitter.EmitMethodCallStatement: own-instance calls of program methods; new instances, arrays, enums, library and dynamic calls and call chains are not modelled.
- Emitter.IntermediateEmitter.EmitStatement: a declaration is the empty statement or its assignment; a simple statement (a call chained to an expression), system statements and critical sections are not modelled.
- CompiledProgram.OptimizedProgramAnswers: the source and the optimized program may need different depths of nested calls.
- StmtMeaning.SelectFollows: the selector of a select with two or more values is pure, since the emitter evaluates it again at every node; a select without cases is not modelled.
- Emitter.IntermediateEmitter.EmitAssignment: local integer targets; those of the own instance are in `Emitter.IntermediateEmitter.EmitFieldAssignment`; arrays, class variables, floats and strings are not part of the source language modelled.
- Emitter.IntermediateEmitter.Divide: the C++ order of evaluation of constructor arguments is unspecified; left to right is assumed, which only affects the numbering.
- Strings.LoadAndMerge: stated for one library; `Strings.MergePools` covers any number of libraries.
- LibraryFile.Library.LoadStatements: the instructions as values; the registration of copy instructions is in `Strings.LibraryStrings.LoadStatements`.
- RoundTrip.LibraryTrip: for any conversion of texts that gives back the texts of the library at hand (`Utf8` has one); methods of a class are a list, where the loader keeps them in a map by name.
- Utf8.TextExact: the conversion as on POSIX systems under a UTF-8 locale; on Windows wide strings hold UTF-16 units. A text the platform cannot convert stops the writer, where the model writes it up to that code point.
- Bytecode.NewFrame: the upper words of a recycled frame are a function of the shared state and of nothing else; that they also depend on what earlier calls left in the frame is not tracked.
- LibraryFile.Library.LoadFile: a read beyond the end of the buffer is a failure, where the loader does not check.
- Linking.Linker.AssignIds: ids when the program is itself a library, and the ids of the program's own classes, are not modelled.
- Linking.Linker.ResolveExternalMethodCalls: the rewritten class list is built and assigned at the end, where the original rewrites instruction by instruction.
- Signatures.LibraryMethod.ParseParameters: the text behind the last colon is an input; the return type's decoder repeats the same cases and is not modelled.
- Promotion.Expression.AnalyzeCalculation: numeric and boolean leaves without explicit casts; classes, enums, functions and Nil, and what the analyzer goes on to do after an error, are not modelled.
- The machine's 64-bit build: words are 32 bits wide throughout.
- Float arithmetic and conversions are uninterpreted functions; rounding is not modelled.
- Virtual methods are bound by an arbitrary function of the instance; they carry no code.
- Frame sizes computed from symbol tables (`CalculateEntrySpace`), and field layout across parents.
- System directives, traps, sockets, files, threads and critical sections: one opaque host effect.
- String literals and their concatenation heuristic, overload selection.
- The scanner, error messages, debug printing and memory management of the original.
