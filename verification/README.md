# The winds back end and front-end engines, verified

winds compiles a C and C++ subset to x86-64 assembly. This project models the parts of the compiler in
which a wrong step is hardest to see, and proves that they do what they are for.

**The back end** is one chain of meaning-preserving steps. A function body of the source language
(`Source`) is lowered to a three-address list (`Lowering`, `Lowerer`), optimised by nine passes that edit
the list in place, its virtual registers are mapped to seven machine registers and spill slots
(`Liveness`, `LinearScan`, `RegAlloc`), and each instruction becomes x86-64 code in a frame (`CodeGen`).
`IR` is a small-step machine for the list: a program counter, registers that may still be unwritten,
64-bit stack slots, and a trace of stores and calls. Memory, globals, callees and incoming arguments are
arbitrary functions of the history, so a theorem holds in every outside world. Following a pointer to where
nothing lies is a trap. `X86` is a machine for the emitted code which faults on anything undefined: an
unknown register, an unknown stack cell, a cell below the stack pointer, unknown flags, a misaligned call.

`LoweredForm` is the shape of lists that the passes rely on. Labels are unique and targets exist;
a register has one definition, or two constant ones, the arms of logical and and or; every use is reached
by way of a definition only; incoming arguments are stored first. `StmtForm` proves that lowering
establishes it, every pass is proved to keep it, and `Liveness` derives from it that no register is live
before it first occurs, which the interval construction needs. `Compiler` composes everything:

- `FunctionReturns`: if the source semantics of a body returns a value, so does its machine code, after
  the same stores and calls, for any number of optimisation rounds, with the caller's registers and stack
  restored.
- `FunctionRunsForever`: a body that never ends compiles to code that runs on forever without a fault and
  performs exactly the stores and calls of the body.

Both ask of the body only that it is never undefined, wherever its variables lie in the frame: that no
division traps and no pointer is followed to where nothing lies. Locals whose address is taken may be read
and written through pointers and by callees. `Placement` turns this into what the escape analysis of the
passes needs. If an access reached a slot whose address the list does not take, it would trap with that slot
elsewhere, so in a defined run there is no such access (`NeverTouched`), and each iteration leaves the
function defined (`IterationDefined`), although it may remove the instruction that takes an address.

The safety of the frame is proved, not assumed. `LocalSlots` shows that lowering names declared locals and
temporaries only, every pass names no slot that was not there, and `FrameSafe` and `FrameLaidOut` conclude
that locals, temporaries, the register save area of a variadic function, save slots and spill slots are
disjoint cells of one aligned frame.

Each pass is an imperative method over a class that holds the instruction list. Its contract equates the
new list with a specification function of the old one; lemmas about that function show that no run
changes. Preservation means: the same returned value and trace for runs that do not trap, and the same
divergence with the same trace. A pass that did nothing would be right in this sense, so each contract also
says, in terms of the two lists alone, what is rewritten and what is left out: which loads are forwarded,
which stores and instructions go, that every operation on constants is folded (`Folds`), that no copy is read
(`CopiesEnd`), where jumps go (`Aimed`), that exactly what control can come to remains (`OnlyReached`). In the
same way the register allocator leaves no register unused (`Economical`), a compare is fused with its branch
wherever it can be (`ComparesFuse`), and an instruction touches the frame only where it must (`NoDetour`).

All of this rests on a few shared definitions, which are compared with independent ones. `Arithmetic` says what
the operations on words mean in plain integers and single bits, and that `Alu` computes exactly that.
`SourceLaws` relates the constructs of the source language to one another. `CallSites` follows a lowered call to
its call instruction and finds every argument in the register or stack cell that the convention names.

**Arguments.** `Arguments` proves that caller and callee agree on the place of every 8-byte piece of every
parameter list (section 3.2.3 of the System V AMD64 ABI). `Handover` connects this with the machine, and
with `Variadic`, the traversal of unnamed arguments (section 3.5.7 of the same document): compiled code
never disturbs the save area that its prologue fills, so `va_arg` finds there what the caller passed.

**The front-end engines** are each compared with an independent meaning. The ten-level evaluator of `#if`
is compared with precedence climbing followed by constant evaluation, down to the spelling of literals
(`Literals`, `TwoParsers`, `PPEvaluator`, `ClimbingParser`; section 6.10.1 of ISO/IEC 9899:2011), and both
with the grammar of expressions and the meaning of its operators (`Grammar`, `ConstantMeaning`). The stack
of macro buffers, included files among them, yields recursive rescanning with the enclosing macros disabled
(`Macros`; section 6.10.3.4). The stack of conditional levels, shared by a file and the files it includes,
does what nested groups mean (`Conditionals`).

Results that are not plain confirmations:

- The evaluator of `#if` and the compiler's own may read the same literal differently: numbers with a leading
  zero, escapes, characters of 128 or more (`LiteralExact` has the exact condition). `010` is 8
  in `#if` and 10 in the compiler, and of `08` the evaluator of `#if` consumes the zero alone
  (`OctalDiffers`). `1 / 0` is 0 in `#if` and an error in the compiler (`DivisionByZeroDiffers`). On
  integer and character literals and operators the two agree throughout exactly if all literals are read
  alike and all operands are in range (`EvaluatorsAgree`).
- Constant propagation counts the pointer of a store as a definition of its register, so a constant that also
  points a store is propagated only if it is the result of a folded operation (`PointerNotFolded`).
- `va_start` counts parameters instead of register and stack cells, so it is right exactly for the
  parameter lists of `VaStartExact`, and wrong for those of `StartsWrong`.
- `va_arg` looks in general registers and on the stack only. It finds an unnamed argument exactly if none up
  to it travels in a vector register (`VaArgExact`). The check on its type lets floating types through,
  although its message says that only integers and pointers are supported; `FloatingMissed` is such a call.

`dafny verify dfyconfig.toml` checks the project.

## Model

The first 30 rows are the main results; the others follow in the order of the compiler.

| member | source | states |
|---|---|---|
| Compiler.FunctionReturns | src/ir.c:1629-1700 | for every function of the fragment, with or without unnamed arguments, any number of optimisation rounds and any call by the convention: if the source semantics returns a value, the machine code returns that value after the same stores and calls, with the caller's registers, stack pointer and return address restored; pointers may reach the locals whose addresses are taken, callees the shared ones; asked of the body is only that it is never undefined, wherever its variables lie |
| Compiler.FunctionRunsForever | src/ir.c:1433-1614 | under the same hypotheses a body that never ends compiles to machine code that runs on for every number of steps without a fault, and performs exactly the stores and calls that the body performs |
| CompiledRuns.KeepTogether | src/codegen_x86.c:84-589 | in every reachable state of every run each live value is in its assigned register or spill slot, and the save area holds what the prologue stored |
| CompiledRuns.CompiledReturns | src/codegen_x86.c:84-589 | whenever the IR returns, the compiled function returns the same value after the same stores and calls, the caller's state restored |
| CompiledRuns.CompiledRunsOn | src/codegen_x86.c:84-589 | while the IR runs on, the compiled function never faults: it reads no unknown register or cell, stays in its frame and is aligned at every call |
| CompiledRuns.CompiledPerforms | src/codegen_x86.c:84-589 | a run without end performs the same stores and calls on both sides |
| CallSites.LoweredCallReached | src/codegen_x86.c:479-512 | wherever the machine code of a function stands before a call of a function by name, after any number of optimisation rounds, it comes to the call instruction with the i-th argument in rdi, rsi, rdx, rcx, r8, r9 or its cell at the stack pointer, the stack aligned and al zero |
| Placement.PipelinePreserves | src/opt.c:1362-1401 | for code of lowered form that does not trap wherever its slots lie, and any number of iterations: the result has exactly the runs of the original, returned value, trace and divergence, and again does not trap; pointers may reach any cell of the frame, callees see and change any set of slots |
| ConstProp.ConstantPropagation | src/opt.c:73-268 | the pass with its register and 64-entry stack tables computes the specified list; and on code with single definitions exactly the operands that are known constants stand as constants, every operation on two constants is its value unless it divides by zero, and a load from a slot is a constant exactly if the last store to it was one among the first 64 slots |
| StmtMeaning.StmtRuns | src/ir.c:1433-1614 | for every statement and limit on iterations: the emitted code ends in the same store and control outcome, break, continue and return included |
| ExprMeaning.ExprRuns | src/ir.c:419-606 | for every expression, site and state: the emitted code ends in the store and value of the source semantics, or traps where it is undefined, and changes no earlier register |
| FunctionMeaning.FunctionRuns | src/ir.c:1629-1700 | the lowered function does what its body does for every limit: same value, same store, 0 when the body falls off its end |
| FunctionMeaning.FunctionRunsOn | src/ir.c:1433-1614 | a body that times out for every limit lowers to code that runs forever and performs exactly the stores and calls of the body |
| StmtForm.FunctionHasForm | src/ir.c:1629-1700 | lowering any function yields the form that every pass relies on, with registers numbered from 1 below the function's register count |
| Liveness.IntervalsCoverLiveness | src/regalloc.c:164-189 | at the fixpoint, if no register is live before it first occurs, every index where one is live lies in its interval |
| LinearScan.AssignmentSafe | src/regalloc.c:208-288 | overlapping intervals never share a register, for every order sorted by start |
| RegAlloc.Run | src/regalloc.c:84-317 | the whole allocation meets every requirement of the code generator, for any instruction list, and is economical: intervals reach from the first occurrence to the last or the least extension over loops, a register goes without only if all it could have are held, r10 and r11 come first, and only registers in use are saved |
| Arguments.CallerCalleeAgree | src/ir.c:1647-1683 | for every list of integer, floating and by-value object parameters, with or without a hidden object, the caller's register or stack cell of each 8-byte piece is the one the callee reads |
| Handover.ArgumentsEnter | src/codegen_x86.c:479-512 | what the machine takes as the arguments of a call is what a compiled callee finds at its entry, for every list of integer, floating and by-value object parameters |
| Handover.UnnamedFound | src/codegen_x86.c:458-512 | from the call in the caller's machine to the i-th `va_arg` of the callee, at any point of its run: it finds the i-th unnamed argument if the named parameters take one cell each and none up to it travels in a vector register |
| Variadic.VaStartExact | src/codegen_x86.c:471-473 | for every parameter list: `va_start` starts at the first unnamed argument if and only if the named parameters take as many cells as there are parameters, and none on the stack while a general register is left |
| Variadic.VaArgExact | src/codegen_x86.c:459-469 | the i-th `va_arg` looks where the caller put the i-th unnamed argument if and only if none of the unnamed arguments up to it travels in a vector register |
| TwoParsers.EvaluatorsAgree | src/lexer.c:1044-1237 | on every token string where the parser finds an expression: the ladder consumes the same tokens and both evaluators give every literal and every subexpression the same value if and only if all literals are ones that both read alike, the evaluator knows the prefix operators, no divisor is zero, INT64_MIN / -1 does not occur and shift counts are in range; the value of the whole is then the same |
| Literals.LiteralExact | src/lexer.c:937-955 | for every integer and character literal: the evaluator of `#if` reads all of it as the number that the scanner reads if and only if it has no leading zero or nothing but one octal digit behind the zeros, or is a character or escape below 128 that is no octal escape other than a zero and none of `\a \b \f \r \v \x` |
| Grammar.ParserExact | src/parser.c:1552-1581 | the parser takes exactly the token strings that the C grammar derives as an expression, and its tree is the derived one; there is no other |
| Arithmetic.AluExact | src/opt.c:230-250 | the result of each of the sixteen operations, in plain integers and single bits: sums modulo 2^64, quotients cut toward zero with a remainder that has the sign of the dividend, bit by bit, shifts of a sign that goes on for ever, 1 or 0 for comparisons; none only for a zero divisor and INT64_MIN / -1 |
| PPEvaluator.Condition | src/lexer.c:1239-1245 | for every text that spells an expression of the C grammar, however its tokens are spaced, with literals read to their end: the value is what the derived tree means in plain integers and bits, `/` and `%` included; where both evaluators agree it is the one the compiler would compute; and otherwise that of the tree the ladder builds |
| Macros.Scan | src/lexer.c:1899-1909 | scanning with the buffer stack yields exactly the recursive expansion with the enclosing macros disabled; only a table of 128 macros or more can exhaust the buffers |
| Conditionals.DirectivesMatchNesting | src/lexer.c:1270-1382 | for every sequence of lines, balanced or not, with files included at any depth: the run keeps the text, evaluates the conditions and reports the errors that the nested groups mean, all levels closed at the end, if and only if no nesting limit is reported; none is when the nesting fits |
| Conditionals.Preprocess | src/lexer.c:1270-1382 | what preprocessing keeps, evaluates and reports is what the nested groups mean; and wherever the run stands in kept text, in any file: `#ifdef` keeps its first line if the macro is defined then and the `#else` line if not, `#ifndef` the other way round, `#if` by its condition |
| Compiler.FrameSafe | src/ir.c:419-446 | the slots of a lowered function, `?:` temporaries included, are pairwise disjoint 8-byte cells inside the local area and outside the register save area |
| Compiler.FrameLaidOut | src/codegen_x86.c:84-90 | in optimised code every slot is an aligned cell of the local area, apart from the register save area, every save slot and every spill slot, all inside a frame of a multiple of 16 bytes |
| Compiler.OptimisedReturns | src/opt.c:1362-1401 | whatever defined IR code of lowered form returns, with its trace of stores and calls, the optimised and compiled code returns as well; nothing is asked of the optimised list |
| Compiler.OptimisedRunsOn | src/codegen_x86.c:84-589 | where defined IR code runs forever, the optimised and compiled code does, without a fault, and performs exactly the same stores and calls |
| Compiler.Generate | src/codegen_x86.c:84-121 | optimise, allocate and emit: the instructions are the assembled form of the optimised list under an allocation that meets all requirements of the code generator |
| Compiler.LoweredDefined | src/ir.c:1629-1700 | a body that is never undefined, wherever its variables lie, lowers to code that never traps, wherever its slots lie |
| Placement.NeverTouched | src/opt.c:453-459 | in a defined run no access through a pointer reaches a slot whose address the list does not take, which is what the slot tables of the passes count on |
| Placement.IterationDefined | src/opt.c:1368-1397 | one iteration keeps a function defined wherever its slots lie, although it removes instructions that take addresses |
| Pipeline.IterationPreserves | src/opt.c:1368-1397 | one iteration changes no run if pointers reach only slots whose address the list takes at its start |
| Pipeline.RunPipeline | src/opt.c:1362-1401 | stopping at the first iteration without a change gives what all iterations would have given, four at level 1 and ten above; each list is one iteration of the one before |
| Pipeline.RunIteration | src/opt.c:1368-1397 | one iteration is the nine passes in order, and reports no change only if the list is unchanged |
| Pipeline.IterateKeepsForm | src/opt.c:1362-1401 | every iteration keeps the lowered form, mentions no new register or slot, stores no other argument and takes no new address |
| Simulation.SimulationTheorem | src/opt.c:1362-1401 | a relation kept in step, with stuttering only toward the end of the list, proves that two lists have the same results, traces and divergence |
| LoweredForm.EmbeddingKeepsForm | src/opt.c:293-313 | rewriting and deleting that maps into the old list, respects what it shuts against jumps and loses no arm of logical and and or keeps the lowered form, the reliance of copy propagation on it included |
| IR.AnswerExact | src/ir.c:973-1126 | a callee sees the shared locals with what they hold, and changes no others |
| Forwarding.StoreLoadForwarding | src/opt.c:445-524 | the pass computes the specified list, entry by entry of its slot table: exactly the loads that find a store, with nothing between that could change slot or register, become what was stored |
| Forwarding.ForwardingPreserves | src/opt.c:445-524 | in every run each load that was replaced yields what the slot holds: the pass changes no run |
| DeadStores.DeadStoreElimination | src/opt.c:570-634 | the pass unlinks exactly the stores to slots whose address is not taken that are stored to again with nothing between that could look, and nothing else |
| DeadStores.DeadStoresPreserves | src/opt.c:570-634 | deleting overwritten stores changes no run |
| ConstProp.PropagationPreserves | src/opt.c:73-268 | in every run a register believed constant holds that constant once defined and the stack table agrees with the slots: the rewritten function has the same runs |
| ConstProp.NoneLeft | src/opt.c:226-262 | no operation on two constants is left but a division by zero |
| ConstProp.PointerNotFolded | src/opt.c:82-87 | a constant that also points a store is not propagated, because the pass counts the store as a definition |
| CopyProp.CopyPropagation | src/opt.c:282-376 | both passes compute the specified list; of lowered code only the self-moves are left out, and every operand is replaced by the register at the end of its chain of copies, so that no copy is read |
| CopyProp.FindCopyRoot | src/opt.c:274-280 | following the map terminates, at a register that is no copy |
| CopyProp.CopiesAcyclic | src/opt.c:293-313 | on every instruction list, well formed or not, the copy map is free of cycles after every update |
| CopyProp.CopyPropagationPreserves | src/opt.c:282-376 | at every rewritten use in every run the root holds the value of the replaced register: no run changes |
| Algebra.AlgebraicSimplification | src/opt.c:640-972 | the pass applies the rewriting to every instruction: exactly the operations that one operand, or two equal ones, decide become a constant, a move, a negation or a shift; multiplications by every power of two up to 2^62 are shifts |
| Algebra.SimplifySame | src/opt.c:652-968 | each rewriting writes the same word modulo 2^64 unless the original traps |
| Algebra.SimplificationPreserves | src/opt.c:640-972 | the pass changes no run |
| CfgOpt.ThreadJumps | src/opt.c:1062-1071 | each jump is threaded through the list as earlier ones left it: hops lead to its new target, and if those of the original come to an end within 8 it is the end |
| CfgOpt.ThreadJumpTarget | src/opt.c:978-995 | all hops through unconditional jumps that there are, but at most 8, stopping at a jump to itself |
| CfgOpt.ThreadingPreserves | src/opt.c:1062-1071 | threading every jump, also around cycles of jumps, keeps results, traces and divergence |
| CfgOpt.CfgOptimization | src/opt.c:997-1100 | the four steps in order |
| CfgOpt.CfgOptimizationPreserves | src/opt.c:997-1100 | the pass keeps every run and the lowered form |
| CfgOpt.ResolveBranches | src/opt.c:1002-1034 | branches on constants become jumps or are left out, exactly |
| CfgOpt.RemoveDeadJumps | src/opt.c:1036-1060 | exactly the jumps right before their own label are left out |
| CfgOpt.RemoveUnusedLabels | src/opt.c:1073-1097 | exactly the labels go that no jump names and that do not stand behind a jump or return |
| CfgSimplify.CfgSimplification | src/opt.c:1106-1185 | the four steps in order |
| CfgSimplify.CfgSimplificationPreserves | src/opt.c:1106-1185 | the pass keeps every run and the lowered form |
| CfgSimplify.InvertBranches | src/opt.c:1111-1130 | each branch around a jump takes the opposite condition and the target of the jump, which goes |
| CfgSimplify.FoldSameDestinations | src/opt.c:1132-1148 | exactly the branches right before a jump to the same label go |
| CfgSimplify.MergeLabels | src/opt.c:1150-1169 | merging as specified leaves no two labels side by side |
| CfgSimplify.RemoveCutOff | src/opt.c:1171-1182 | exactly what stands behind a jump or return up to the next label goes |
| Unreachable.ReachableBlocks | src/opt.c:1244-1279 | propagation terminates with exactly the blocks reachable from the entry marked |
| Unreachable.UnreachableBlockRemoval | src/opt.c:1199-1298 | what stands behind a jump or return is left out, and then exactly the instructions that no walk along control flow from the first one comes to |
| Unreachable.UnreachablePreserves | src/opt.c:1281-1297 | dropping the rest changes no run |
| DeadCode.DeadCodeElimination | src/opt.c:1304-1356 | exactly the constants, addresses, moves, loads from slots and operations go whose result no instruction reads |
| DeadCode.DeadCodePreserves | src/opt.c:1304-1356 | removing them changes no run that does not trap |
| Liveness.ExtendLoops | src/regalloc.c:164-189 | repeating ends at the least extension closed under backward jumps |
| Liveness.CallCrossings | src/regalloc.c:191-206 | the prefix-sum test holds exactly when a call lies in the interval, endpoints included |
| Liveness.LoweredNeverEarly | src/ir.c:462-514 | in code of lowered form no register that is ever written is live before it first occurs, the two-definition results of logical and and or included |
| LinearScan.CrossingSafe | src/regalloc.c:246-254 | an interval that crosses a call gets a callee-saved register or none |
| LinearScan.Scan | src/regalloc.c:208-288 | with its active list and in-use flags, never more than seven entries, the scan gives each interval the register of the specification, which is the one expected: a spill only if every register is held |
| LinearScan.AssignmentFrugal | src/regalloc.c:243-272 | an interval gets a register that no earlier one holds at its start; callee-saved ones across calls, the first; otherwise r10, then r11, then those; and none only if all of them are held |
| RegAlloc.FrameDisjoint | src/regalloc.c:295-315 | save and spill slots are 8-byte cells below the locals, inside the reserved frame, pairwise disjoint; the frame size is a multiple of 16 |
| RegAlloc.SpaceExact | src/regalloc.c:295-315 | eight bytes for each callee-saved register in use and for each register that occurs and got none |
| RegAlloc.FrameLeast | src/codegen_x86.c:90-91 | the frame is the least multiple of 16, and at least 32, that holds locals, saved and spilled registers |
| CodeGen.EmitCall | src/codegen_x86.c:479-517 | outgoing area, arguments of every kind, vector count in al, target and call as specified; where each argument then stands is `AnyCallComes` and, for lowered calls, `LoweredCallReached` |
| CodeGen.EmitPrologue | src/codegen_x86.c:100-118 | frame, register save area of a variadic function and saved registers as specified |
| CodeGen.EmitBody | src/codegen_x86.c:131-574 | one pass over the instructions, with a compare fused with the branch behind it exactly where the specification fuses them |
| CodeGen.EmitFunction | src/codegen_x86.c:84-589 | the emitted list is the assembled function |
| CodeGen.EmitSaveArea | src/codegen_x86.c:107-111 | six general and eight vector registers are stored to the save area, in order |
| CodeGen.ComparesFuse | src/codegen_x86.c:383-408 | a compare is fused with the branch right behind it exactly if that branch alone reads its result: compare and conditional jump and no more |
| CodeGen.NoDetour | src/codegen_x86.c:13-68 | the code of an instruction reads and writes the frame only for operands and results without a register, and for the slot or argument it names |
| CodeGen.CodeSize | src/codegen_x86.c:137-457 | how many machine instructions each instruction takes at most, fewer where operands have registers |
| Residence.Interference | src/codegen_x86.c:6-18 | at every instruction that defines a register, whatever is live behind it has another location |
| Residence.Commits | src/codegen_x86.c:51-68 | writing the result into its register or spill slot keeps all live values, the locals, the saved registers and the frame |
| Selection.ArithmeticRuns | src/codegen_x86.c:260-428 | the code selected for each of the sixteen binary operations leaves its 64-bit result in rax, division and comparison included |
| BlockSteps.Pointers | src/codegen_x86.c:232-245 | a load through a pointer yields what the IR load yields, also when it reaches a local slot |
| BlockSteps.Results | src/codegen_x86.c:260-428 | binary operations complete the IR step |
| CallSteps.ArgMovesRun | src/codegen_x86.c:491-501 | after the moves every argument is in its general register, vector register or stack cell, for every list of kinds, although operands are read while argument registers are written |
| CallSteps.Calls | src/codegen_x86.c:479-521 | the whole call, for every list of argument kinds and also through r11, keeps every value that is live across it and stores the result; rsp is a multiple of 16 at the call |
| Compiled.FallThrough | src/codegen_x86.c:131-574 | every instruction that is no jump, call or return: its block takes related states to related states |
| Compiled.FusedLands | src/codegen_x86.c:383-408 | leaving the comparison's result unwritten does no harm on either side of the fused branch |
| CompiledRuns.PrologueRuns | src/codegen_x86.c:100-118 | the prologue leads to the first block with nothing but the frame added and the argument registers in the save area |
| CompiledRuns.EndingRuns | src/codegen_x86.c:577-588 | from the epilogue label the machine returns what is in rax with rbx, r12 to r15, rbp and rsp as at entry |
| CallSites.AnyCallComes | src/codegen_x86.c:479-512 | the same for arguments of any kind: each in its general register, vector register or stack cell, and in al the number of vector registers |
| CallSites.IntegersEnter | src/ir.c:1642-1688 | what a callee of as many integer parameters stores from its cells are the arguments of the call |
| SourceLaws.Increments | src/ir.c:694-731 | `++x` is `x += 1`; `x++` leaves the same store and has the value from before |
| SourceLaws.ShortAnd | src/ir.c:462-488 | `a && b` is `a ? !!b : 0` |
| SourceLaws.ShortOr | src/ir.c:489-514 | the logical or of a and b is `a ? 1 : !!b` |
| SourceLaws.LeftToRight | src/ir.c:451-606 | binary operators evaluate from left to right |
| SourceLaws.CompoundAssignment | src/ir.c:782-864 | `x op= n` is `x = x op n` |
| SourceLaws.WhileIsFor | src/ir.c:1452-1466 | `while (c) s` is `for (; c;) s` |
| SourceLaws.ForBegins | src/ir.c:1514-1540 | `for (i; t; u) s` is `i` and then the loop |
| SourceLaws.DoOnce | src/ir.c:1467-1479 | a `do` loop runs its body before the condition, and again while it holds |
| SourceLaws.SwitchFallsThrough | src/ir.c:1480-1513 | a `switch` runs on from the chosen case, the default wherever it stands, until a `break` |
| LoweringRun.Lowerer.Expression | src/ir.c:419-606 | appends to the instruction list and bumps the counters exactly as the specification of expression lowering says |
| LoweringRun.Lowerer.Call | src/ir.c:1033-1130 | a call: arguments from left to right, then the register of the result |
| LoweringRun.Lowerer.Decide | src/ir.c:462-514 | logical and and or: result register and labels first, constants set on both ways |
| LoweringRun.Lowerer.Storing | src/ir.c:782-864 | assignments, plain and compound |
| LoweringRun.Lowerer.Statement | src/ir.c:1278-1614 | statements of the fragment |
| LoweringRun.Lower | src/ir.c:1629-1700 | parameters, body and the final return |
| ExprMeaning.ArgsRun | src/ir.c:1033-1094 | the arguments of a call are evaluated from left to right, and all their values are there when the call is made |
| StmtMeaning.SwitchBodies | src/ir.c:1480-1513 | from the comparisons to the chosen body, falling through, and out at the end label |
| LocalSlots.FunctionTidy | src/ir.c:419-446 | every slot that a lowered function names is a parameter, a declared local, or an aligned temporary between the declared locals and the final stack size |
| LoweringForm.ExprHasForm | src/ir.c:419-606 | lowering any expression yields a part with its own labels and registers whose value may be used behind it |
| StmtForm.StmtHasForm | src/ir.c:1433-1614 | the same for statements, up to the labels they leave to |
| Arguments.EveryPieceArrives | src/ir.c:1642-1688 | the callee's i-th cell holds the caller's i-th piece |
| Arguments.CellsDistinct | src/codegen_x86.c:479-501 | no two pieces share a cell, and the stack cells counted before the call are those written |
| Arguments.CellsUsed | src/codegen_x86.c:484-501 | the stack cells are used without gaps |
| Arguments.BuildArgList | src/ir.c:1034-1094 | the pieces of a call with their stack marks, counting the registers wanted so far |
| Arguments.PlaceArguments | src/codegen_x86.c:479-501 | places of all pieces, and a stack area that is a multiple of 16 and holds exactly the stack cells |
| Arguments.ReceiveParams | src/ir.c:1642-1688 | the cells from which a function stores its parameters |
| Arguments.ScalarCells | src/ir.c:1642-1688 | for every list of integer and floating parameters, in a method or not: six integers in general and eight floating values in vector registers, each kind counted by itself, the others on the stack, 8 bytes apart in their order |
| Arguments.ObjectCells | src/ir.c:1039-1055 | an object of at most 16 bytes takes as many general registers as it has 8-byte pieces if there are enough, every other one stack cells |
| Handover.AreaStays | src/codegen_x86.c:107-111 | wherever compiled code stands before an instruction, the save area still holds the argument registers of the entry and the stack above the frame is as the caller left it |
| Variadic.VariadicTraversal | src/codegen_x86.c:458-478 | for every list of named parameters that `va_start` steps over and any integers, pointers and floating values behind it: the i-th `va_arg` finds the i-th unnamed argument, across the border of registers and stack, if none up to it travels in a vector register |
| Variadic.OnePieceEach | src/codegen_x86.c:471-473 | among parameters of one piece each this holds exactly if there are as many floating parameters as hidden objects |
| Variadic.StartsWrong | src/codegen_x86.c:471-473 | lists where it goes wrong: a floating parameter, a method, an object in two registers, an object on the stack |
| Variadic.VaList.Start | src/codegen_x86.c:470-477 | the state of the list behind the named arguments |
| Variadic.VaList.Arg | src/codegen_x86.c:459-469 | the address of the next argument and the state behind it |
| Variadic.FloatingMissed | src/sema.c:2427-2431 | a floating argument behind one integer, a type that the check on `va_arg` lets through, is in a vector register and looked for in a general one |
| Literals.NumbersExact | src/lexer.c:1980-2021 | numbers are what their digits write in base 16 or 10 for the scanner; the evaluator of `#if` takes as many octal digits as follow a leading zero |
| Literals.NumericEscapes | src/lexer.c:2024-2041 | octal and hexadecimal escapes are the numbers that they write, as signed 8-bit characters |
| Literals.SimpleEscapes | src/lexer.c:2042-2055 | the other escapes have their values of C in the scanner; the evaluator knows the newline and the tab |
| Spelling.JoinedSpells | src/lexer.c:904-906 | blanks may stand before any token, and none is needed where a token ends by itself |
| Grammar.LadderFollows | src/lexer.c:1065-1245 | the ladder builds the derived tree of every expression of the grammar with the prefix operators it knows and literals that it reads to their end |
| TwoParsers.SameTree | src/lexer.c:1065-1237 | where climbing from level k yields a constant, the ladder from level k yields the same tree and the same rest |
| TwoParsers.ClimbInTwo | src/parser.c:1552-1581 | climbing from one precedence is climbing from the next and going on with the operators between |
| TwoParsers.DivisionByZeroDiffers | src/lexer.c:1065-1085 | an input outside the condition: `1 / 0` is 0 in `#if` and an error in the compiler's evaluator |
| TwoParsers.OctalDiffers | src/lexer.c:937-955 | literals outside the condition: `010` is 8 in `#if` and 10 for the compiler, and of `08` the ladder consumes the zero alone |
| ConstantTrees.SameValue | src/ast.c:488-520 | both evaluators read all literals alike and value every subexpression alike on exactly the stated trees, and then the compiler's evaluator succeeds with the value of the preprocessor's operators |
| ConstantTrees.WordsTell | src/lexer.c:1980-2021 | of literals that fit 64 bits: the words that the evaluators compute are equal exactly if the numbers are |
| ConstantMeaning.DenotedOnce | src/ast.c:488-520 | on trees that both evaluators value alike there is exactly one value in plain integers and bits, and the compiler computes it |
| ConstantMeaning.PPValueDenoted | src/lexer.c:1044-1237 | the evaluator of `#if` computes on every tree what its operators mean: C division and remainder, 0 for a zero divisor or a shift count out of range |
| PPEvaluator.PPEval.Level | src/lexer.c:1065-1237 | one level of the ladder on characters: on any text that spells a token string, with any blanks and with tokens joined where they cannot merge, it returns the value and stands behind the tokens, or the part of a literal, that the ladder consumes |
| PPEvaluator.PPEval.Unary | src/lexer.c:1044-1063 | prefix operators |
| PPEvaluator.PPEval.Primary | src/lexer.c:910-956 | parentheses, character literals and numbers |
| PPEvaluator.PPEval.Number | src/lexer.c:937-955 | hexadecimal, octal and decimal numbers with suffixes, as 64-bit words: the cursor stops at a digit that is no octal one behind a leading zero |
| PPEvaluator.PPEval.CharacterLiteral | src/lexer.c:920-935 | a character or escape between quotes |
| ClimbingParser.Parser.ParseBinary | src/parser.c:1552-1581 | the parser's loop builds the tree that precedence climbing specifies |
| ClimbingParser.Parser.ParseUnary | src/parser.c:1418-1428 | prefix operators, parentheses and literals |
| Macros.Scanner.Next | src/lexer.c:1815-1826 | the next token is the first of the expansion of what is left; each step makes a measure smaller |
| Macros.Scanner.TryExpand | src/lexer.c:628-638 | a macro is pushed exactly when it is not being replaced already |
| Macros.DepthBound | src/lexer.c:267-284 | there are never more buffers than macros and files |
| Macros.RankedExpandsFully | src/lexer.c:628-638 | without recursion no macro name is left in the result |
| Macros.OnlyRecursiveLeft | src/lexer.c:205-216 | a macro name left in the result stands in its own expansion |
| Macros.Scanner.Include | src/lexer.c:1720-1740 | an included file becomes one more buffer, whose expansion with the active macros disabled comes before all that was left, or the fatal error at the limit |
| Conditionals.ParseComplete | src/lexer.c:1270-1382 | every sequence of lines is the text of exactly the nesting parsed from it |
| Conditionals.ItemsRun | src/lexer.c:1270-1382 | a run of items in a kept or skipped branch: same levels behind it, and the effect of its meaning or none |
| Conditionals.IncludeRuns | src/lexer.c:1815-1825 | an included file has its own meaning and gives its includer's levels back as they were |
| Conditionals.KeptWhereAllActive | src/lexer.c:1247-1250 | text is kept exactly where every open level has its current branch selected |
| Conditionals.StepConsistent | src/lexer.c:1270-1382 | every step keeps the levels coherent: opened in the state of the level around, active only if taken |
| Conditionals.IncluderUntouched | src/lexer.c:1815-1825 | a step in a file leaves the levels of its includers as they were |
| Conditionals.Preprocessor.HandleElif | src/lexer.c:1336-1356 | evaluates only if no branch was taken |
| Conditionals.Preprocessor.Run | src/lexer.c:1812-1897 | the run to the end of the outermost file |
| Conditionals.ChoiceRuns | src/lexer.c:1270-1372 | in any place, a group with a line in each branch: which line is kept, that nothing is kept or asked in skipped text, and that the levels behind it are as before |
| Conditionals.ChainRuns | src/lexer.c:1316-1372 | of `#if`, `#elif` and `#else` the first branch whose condition holds is kept; conditions behind it are not asked |
| Conditionals.Limits | src/lexer.c:1270-1314 | the 129th open level and the 129th file are errors; below that an included file is read first, at the levels that are open |
| Conditionals.MacroGroupMeans | src/lexer.c:1270-1314 | a group of any content under `#ifdef` means its body if the macro is defined and its `#else` part if not, under `#ifndef` the reverse |

## Left out

- Compiler.FunctionReturns: a pointer reaches single 8-byte locals, globals and other memory; arrays and class objects inside the frame, whose cells a pointer may step through, are outside, and so are by-value object parameters. A cast widens as the machine does. What `__winds_va_start` and `__winds_va_arg_gp` compute is `Variadic`, not part of the source fragment.
- Compiler.OptimisedReturns: the IR code must not trap wherever its slots lie; what undefined code does is left open.
- Compiler.OptimisedRunsOn: the same condition.
- Placement.PipelinePreserves: pointers reach one slot as one 8-byte cell; the address of a slot says nothing about its neighbours; undefined runs of the original may do anything afterwards.
- DeadCode.DeadCodePreserves: an unused division by zero is removed, so the result may run where the original traps.
- CompiledRuns.CompiledReturns: fault-freedom is relative to callees that keep the calling convention and change only locals they can see.
- CodeGen.EmitSaveArea: what the vector registers hold at entry is unknown to the machine, so the vector half of the save area holds unknown words; no `va_arg` of the compiler reads it.
- CodeGen.EmitFunction: the instructions for the calls to `__winds_va_start` and `__winds_va_arg_gp` are not emitted; what they do to the list is `Variadic.VaList`.
- CodeGen.EmitCall: a floating result, which arrives in a vector register, is not moved to its location; a 4-byte floating argument is moved as a whole word.
- CallSteps.Calls: results arrive in rax; floating results are not modelled.
- LoweringRun.Lowerer.Expression: pointer scaling, member and index addresses, references, casts, class operands, unary plus, new and delete are not lowered.
- LoweringRun.Lowerer.Call: calls of named functions with 64-bit arguments; method calls, calls through pointers, by-value objects, references and floating arguments are not lowered, but emitted and placed (`CodeGen.EmitCall`, `Arguments.BuildArgList`).
- LoweringRun.Lowerer.Storing: class copies, references and compound assignment through a pointer are not lowered.
- LoweringRun.Lowerer.Statement: goto, labels and declarations of class objects are not lowered.
- LoweringRun.Lower: methods and by-value object parameters are not stored here; their cells are `Arguments.ReceiveParams`.
- Variadic.VariadicTraversal: unnamed objects passed by value are outside, as they are for `va_arg`.
- Arguments.CallerCalleeAgree: objects with floating members travel in general registers here as in the compiler, unlike the ABI's classification.
- PPEvaluator.PPEval.Primary: identifiers, `defined` and macro expansion inside `#if` are not read.
- PPEvaluator.Condition: signed overflow, of operators and of literals, is undefined in the host language and wraps here; floating literals are not spelled.
- ClimbingParser.Parser.ParseUnary: increments, casts and postfix forms are not parsed.
- Macros.Scanner.TryExpand: function-like macros, stringification, pasting, `__LINE__`, `__FILE__` and definitions during scanning are not modelled: the table of macros is fixed during a scan.
- Floating point, unsigned and narrower-than-64-bit arithmetic: intermediate values are 64 bits wide and signed; casts are uninterpreted in the IR.
- The meaning of shifts by a constant in the compiler and of signed overflow: taken modulo 2^64 and modulo 64, as the target does; an immediate shift count that does not fit a byte, which an assembler refuses, counts modulo 64 too.
- Folding INT64_MIN / -1 is undefined in the host language; the run being compiled traps there, so the model folds it to nothing in particular.
- The linked list of instructions is a sequence field of a class: aliasing of list nodes is not modelled.
- Fixed capacities of the slot tables of store forwarding and dead-store elimination; the 64-entry constant table and the 8-hop threading limit are modelled.
- A virtual register number 0 marks an immediate in the source; operands are a datatype here.
- Hash tables, interned label strings and string comparison: labels, macros and symbols are numbers.
- A `break` or `continue` outside a loop emits nothing in the compiler; the source semantics follows it.
- The ten functions of the `#if` ladder are one function and one method with the level as a parameter.
- Parser failures are an error result or a tree that is no constant.
- Comments, line splicing and directives inside macro bodies: a line is one directive or one piece of ordinary text.
- Semantic analysis, template instantiation, name mangling, class layout, diagnostics, the arena, the driver, data emission and assembly text are not part of this model.
