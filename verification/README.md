# AUDESYS: verified model of the compilers, the virtual machine and the ladder semantics

AUDESYS compiles the languages of IEC 61131-3:2003 to the HAL IR, a register
machine with sixteen registers, one comparison flag, a signal table and tables of
timers, counters, bistables and edge detectors. This project models the machine,
three compilers that target it, the independent evaluator of ladder rungs, the
generator of trapezoidal motion programs and the wire codec, and proves what they
do on all inputs. Floating-point numbers are real numbers in the machine and in
motion programs and bit patterns on the wire; integers wrap at their own width.

Verify everything with `dafny verify dfyconfig.toml`.

| part | modules |
|---|---|
| values, blocks, machine | `Options`, `Values`, `Scalars`, `Arrays`, `Blocks`, `Machine`, `Runs`, `Operators`, `Instructions`, `Safety`, `Executor`, `Debugger`, `BlockHistory`, `BlockMachine`, `BlockReadings` |
| Structured Text (section 3.3) | `StSyntax`, `StParser`, `StCode`, `StPatching`, `StCodegen`, `StScratch`, `StSemantics`, `StExprCorrect`, `StCorrect`, `StMeaning`, `StProgram`, `StAccept`, `StBlocks`, `StSafety` |
| Instruction List (section 3.2) | `Text`, `IlText`, `IlCode`, `IlCodegen`, `IlCorrect`, `IlLines` |
| Ladder Diagram (section 4.2) | `LadderGraph`, `LadderFlow`, `LadderScan`, `LadderEdges`, `LadderLatch`, `LadderNetwork`, `LdCode`, `LdParse`, `LdText`, `LdCorrect`, `LdSource` |
| motion | `Motion`, `MotionCorrect`, `MotionPath`, `MotionShort` |
| wire | `Wire` |

Code that updates state in place is a class or a method with loops (`Executor`,
`StCodegen`, `IlCodegen`, `LadderNetwork`, `Motion`, `StParser`, `IlText`, `LdText`, `LdSource`,
`Wire`), proved against functions about which the theorems are stated.

Where the code and its comments or the standard disagree, the model follows the
code. Several theorems say exactly when the code does what is meant:

- an ST assignment evaluates into its own target, so `x := 1 + x` gives 2
  (`StSemantics.InPlaceClobbers`); `StSemantics.InPlaceIsStandard` has the condition;
- ST conditions with AND, OR and NOT do not implement the connectives
  (`StSemantics.CompoundRoutesExact`, `StSemantics.NestedRoutesExact`), and in a WHILE
  they can restart the program (`StProgram.CompoundLoopNeverHalts`);
- a FOR loop with a negative step is skipped (`StSemantics.DescendingLoopSkipped`);
  `StSemantics.ForTestExact` has the condition;
- dividing the smallest DINT by -1 aborts the machine (`StProgram.QuotientFaults`);
  `StProgram.FaultsExactlyWhenAborted` and `StProgram.NeverFaults` say when;
- ARRAY variables never get elements, so assignments to them are lost
  (`StSafety.ArrayElementsAreLost`), and index -1 aborts an access that a comment calls
  panic-free (`Arrays.AbortsExactlyOnLastElement`);
- every field of a counter variable reads FALSE (`StBlocks.CounterFieldIsFalse`);
- an IL comparison that does not hold leaves out the next instruction
  (`IlLines.ComparisonLine`) and at the end of a program jumps out of it
  (`IlCorrect.RunsLeaveExactlyWhenComparisonEnds`);
- IL block lines run no block (`IlLines.BlockLine`), S and R set a register and never the
  signal (`IlLines.SetLine`), and OR and arithmetic lines read the register of their
  variable without loading the signal (`IlLines.BoolLine`, `IlLines.RingLine`);
- an IL line that starts with a comment loses its instruction
  (`IlLines.LeadingCommentDropsLine`);
- ladder transition contacts forget between scans (`LadderEdges.ScanForgetsTransitions`),
  and the second one of a variable in a chain never passes
  (`LadderEdges.SecondTransitionNeverPasses`);
- the sort of a ladder network with its rail on a cycle may never end
  (`LadderGraph.SortEndsExactlyWhenRailIsHeld`);
- setting the left rail of a queried network leaves a stale order
  (`LadderNetwork.StaleOrder`; `LadderGraph.RailChangeKeepsOrder` has the condition), and
  an edge from an unfed node blocks power (`LadderFlow.UnfedEdgeBlocksPower`);
- a return continues one instruction too far (`Machine.ReturnSkipsOne`);
- after a timeout TOF keeps ET at PT, where a comment says zero (`BlockHistory.OffDelay`);
- reading ET is exact only for presets below 2^32
  (`BlockHistory.NarrowingExactIffPresetFits`), and CTU wraps for the largest PV
  (`BlockHistory.CountUpWraps`);
- the motion program has no halt instruction (`MotionPath.ProgramMoves`), and a move too
  short to cruise runs backwards (`MotionShort.EndsBehindStart`);
- the strict codec rejects zero-length arrays (`Wire.StrictRoundTripIffNotEmptyArray`).

## Model

| member | source | states |
|---|---|---|
| StProgram.CompilationPreservesMeaning | crates/audesys-hal-binding-gen/src/codegen.rs:280-457 | a program over DINT variables whose assignments use their target only as the leftmost leaf, whose conditions are single comparisons and whose FOR loops count up ends in a state, by the language's meaning, if and only if its compiled code halts with that state in its registers and signals, and aborts by the language if and only if the machine does; so divergence is preserved too |
| StProgram.GeneratedCodeExact | crates/audesys-hal-binding-gen/src/codegen.rs:170-457 | for every accepted DINT program, including clobbering assignments, compound conditions and descending loops, the machine halts with a state exactly when the meaning of the generated code reaches it, and aborts exactly when that meaning does |
| StProgram.ProgramCorrect | crates/audesys-hal-binding-gen/src/codegen.rs:883-890 | every loop bound: the run either halts in a machine state that matches the program's final store, or aborts with a division overflow where the program does, or is still running after at least as many instructions as the bound |
| StProgram.RunAccountedFor | crates/audesys-hal-ir/src/executor.rs:92-136 | every run that stops, after however many instructions, has halted in the state the semantics gives or has aborted on a division overflow where the semantics aborts |
| StProgram.FaultsExactlyWhenAborted | crates/audesys-hal-core/src/value.rs:197-254 | some run of an accepted DINT program aborts the machine exactly when the meaning of the code divides the smallest DINT by -1, and no run aborts for any other reason |
| StProgram.NeverFaults | crates/audesys-hal-core/src/value.rs:197-254 | a program whose divisors are literals other than -1 never aborts the machine |
| StProgram.QuotientFaults | crates/audesys-hal-core/src/value.rs:197-254 | y := x / z with x = -2147483648 and z = -1 aborts it |
| StProgram.CompoundLoopNeverHalts | crates/audesys-hal-binding-gen/src/codegen.rs:633-654 | a program that starts with WHILE x > 0 OR y > 0 never halts when neither is positive, although by the language it ends at once |
| StProgram.FreshMachineIsLoaded | crates/audesys-hal-ir/src/vm.rs:192-200 | a new and a reset machine both start a program with all variables zero and no signals |
| StCorrect.StmtCorrect | crates/audesys-hal-binding-gen/src/codegen.rs:280-457 | simulation of one statement: normal end, EXIT, RETURN, a jump back to instruction 0, an aborting division and an exhausted loop bound each lead the machine where they should, with matching registers and signals |
| StCorrect.BlockCorrect | crates/audesys-hal-binding-gen/src/codegen.rs:883-890 | the same for statement lists |
| StExprCorrect.ScratchCorrect | crates/audesys-hal-binding-gen/src/codegen.rs:170-219 | code of an expression into a scratch register computes its value and disturbs only that register and the scratch registers free at that point, when no division of it overflows |
| StExprCorrect.ScratchFaults | crates/audesys-hal-binding-gen/src/codegen.rs:170-219 | when one does, the code aborts |
| StExprCorrect.InPlaceCorrect | crates/audesys-hal-binding-gen/src/codegen.rs:282-290 | code of an assignment computes into the variable itself: it leaves the value of the expression with the target overwritten as evaluation proceeds |
| StExprCorrect.CondCorrect | crates/audesys-hal-binding-gen/src/codegen.rs:616-667 | code of a condition leaves by the route its jump lists predict: the taken jumps, the other jumps, or falling through |
| StSemantics.MeaningsAgree | crates/audesys-hal-binding-gen/src/codegen.rs:280-457 | on well-behaved programs the meaning of the generated code and the meaning of the language, each with its own conditions and its own exit test of FOR, agree for every loop bound |
| StSemantics.ForTestExact | crates/audesys-hal-binding-gen/src/codegen.rs:353-390 | the exit test of the generated FOR and the one of the standard agree exactly when the step is not negative or the variable is at the limit |
| StSemantics.DescendingLoopSkipped | crates/audesys-hal-binding-gen/src/parser.rs:552-558 | FOR i := 3 TO 1 BY -1 runs three times by the standard and not at all in the generated code |
| StSemantics.InPlaceIsStandard | crates/audesys-hal-binding-gen/src/codegen.rs:282-290 | evaluating into the target is ordinary evaluation when the target occurs only as the leftmost leaf |
| StSemantics.InPlaceClobbers | crates/audesys-hal-binding-gen/src/codegen.rs:190-203 | x := 1 + x gives 2 whatever x was |
| StSemantics.SimpleConditionsAgree | crates/audesys-hal-binding-gen/src/codegen.rs:616-632 | a single comparison as condition is routed as the language says |
| StSemantics.CompoundRoutesExact | crates/audesys-hal-binding-gen/src/codegen.rs:633-654 | over parts that are routed right, AND is routed right exactly when both parts have the same truth value, OR exactly when both hold, NOT never |
| StSemantics.CompoundIfExact | crates/audesys-hal-binding-gen/src/codegen.rs:305-334 | in an IF over such parts, AND acts as OR, OR as implication and NOT as nothing: right exactly when both have the same truth value, when the right part holds, and never |
| StSemantics.NestedRoutesExact | crates/audesys-hal-binding-gen/src/codegen.rs:633-654 | for conditions nested to any depth, the route of the code by recursion over the truth of its comparisons, and from it exactly when the condition and an IF over it are right |
| StSemantics.WhileOrRestarts | crates/audesys-hal-binding-gen/src/codegen.rs:335-352 | WHILE x > 0 OR y > 0 with x not positive jumps back to the first instruction of the program |
| StSemantics.WhileOrLoopsForever | crates/audesys-hal-binding-gen/src/codegen.rs:335-352 | so a program that starts with it never ends when neither is positive |
| StCode.OverflowIffDemandExceedsFree | crates/audesys-hal-binding-gen/src/codegen.rs:74-99 | generating an expression, array accesses included, aborts for lack of scratch registers exactly when the recursive demand of the expression exceeds the free registers |
| StCode.Declare | crates/audesys-hal-binding-gen/src/codegen.rs:37-54 | every declared variable has its own register, and each name has the register and type of its last declaration, with no later one of the same name |
| StScratch.ExprWritesOnlyDestAndFreeScratch | crates/audesys-hal-binding-gen/src/codegen.rs:170-256 | every instruction of an expression writes only the destination or a scratch register that was free |
| StScratch.NeverAliasesVariables | crates/audesys-hal-binding-gen/src/codegen.rs:13-17 | no instruction of an expression writes the register of another variable |
| StScratch.EvaluationKeepsVariables | crates/audesys-hal-ir/src/executor.rs:92-119 | running the code of an expression of any type, from any machine state, reaches its end within as many steps as it has instructions and leaves the registers of all other variables and all signals as they were, or aborts on a division or array access of its own |
| StSafety.CompiledProgramSafe | crates/audesys-hal-binding-gen/src/codegen.rs:883-890 | every jump of a compiled program without generic calls lands inside it and every register operand exists, for all variable types, expressions and statements, arrays included |
| StSafety.CompiledRunsStayInBounds | crates/audesys-hal-ir/src/executor.rs:92-119 | no run of such a program, from any machine state and of any length, trips the checks on instruction pointer or registers; it aborts only on a division or array access that it contains |
| StSafety.ArrayElementsAreLost | crates/audesys-hal-binding-gen/src/codegen.rs:291-304 | in every run from a machine without array elements, such as a fresh one, assigning an array element changes no register and reading one gives zero, or aborts: nothing ever sizes an array |
| StPatching.PatchYes | crates/audesys-hal-binding-gen/src/codegen.rs:164-168 | patching the taken-jump list of a condition gives its code for the new target |
| StPatching.PatchOther | crates/audesys-hal-binding-gen/src/codegen.rs:633-654 | patching the other-jump list of a condition gives its code for the new target |
| StPatching.PatchBlockExits | crates/audesys-hal-binding-gen/src/codegen.rs:56-72 | patching the recorded exits of a loop body gives its code with every EXIT aimed at the end of the loop and inner loops untouched |
| StPatching.PatchEnds | crates/audesys-hal-binding-gen/src/codegen.rs:416-457 | patching the branch ends of a CASE gives its code for the new end |
| StCodegen.Compile | crates/audesys-hal-binding-gen/src/codegen.rs:883-890 | the generator accepts, rejects or aborts exactly as the static verdict says, and its code is the resolved code of the program |
| StCodegen.Codegen.CompileStmt | crates/audesys-hal-binding-gen/src/codegen.rs:280-457 | appends the resolved code of a statement with open exits recorded on the innermost loop, and gives back all scratch registers |
| StCodegen.Codegen.CompileArrayAssign | crates/audesys-hal-binding-gen/src/codegen.rs:291-304 | index and value are held in two scratch registers at once, which are free again afterwards |
| StCodegen.Codegen.CompileArrayAccess | crates/audesys-hal-binding-gen/src/codegen.rs:224-230 | the index is held in a scratch register while it is computed, the element goes to the destination |
| StCodegen.Codegen.CompileExpr | crates/audesys-hal-binding-gen/src/codegen.rs:170-256 | appends the code of an expression and leaves the free set of scratch registers as it found it |
| StCodegen.Codegen.CompileBoolCond | crates/audesys-hal-binding-gen/src/codegen.rs:616-667 | appends the code of a condition with placeholder targets and returns exactly its two jump lists |
| StCodegen.Codegen.CompileIf | crates/audesys-hal-binding-gen/src/codegen.rs:305-334 | two passes of backpatching give the resolved code of IF |
| StCodegen.Codegen.CompileWhile | crates/audesys-hal-binding-gen/src/codegen.rs:335-352 | loop stack and patching give the resolved code of WHILE, and the loop stack is as before |
| StCodegen.Codegen.CompileFor | crates/audesys-hal-binding-gen/src/codegen.rs:353-390 | the same for FOR with optional step |
| StCodegen.Codegen.CompileRepeat | crates/audesys-hal-binding-gen/src/codegen.rs:391-409 | the same for REPEAT |
| StCodegen.Codegen.CompileCase | crates/audesys-hal-binding-gen/src/codegen.rs:416-457 | the same for CASE with label lists and ELSE |
| StCodegen.Codegen.AllocScratch | crates/audesys-hal-binding-gen/src/codegen.rs:74-87 | from any set of free registers, hands out the first free one, and fails exactly when all three are in use |
| StCodegen.Codegen.FreeScratch | crates/audesys-hal-binding-gen/src/codegen.rs:89-99 | frees exactly the named register |
| StCodegen.Codegen.PopLoop | crates/audesys-hal-binding-gen/src/codegen.rs:65-72 | patches the exits of the innermost loop to the current end and no other jump |
| Operators.RingLaws | crates/audesys-hal-core/src/value.rs:197-224 | for every integer type and all numbers in range, sum, difference and product are the values of the type congruent to a + b, a - b and a * b modulo 2 to its width |
| Operators.FittingIsUnique | crates/audesys-hal-core/src/value.rs:197-224 | a value in range is the only one in its congruence class |
| Operators.QuotientLaws | crates/audesys-hal-core/src/value.rs:223-254 | for every integer type, a divisor other than zero and no overflow, a = b * q + r with the remainder smaller than the divisor and with the sign of a |
| Operators.DintByZero | crates/audesys-hal-ir/src/executor.rs:215-229 | a DINT divided by zero gives zero as quotient and as remainder |
| Operators.BitLaws | crates/audesys-hal-core/src/value.rs:226-246 | bit i of AND is "both", of OR "either", of XOR "exactly one", for every place of every integer type |
| Operators.UnaryLaws | crates/audesys-hal-core/src/value.rs:256-287 | complement flips every place and negation is congruent to -a; unsigned types have no negation and give S32(0) |
| Operators.BoolLaws | crates/audesys-hal-core/src/value.rs:226-287 | the bitwise operators on Booleans are the connectives; arithmetic on them gives S32(0) |
| Operators.RealLaws | crates/audesys-hal-core/src/value.rs:197-254 | sum, difference and product of reals, and for a divisor other than zero the quotient and the remainder of truncated division |
| Operators.MismatchGivesZero | crates/audesys-hal-core/src/value.rs:197-254 | operands of different types, strings, blobs and arrays give S32(0) |
| Operators.IntegersCompare | crates/audesys-hal-core/src/value.rs:289-305 | on every integer type the six comparisons are those of the numbers |
| Operators.OthersCompare | crates/audesys-hal-core/src/value.rs:289-305 | equality is equality of values for all of them; values of different types, Booleans and containers are not ordered |
| Operators.RingInstructions | crates/audesys-hal-ir/src/executor.rs:212-214 | Add, Sub and Mul on any three registers leave those congruent numbers and change nothing else |
| Operators.DivisionInstructions | crates/audesys-hal-ir/src/executor.rs:215-229 | Div and Mod on any three registers: quotient and remainder with their laws, zero for a DINT divided by zero, an abort for other types divided by zero and for the smallest number by -1 |
| Operators.BitInstructions | crates/audesys-hal-ir/src/executor.rs:239-241 | And, Or and Xor on any three registers, place by place |
| Operators.ComparisonInstructions | crates/audesys-hal-ir/src/executor.rs:373-384 | each comparison sets the flag to the order of the numbers and changes nothing else |
| Operators.UnaryInstructions | crates/audesys-hal-ir/src/executor.rs:360-395 | Not and Neg on any two registers |
| Instructions.LoadElement | crates/audesys-hal-ir/src/executor.rs:285-307 | LoadIndex leaves in its first operand the number that the bytes of the element spell, lowest first, and zero past the end |
| Instructions.StoreElement | crates/audesys-hal-ir/src/executor.rs:309-332 | StoreIndex makes the bytes of the element in its first operand spell the stored number and changes no other byte |
| Instructions.IndexOf | crates/audesys-hal-ir/src/executor.rs:334-346 | integers index by their value, negative ones modulo 2 to the 64 |
| Instructions.ElementOf | crates/audesys-hal-core/src/value.rs:101-113 | element i of an array of any integer type is the number spelled by its bytes, two's complement for signed types |
| Instructions.Returns | crates/audesys-hal-ir/src/executor.rs:449-466 | a return pops the last noted place and goes one behind it, optionally copying a register to r0; with nothing noted it stops |
| StMeaning.RingMeaning | crates/audesys-hal-binding-gen/src/codegen.rs:190-203 | the value of a + b, a - b and a * b over any DINT operands is the DINT congruent to it modulo 2 to the 32 |
| StMeaning.QuotientMeaning | crates/audesys-hal-binding-gen/src/codegen.rs:190-203 | quotient and remainder of any DINT operands satisfy a = b * q + r with the sign of a, and are zero for b = 0 |
| StMeaning.AbortMeaning | crates/audesys-hal-core/src/value.rs:248-254 | a DINT operation aborts exactly when an operand does or it divides -2147483648 by -1 |
| StMeaning.XorMeaning | crates/audesys-hal-binding-gen/src/codegen.rs:190-203 | XOR acts place by place |
| StMeaning.UnaryMeaning | crates/audesys-hal-binding-gen/src/codegen.rs:213-223 | NOT flips every place and unary minus is the negative modulo 2 to the 32 |
| StMeaning.ComparisonMeaning | crates/audesys-hal-binding-gen/src/codegen.rs:623-632 | each of the six comparisons holds exactly when the numbers compare so |
| StMeaning.ConnectiveMeaning | crates/audesys-hal-binding-gen/src/codegen.rs:633-654 | AND, OR and NOT over conditions mean the connectives in the language |
| StMeaning.ForMeaning | crates/audesys-hal-binding-gen/src/codegen.rs:353-390 | the exit test of FOR in the language compares with the limit by the sign of the step, and a turn adds the step modulo 2 to the 32 |
| StMeaning.CaseMeaning | crates/audesys-hal-binding-gen/src/codegen.rs:416-457 | a CASE branch is taken exactly when its labels contain the value |
| StMeaning.RingAssignments | crates/audesys-hal-binding-gen/src/codegen.rs:170-212 | the compiled program y := a op b for +, - and * halts with y, in register and signal, the DINT congruent to the sum, difference or product |
| StMeaning.QuotientAssignments | crates/audesys-hal-binding-gen/src/codegen.rs:170-212 | the same for DIV and MOD with the laws of quotient and remainder |
| StAccept.DintProgramAccepted | crates/audesys-hal-binding-gen/src/codegen.rs:669-816 | a DINT program is accepted if and only if all its variables are declared, no expression needs more than three scratch registers and every EXIT stands in a loop |
| StAccept.CopyAccepted | crates/audesys-hal-binding-gen/src/codegen.rs:764-806 | x := y is accepted exactly for equal types, INT with another integer type, and REAL with LREAL |
| StAccept.VariableAccepted | crates/audesys-hal-binding-gen/src/codegen.rs:353-366 | a variable is accepted as condition exactly when it is BOOL and as loop variable exactly when it is INT or DINT |
| StBlocks.ProgramFrom | crates/audesys-hal-binding-gen/src/codegen.rs:458-605 | every block scan in the code of a program comes from one of its calls, with the number of the called variable and the kind of its type |
| StBlocks.TimerVariableFixed | crates/audesys-hal-binding-gen/src/codegen.rs:458-492 | whatever runs of a program's code are strung together, all scans of a timer variable that is called with one preset literal carry that preset and the kind of its type |
| StBlocks.CounterVariableFixed | crates/audesys-hal-binding-gen/src/codegen.rs:492-536 | the same for counter variables |
| StBlocks.BistableVariableFixed | crates/audesys-hal-binding-gen/src/codegen.rs:537-572 | SR and RS variables are scanned as SR and RS |
| StBlocks.EdgeVariableFixed | crates/audesys-hal-binding-gen/src/codegen.rs:573-595 | R_TRIG and F_TRIG variables are scanned as rising and falling detectors |
| StBlocks.OnDelayVariable | crates/audesys-hal-binding-gen/src/codegen.rs:458-492 | at any point of any run of a program with a TON variable, reading it gives Q exactly when its current true run has reached the preset, and the capped time |
| StBlocks.OffDelayVariable | crates/audesys-hal-binding-gen/src/codegen.rs:458-492 | the same for a TOF variable and the time since its last true input |
| StBlocks.PulseVariable | crates/audesys-hal-binding-gen/src/codegen.rs:458-492 | the same for a TP variable and the pulse since its rising edge |
| StBlocks.FieldCode | crates/audesys-hal-binding-gen/src/codegen.rs:231-256 | a field access reads a timer for timers and counters alike, Q1 or Q2 of a bistable, and the pulse of a detector, whatever other field is named |
| StBlocks.CounterFieldIsFalse | crates/audesys-hal-binding-gen/src/codegen.rs:231-256 | so in every run every field of a counter variable reads FALSE in a program that starts without timers |
| StBlocks.CallFeeds | crates/audesys-hal-binding-gen/src/codegen.rs:458-595 | the inputs of each kind of call go to the scan instruction in their order, a missing count-down input as FALSE |
| StParser.ParseUndoesPrint | crates/audesys-hal-binding-gen/src/parser.rs:680-784 | for every expression tree, every level and every context, parsing its minimal-parenthesis token list gives the same left-associative tree and stops before a remainder that does not continue it |
| StParser.ReparseIsStable | crates/audesys-hal-binding-gen/src/parser.rs:715-732 | for every token list the parser accepts, printing the result and parsing again gives the same tree |
| StParser.Parser.Prec | crates/audesys-hal-binding-gen/src/parser.rs:715-732 | the climbing loop, with the position it advances, terminates on every token list and returns what the grammar gives |
| StParser.Parser.Unary | crates/audesys-hal-binding-gen/src/parser.rs:734-748 | prefix operators, likewise |
| StParser.Parser.Primary | crates/audesys-hal-binding-gen/src/parser.rs:750-784 | literals, names, array elements, fields and parentheses, likewise, with the errors for a missing or a wrong token |
| StParser.TighterOperatorTakesOperand | crates/audesys-hal-binding-gen/src/parser.rs:680-732 | with operand expressions of any form, x a y b z is x a (y b z) exactly when the class of b comes after that of a in OR XOR, AND, comparisons, + -, * / MOD, and (x a y) b z otherwise |
| StParser.TighterOperatorOnNames | crates/audesys-hal-binding-gen/src/parser.rs:680-732 | the same for three names, from the token list alone |
| StParser.LevelsAreClasses | crates/audesys-hal-binding-gen/src/parser.rs:680-690 | an operator binds tighter than another exactly when its class comes later |
| StParser.OperandsOf | crates/audesys-hal-binding-gen/src/parser.rs:734-784 | unary minus, NOT, TRUE, FALSE and parentheses give the operands they spell |
| IlCorrect.RunCorrect | crates/audesys-il-compiler/src/codegen.rs:143-337 | any number of IL steps is matched by exactly as many machine steps as their code has instructions, with r14 the accumulator, r15 TRUE and equal signals |
| IlCorrect.StepCorrect | crates/audesys-il-compiler/src/codegen.rs:143-262 | one IL step, jumps to the last definition of a label or to the end included |
| IlCorrect.CompiledProgramHalts | crates/audesys-il-compiler/src/codegen.rs:341-343 | when the IL program ends, the machine halts with its accumulator and signals |
| IlCorrect.HaltsExactlyWhenIlEnds | crates/audesys-il-compiler/src/codegen.rs:318-337 | the machine halts on the compiled program if and only if the IL program reaches its end |
| IlCorrect.SafeExactlyWhenComparisonsContinue | crates/audesys-il-compiler/src/codegen.rs:108-127 | compiled code without calls is statically in bounds exactly when no comparison ends the program: the false path of a comparison jumps one instruction too far |
| IlCorrect.RunsLeaveExactlyWhenComparisonEnds | crates/audesys-il-compiler/src/codegen.rs:108-127 | some run from inside a compiled program without calls leaves it exactly when a comparison ends the program |
| IlCorrect.LoneComparisonFaults | crates/audesys-il-compiler/src/codegen.rs:108-127 | the program NE x aborts a fresh machine on its sixth step |
| IlCorrect.CoreRunsStayInBounds | crates/audesys-hal-ir/src/executor.rs:92-119 | no run of a core IL program, looping or not, aborts in any way |
| IlCode.LabelIndex | crates/audesys-il-compiler/src/codegen.rs:318-335 | a label denotes its last definition, and the end of the program when it has none |
| IlCode.StatementInProgram | crates/audesys-il-compiler/src/codegen.rs:143-337 | the code of every statement stands at its address in the finished program |
| IlCodegen.Compile | crates/audesys-il-compiler/src/codegen.rs:143-337 | the one-pass generator with its backpatching loop fails exactly when the statements use more than ten variables and otherwise yields the resolved program |
| IlCodegen.Backpatch | crates/audesys-il-compiler/src/codegen.rs:321-335 | patching the recorded references resolves every jump and changes nothing else |
| IlCodegen.LabelTarget | crates/audesys-il-compiler/src/codegen.rs:148-150 | the label table of the first pass resolves each name to its last definition, or to the halt |
| IlCodegen.Codegen.GetVarReg | crates/audesys-il-compiler/src/codegen.rs:42-55 | variables get registers 0 to 9 in order of first use |
| IlCodegen.Codegen.CompileStatement | crates/audesys-il-compiler/src/codegen.rs:147-316 | appends the draft code of one statement and records its label or its pending jump, after allocating the register of its operand |
| IlCodegen.Codegen.EmitStatement | crates/audesys-il-compiler/src/codegen.rs:152-316 | the instructions emitted for each kind of statement, one by one |
| IlCodegen.Codegen.MaterializeFlag | crates/audesys-il-compiler/src/codegen.rs:108-127 | the five-instruction pattern of a comparison, with its jump targets from the current position |
| IlText.Tokenize | crates/audesys-il-compiler/src/lexer.rs:158-198 | tokens of a source text line by line, labels, comments and case-insensitive mnemonics included |
| IlText.RemoveInlineComments | crates/audesys-il-compiler/src/lexer.rs:91-113 | drops exactly the text inside comment brackets; an open comment runs to the end of the line |
| IlText.Parse | crates/audesys-il-compiler/src/parser.rs:51-248 | statements of a token list, with "?" for a missing operand and stray identifiers skipped |
| IlText.ExpectIdent | crates/audesys-il-compiler/src/parser.rs:251-259 | takes the identifier at the position, or "?" without moving |
| IlText.SpellingParses | crates/audesys-il-compiler/src/lexer.rs:115-155 | every mnemonic is recognised by its own spelling |
| IlText.LineRoundTrip | crates/audesys-il-compiler/src/lexer.rs:158-198 | a line of a mnemonic and a good name gives that mnemonic and that name as identifier, even when the name is spelled like a mnemonic |
| IlLines.SourceParsesLineByLine | crates/audesys-il-compiler/src/lexer.rs:158-198 | the statements of a source are those of its lines, one after the other: no operand is taken from the next line |
| IlLines.LabelLine | crates/audesys-il-compiler/src/parser.rs:238-241 | the line "l:" defines the label l |
| IlLines.LabelledLine | crates/audesys-il-compiler/src/lexer.rs:171-185 | a label before an instruction gives the label and then the statement, when the operand is not spelled like a mnemonic |
| IlLines.CommentIsDropped | crates/audesys-il-compiler/src/lexer.rs:91-113 | a comment inside a line leaves no trace |
| IlLines.LeadingCommentDropsLine | crates/audesys-il-compiler/src/lexer.rs:162-164 | a line that starts with a comment is dropped with the instruction behind it |
| IlLines.JumpLine | crates/audesys-il-compiler/src/parser.rs:151-155 | JMP l: the machine goes to the code of the last label line l:, or to the end |
| IlLines.ConditionalJumpLine | crates/audesys-il-compiler/src/parser.rs:156-165 | JMPC l goes there exactly when r14 is TRUE, JMPCN l exactly when it is not, and otherwise the machine goes on behind the line |
| IlLines.JumpSteps | crates/audesys-il-compiler/src/parser.rs:151-165 | the same for the IL machine and its accumulator |
| IlLines.GuardedStoreRuns | crates/audesys-il-compiler/src/parser.rs:51-248 | the text LD x, JMPC l, ST y, l: run to its halt stores x in y exactly when x is not TRUE, with JMPCN exactly when it is |
| IlLines.RingLine | crates/audesys-il-compiler/src/parser.rs:96-110 | ADD x, SUB x, MUL x leave in r14 the number congruent to the sum, difference and product of r14 and the register of x |
| IlLines.QuotientLine | crates/audesys-il-compiler/src/parser.rs:111-120 | DIV x and MOD x leave quotient and remainder, zero for a DINT divided by zero, or abort |
| IlLines.BitLine | crates/audesys-il-compiler/src/parser.rs:81-95 | OR x and XOR x combine r14 and the register of x place by place |
| IlLines.BoolLine | crates/audesys-il-compiler/src/parser.rs:81-95 | and as connectives on Booleans |
| IlLines.OrNotLine | crates/audesys-il-compiler/src/parser.rs:86-90 | ORN x combines with the negated register |
| IlLines.ComparisonLine | crates/audesys-il-compiler/src/parser.rs:121-150 | GT, GE, EQ, NE, LE, LT x leave the order of r14 and the register of x in r14; when it does not hold, the machine leaves out the first instruction of the next line |
| IlLines.LoadLine | crates/audesys-il-compiler/src/parser.rs:56-60 | LD x brings the signal to its register and to r14, FALSE while unset |
| IlLines.LoadNotLine | crates/audesys-il-compiler/src/parser.rs:61-65 | LDN x brings it negated |
| IlLines.StoreLine | crates/audesys-il-compiler/src/parser.rs:66-70 | ST x writes r14 to the signal |
| IlLines.AndLine | crates/audesys-il-compiler/src/parser.rs:71-75 | AND x is the conjunction with the signal |
| IlLines.AndNotLine | crates/audesys-il-compiler/src/parser.rs:76-80 | ANDN x the one with the negated signal |
| IlLines.NotLine | crates/audesys-il-compiler/src/parser.rs:185-188 | NOT negates r14 |
| IlLines.SetLine | crates/audesys-il-compiler/src/codegen.rs:264-275 | S x and R x put TRUE and FALSE into the register of x whatever r14 holds; no signal changes |
| IlLines.CallLine | crates/audesys-il-compiler/src/codegen.rs:254-260 | CAL f goes to the label and notes the place behind the line |
| IlLines.ReturnLine | crates/audesys-il-compiler/src/codegen.rs:261-263 | RET goes one instruction behind the noted place, or ends the program |
| IlLines.BlockLine | crates/audesys-il-compiler/src/codegen.rs:280-315 | TON, TOF, TP, CTU, CTD, R_TRIG, F_TRIG, SR and RS lines run no block and change nothing |
| IlLines.RegistersDistinct | crates/audesys-il-compiler/src/codegen.rs:42-55 | no two variables of a program share a register |
| LdText.CompileLadderCorrectly | crates/audesys-ld-compiler/src/codegen.rs:86-144 | networks to IL text to tokens to statements to machine code: compilation succeeds exactly when the contacts read at most ten variables, and then the run to halt leaves exactly the signal table that one scan of the rungs leaves |
| LdCorrect.LadderCompilationCorrect | crates/audesys-ld-semantics/src/lib.rs:647-710 | from any Boolean signal table, for every list of networks of one or more NO/NC contacts followed by OUT coils over at most ten contact variables, the compiled program halts with exactly the table of the ladder evaluator on the serial rungs, each rung seeing the coils above it |
| LdCorrect.OneRegisterPerContactVariable | crates/audesys-il-compiler/src/codegen.rs:42-55 | the IL compiler needs exactly one register per contact variable |
| LdCorrect.NetworkCorrect | crates/audesys-ld-compiler/src/codegen.rs:92-116 | the IL of one network does to the signals what its rung does to the variables |
| LdText.TextRoundTrip | crates/audesys-ld-compiler/src/codegen.rs:86-144 | tokenising and parsing the generated text gives back exactly the intended statements, for names that are non-empty, free of white space and free of an opening comment bracket |
| LdText.GenerateIl | crates/audesys-ld-compiler/src/codegen.rs:86-144 | the text generated by the loops over networks and elements |
| LdText.CompileLadder | crates/audesys-ld-compiler/src/codegen.rs:86-144 | the pipeline through text compiles exactly the intended statements |
| LdParse.ParseNetworks | crates/audesys-ld-compiler/src/codegen.rs:29-78 | the grouping loop computes the networks of a token list |
| LdParse.GroupingKeepsElements | crates/audesys-ld-compiler/src/codegen.rs:29-78 | for every token list, grouping loses and reorders no element and makes no empty network |
| LdParse.NetworksRoundTrip | crates/audesys-ld-compiler/src/codegen.rs:29-78 | printing non-empty networks as tokens and grouping them gives the networks back |
| LdSource.CompileSourceCorrectly | crates/audesys-ld-compiler/src/lib.rs:52-60 | from ladder source text to signals: a source of rungs with NO and NC lines and OUT lines compiles exactly when it has a rung and reads at most ten variables, and the halted machine leaves the signals of the rungs top to bottom, each coil TRUE exactly when every NO variable is TRUE and every NC variable is not |
| LdSource.TokenizeLadder | crates/audesys-ld-compiler/src/lexer.rs:28-71 | the loop over the lines gives the tokens of the non-blank ones |
| LdSource.CompileSource | crates/audesys-ld-compiler/src/lib.rs:52-60 | source text to machine code; an empty source is an error |
| LdSource.LineBecomesText | crates/audesys-ld-compiler/src/codegen.rs:92-140 | each contact, transition and coil line becomes the IL text of its keyword, in the first contact LD or LDN and later AND or ANDN |
| LdSource.BranchBecomesText | crates/audesys-ld-compiler/src/codegen.rs:110-132 | branch lines become OR and ORN, and with P or N the text of a transition |
| LdSource.FirstContactLoads | crates/audesys-ld-compiler/src/codegen.rs:89-140 | in a network the first series or transition contact loads and all later ones combine, whatever branches and coils stand between |
| LadderFlow.PowerFlowExact | crates/audesys-ld-semantics/src/lib.rs:341-375 | for every NO/NC network on which the sort ends, a node is powered exactly when a path of closed contacts leads to it from the rail through nodes the sort visits |
| LadderFlow.PowerFlowIsReachability | crates/audesys-ld-semantics/src/lib.rs:341-375 | on an acyclic network whose edge sources are fed from the rail, power is exactly reachability through closed contacts |
| LadderFlow.ReachableSourcesAreFed | crates/audesys-ld-semantics/src/lib.rs:198-222 | in particular when every edge source is reachable from the rail |
| LadderFlow.UnfedEdgeBlocksPower | crates/audesys-ld-semantics/src/lib.rs:198-222 | without that condition it fails: an edge from an unfed node hides a closed path |
| LadderEdges.SerialEvaluatesInOrder | crates/audesys-ld-semantics/src/lib.rs:341-375 | a chain of any contacts passes power left to right, and a transition contact looks at and records its variable exactly when power reaches it |
| LadderEdges.SerialOfLevels | crates/audesys-ld-semantics/src/lib.rs:341-375 | a chain of NO and NC contacts conducts exactly when every NO variable is TRUE and every NC variable is FALSE or missing |
| LadderEdges.TransitionsConductOnChange | crates/audesys-ld-semantics/src/lib.rs:296-312 | over any sequence of evaluations with one memory, a rising contact conducts exactly when its variable is TRUE now and was not in the snapshot before, a falling one the other way round |
| LadderEdges.SecondTransitionNeverPasses | crates/audesys-ld-semantics/src/lib.rs:341-375 | of two transition contacts of one variable in a chain the second never passes power |
| LadderEdges.ScanForgetsTransitions | crates/audesys-ld-semantics/src/lib.rs:647-710 | in a scan, whose memory starts empty, a rising contact acts as a level contact and a falling one never conducts |
| LadderGraph.SortEndsExactlyWhenRailIsHeld | crates/audesys-ld-semantics/src/lib.rs:205-221 | for every network, the sorting loop ends if and only if the rail has no incoming edge or one from a set of nodes that no seed can enter; and then after at most as many visits as there are nodes |
| LadderGraph.TopoComplete | crates/audesys-ld-semantics/src/lib.rs:198-222 | whenever the sort ends, it lists each node at most once and in edge order, and exactly the seeds and the nodes all of whose sources are listed |
| LadderGraph.HeldRailOnCycleEnds | crates/audesys-ld-semantics/src/lib.rs:205-221 | a rail on a cycle with an edge from a node that is never reached: the sort ends |
| LadderGraph.RailOnCycleDiverges | crates/audesys-ld-semantics/src/lib.rs:205-221 | the two-node cycle through the rail, on which the sort never ends |
| LadderGraph.RailChangeKeepsOrder | crates/audesys-ld-semantics/src/lib.rs:166-168 | for every network and node, making that node the rail keeps the order if and only if it was the rail, or there was none and it is the only node without incoming edges |
| LadderScan.SerialIsConjunction | crates/audesys-ld-semantics/src/lib.rs:720-732 | through construction, ordering and propagation a serial network conducts exactly when all its contacts are closed |
| LadderScan.ParallelIsDisjunction | crates/audesys-ld-semantics/src/lib.rs:738-760 | a parallel network conducts exactly when some non-empty branch has all its contacts closed, for any number of branches |
| LadderLatch.SetThenResetIsRs | crates/audesys-ld-semantics/src/lib.rs:656-706 | over every run of scans with any outside inputs, a Set rung above a Reset rung agrees scan by scan with the reset-dominant RS block fed with the power of the two rungs |
| LadderLatch.ResetThenSetIsSr | crates/audesys-ld-semantics/src/lib.rs:656-706 | a Reset rung above a Set rung agrees with the set-dominant SR block |
| LadderLatch.UnreadVariableInfluencesNothing | crates/audesys-ld-semantics/src/lib.rs:656-706 | a variable no contact reads changes neither the power of any rung nor any other variable |
| LadderLatch.LastCoilDecides | crates/audesys-ld-semantics/src/lib.rs:670-696 | on one variable the coils of a rung act as the last coil that writes it, evaluated against the store before the rung |
| LadderNetwork.ContactNetwork.RebuildTopo | crates/audesys-ld-semantics/src/lib.rs:198-222 | whenever they end, the loops with their in-degree array and stack compute the order the graph theory speaks about |
| LadderNetwork.ContactNetwork.TopologicalOrder | crates/audesys-ld-semantics/src/lib.rs:191-196 | a clean cache is returned, a dirty one recomputed, and coherence with a fresh computation is kept |
| LadderNetwork.ContactNetwork.AddNode | crates/audesys-ld-semantics/src/lib.rs:149-155 | adds a node and keeps adjacency and cache coherent |
| LadderNetwork.ContactNetwork.AddEdge | crates/audesys-ld-semantics/src/lib.rs:158-163 | adds an edge and keeps adjacency and cache coherent; a target that does not exist is accepted and leaves the network invalid |
| LadderNetwork.ContactNetwork.SetLeftRail | crates/audesys-ld-semantics/src/lib.rs:166-168 | sets the rail without marking the cache: a clean coherent cache stays coherent if and only if the node was the rail already, or there was none and the node is the only one without incoming edges |
| LadderNetwork.StaleOrder | crates/audesys-ld-semantics/src/lib.rs:166-168 | a network on which setting the rail after a query leaves a stale order that the next query returns |
| LadderNetwork.EvaluatePowerFlow | crates/audesys-ld-semantics/src/lib.rs:341-375 | the propagation loops compute the power flow along the cached order, stale or not, and the transition memory; along a coherent cache that is the power flow of the network |
| LadderNetwork.EdgeState.IsRising | crates/audesys-ld-semantics/src/lib.rs:296-303 | TRUE exactly when the variable is TRUE in the snapshot and was not in the memory; the memory then holds the variable as it is in the snapshot and is otherwise unchanged |
| LadderNetwork.EdgeState.IsFalling | crates/audesys-ld-semantics/src/lib.rs:306-312 | TRUE exactly when it is not TRUE in the snapshot and was in the memory, which changes likewise |
| LadderNetwork.BuildSerialNetwork | crates/audesys-ld-semantics/src/lib.rs:720-732 | builds the serial graph, with a coherent cache |
| LadderNetwork.BuildParallelNetwork | crates/audesys-ld-semantics/src/lib.rs:738-760 | builds the parallel graph, with a coherent cache |
| LadderNetwork.EvaluateCycle | crates/audesys-ld-semantics/src/lib.rs:647-710 | one scan over rung objects computes the scan function and returns, rung by rung, the contact states against the variables and the coil states the rung acts on, with the names of the powered coils |
| Values.TruncatingDivision | crates/audesys-hal-core/src/value.rs:197-255 | division and remainder truncate toward zero: the remainder is smaller than the divisor and has the sign of the dividend |
| Values.BitwiseBits | crates/audesys-hal-core/src/value.rs:226-249 | every bit of AND, OR and XOR is the operation on the bits in that place |
| Executor.VirtualMachine.ExecuteInstruction | crates/audesys-hal-ir/src/executor.rs:201-260 | dispatch over all instructions: registers, flag, pointer, signals, call stack and blocks end up as the transition function says, panics included |
| Executor.VirtualMachine.DoLoad | crates/audesys-hal-ir/src/executor.rs:264-284 | load from immediate, register or signal, an unset signal reading as FALSE |
| Executor.VirtualMachine.DoLoadIndex | crates/audesys-hal-ir/src/executor.rs:285-307 | reads an array element by a register index, zero past the end, with the abort on a wrapping slice |
| Executor.VirtualMachine.DoStoreIndex | crates/audesys-hal-ir/src/executor.rs:309-332 | replaces an array element, or leaves the array as it is past its end |
| Arrays.StoreThenLoad | crates/audesys-hal-core/src/value.rs:99-135 | an element read after a store is the value stored |
| Arrays.StoreKeepsOthers | crates/audesys-hal-core/src/value.rs:117-135 | a store leaves every other element as it was |
| Arrays.AbortsExactlyOnLastElement | crates/audesys-hal-core/src/value.rs:99-113 | access that the source calls panic-free aborts, for every array, exactly on the index whose element ends at the end of the address space |
| Arrays.MinusOneAborts | crates/audesys-hal-ir/src/executor.rs:334-346 | so a 32-bit index aborts exactly when it is -1 |
| Executor.VirtualMachine.DoArith | crates/audesys-hal-ir/src/executor.rs:348-358 | three-operand arithmetic with its out-of-range panics and the panics of division by zero and of the smallest signed number by -1 |
| Executor.VirtualMachine.DoRet | crates/audesys-hal-ir/src/executor.rs:449-466 | pops the call stack, or ends the run when it is empty |
| Executor.VirtualMachine.DoTimerRun | crates/audesys-hal-ir/src/executor.rs:480-578 | grows the table, runs one timer and leaves all other blocks alone |
| Executor.VirtualMachine.DoCounterRun | crates/audesys-hal-ir/src/executor.rs:608-690 | grows the table, runs one counter and leaves all other blocks alone |
| Executor.VirtualMachine.DoSrRun | crates/audesys-hal-ir/src/executor.rs:721-779 | the same for bistables |
| Executor.VirtualMachine.DoEdgeRun | crates/audesys-hal-ir/src/executor.rs:809-842 | the same for edge detectors |
| Executor.VirtualMachine.ResetAll | crates/audesys-hal-ir/src/vm.rs:192-200 | resets registers, flag, pointer, signals and calls and keeps block state and cycle time |
| Executor.RunTimer | crates/audesys-hal-ir/src/executor.rs:523-576 | the TON, TOF and TP state machines |
| Executor.RunCounter | crates/audesys-hal-ir/src/executor.rs:655-688 | the CTU, CTD and CTUD state machines |
| Executor.RunBistable | crates/audesys-hal-ir/src/executor.rs:752-777 | the SR and RS state machines |
| Executor.Runner.StepOnce | crates/audesys-hal-ir/src/executor.rs:92-119 | bounds check, breakpoint check, execution, trace and advance, in that order |
| Executor.Runner.RunToHalt | crates/audesys-hal-ir/src/executor.rs:127-136 | steps until a halt, a breakpoint or a panic and counts the steps |
| Executor.Runner.ResumeOnce | crates/audesys-hal-ir/src/executor.rs:191-197 | steps past a breakpoint untraced and leaves debug mode on |
| Machine.ReturnSkipsOne | crates/audesys-hal-ir/src/executor.rs:449-459 | a call that returns at once continues one instruction behind the one after the call |
| Machine.RunSettles | crates/audesys-hal-ir/src/executor.rs:127-136 | a run that has stopped stays as it is |
| Safety.SafeRun | crates/audesys-hal-ir/src/executor.rs:92-119 | no run of a statically safe program leaves the program or the register file; it aborts only on a division or array access that it contains |
| Safety.RunKeepsArrayFree | crates/audesys-hal-ir/src/executor.rs:285-332 | and one that starts without array elements never gets any |
| Debugger.DebuggingIsTransparent | crates/audesys-hal-ir/src/executor.rs:92-197 | for every schedule of step, resume, enable, disable and breakpoint edits, the machine is at a position of the undebugged run and the trace lists exactly the instructions executed by steps while debug mode was on |
| Debugger.CursorMovesForward | crates/audesys-hal-ir/src/executor.rs:92-119 | that position moves forward by at most one instruction per command, and the traced instructions are in order |
| Debugger.BreakChangesNothing | crates/audesys-hal-ir/src/executor.rs:96-99 | a step stops at a breakpoint exactly when debug mode is on and one is set here, and then changes nothing |
| Debugger.RunToHaltIsRun | crates/audesys-hal-ir/src/executor.rs:127-136 | with debug mode off, running to halt is the plain run of the machine |
| Debugger.DriveIsRun | crates/audesys-hal-ir/src/executor.rs:92-136 | until it halts, the undebugged run is the plain run of the machine |
| BlockHistory.OnDelay | crates/audesys-hal-ir/src/executor.rs:524-538 | TON: ET is the time of the current true run capped at PT, and Q is on exactly when that time has reached PT, for any cycle times |
| BlockHistory.OffDelay | crates/audesys-hal-ir/src/executor.rs:539-554 | TOF: Q holds until the time since the last true input reaches PT, and ET is that time capped at PT |
| BlockHistory.Pulse | crates/audesys-hal-ir/src/executor.rs:555-574 | TP: Q is on exactly while the input has stayed true since its rising edge and the time counted, this scan included, is below PT |
| BlockHistory.ElapsedWithinPreset | crates/audesys-hal-ir/src/executor.rs:480-578 | ET never exceeds PT in any history |
| BlockHistory.NarrowingExactIffPresetFits | crates/audesys-hal-ir/src/executor.rs:580-606 | reading ET through 32 bits is exact in every history if and only if PT is below 2^32, which a negative DINT preset is not |
| BlockHistory.CountUp | crates/audesys-hal-ir/src/executor.rs:661-667 | CTU: CV is the number of rising edges capped at PV, for PV below 2^32 - 1 |
| BlockHistory.CountUpWraps | crates/audesys-hal-ir/src/executor.rs:661-667 | with PV = 2^32 - 1, CV is the number of rising edges modulo 2^32 |
| BlockHistory.CountDown | crates/audesys-hal-ir/src/executor.rs:668-674 | CTD: without a load input CV stays zero and Q is on from the first scan |
| BlockHistory.CountUpDown | crates/audesys-hal-ir/src/executor.rs:675-687 | CTUD: CV stays between 0 and PV, and QU and QD report exactly the two ends |
| BlockHistory.CountUpDownClosed | crates/audesys-hal-ir/src/executor.rs:675-687 | CTUD with clamping: CV is the largest number that the edges since some moment support, the upper end clamping from any later moment, for PV below 2^32 - 1 |
| BlockHistory.CountBalance | crates/audesys-hal-ir/src/executor.rs:675-687 | CTUD: as long as neither end is hit, CV is the number of up edges minus the number of down edges |
| BlockHistory.EdgePulses | crates/audesys-hal-ir/src/executor.rs:834-840 | R_TRIG pulses exactly on rising and F_TRIG exactly on falling transitions |
| BlockHistory.NoDoublePulse | crates/audesys-hal-ir/src/executor.rs:834-840 | no detector pulses in two consecutive scans |
| BlockHistory.BistableRemembers | crates/audesys-hal-ir/src/executor.rs:753-777 | Q1 is on exactly when some scan set it and none reset it since |
| BlockHistory.BistableRemembersReset | crates/audesys-hal-ir/src/executor.rs:753-777 | Q2 is on exactly when some scan reset it and none set it since |
| BlockReadings.OnDelayRead | crates/audesys-hal-ir/src/executor.rs:492-538 | in any run in which all scans of timer i carry no kind operand or one other than 1 and 2, Q and ET read by the program are the on-delay closed form |
| BlockReadings.OffDelayRead | crates/audesys-hal-ir/src/executor.rs:492-554 | with U32(1) they are the off-delay form |
| BlockReadings.PulseRead | crates/audesys-hal-ir/src/executor.rs:492-574 | with U32(2) the pulse form |
| BlockReadings.CountUpRead | crates/audesys-hal-ir/src/executor.rs:608-719 | with kind operand 0, or none that is a U32, Q and CV read are those of counting up |
| BlockReadings.CountDownRead | crates/audesys-hal-ir/src/executor.rs:608-719 | with U32(1) CV stays zero and Q is on from the first scan |
| BlockReadings.CountBalanceRead | crates/audesys-hal-ir/src/executor.rs:608-719 | with any other kind CV is the balance of up and down edges as long as neither end is hit |
| BlockReadings.BistableRead | crates/audesys-hal-ir/src/executor.rs:721-807 | with U32(1) the reset wins, otherwise the set; Q1 and Q2 read tell which came last |
| BlockReadings.EdgeRead | crates/audesys-hal-ir/src/executor.rs:809-860 | with kind 0 the pulse is on exactly on rising, with 1 exactly on falling transitions of the last two scans |
| BlockMachine.TimerIsolated | crates/audesys-hal-ir/src/executor.rs:480-578 | in any run of any programs, with resets and outside writes in between, timer i goes through exactly the scans of the instructions that address it, as off-delay timer when they all carry U32(1), as pulse timer with U32(2) and as on-delay timer with any other or no fourth operand |
| BlockMachine.CounterIsolated | crates/audesys-hal-ir/src/executor.rs:608-690 | the same for counters, counting down with kind U32(1), up with U32(0) or an operand that is no U32, both ways with any other |
| BlockMachine.EdgeIsolated | crates/audesys-hal-ir/src/executor.rs:809-842 | the same for edge detectors |
| BlockMachine.BistableIsolated | crates/audesys-hal-ir/src/executor.rs:721-779 | the same for bistables |
| BlockMachine.ReadTimerExact | crates/audesys-hal-ir/src/executor.rs:580-606 | reading a timer in such a run gives its closed form, the elapsed time exactly when it fits in 32 bits, which it does for every preset that fits |
| BlockMachine.ReadCounterExact | crates/audesys-hal-ir/src/executor.rs:692-719 | reading a counter gives Q and CV of the counter of its own inputs |
| BlockMachine.ReadBistableExact | crates/audesys-hal-ir/src/executor.rs:781-807 | reading a bistable gives Q1 and Q2 of the bistable of its own inputs |
| BlockMachine.ReadEdgeExact | crates/audesys-hal-ir/src/executor.rs:844-860 | reading an edge detector gives the pulse of the detector of its own inputs |
| BlockMachine.RunIsTrace | crates/audesys-hal-ir/src/executor.rs:92-119 | every run of a program is such a sequence of executed instructions |
| BlockMachine.ResetFollows | crates/audesys-hal-ir/src/vm.rs:192-200 | a reset leaves every block as it is |
| MotionPath.ProgramMoves | crates/audesys-cnc-motion/src/profile.rs:129-176 | from any machine state the cruise program runs its loops exactly their cycle counts, to the step, and leaves every moving axis at its start plus its share of the path, in register and signal; having no halt, it then runs out of bounds |
| MotionPath.TotalPathClosed | crates/audesys-cnc-motion/src/profile.rs:97-116 | the path is (accelerating cycles + cruise cycles) times target speed times cycle time |
| MotionPath.Overshoot | crates/audesys-cnc-motion/src/profile.rs:97-116 | the path overshoots the distance by less than two cycles at full speed, and falls short only if a cycle count saturates at 32 bits |
| MotionPath.EndsNearTarget | crates/audesys-cnc-motion/src/profile.rs:235-249 | every moving axis ends within two cycles at full speed of its target |
| MotionPath.SpeedsWithinTarget | crates/audesys-cnc-motion/src/profile.rs:199-226 | no turn of any phase runs at a speed outside zero to target speed |
| MotionPath.AfterTurns | crates/audesys-cnc-motion/src/profile.rs:179-232 | after n turns of a phase the counter, speed and position are those of the arithmetic series |
| MotionCorrect.LoopRuns | crates/audesys-cnc-motion/src/profile.rs:203-231 | the loop of a phase runs exactly as many turns as its counter says |
| MotionCorrect.LoopProgress | crates/audesys-cnc-motion/src/profile.rs:205-231 | after every number of turns below that, control is back at the start of the loop with the state of that turn |
| MotionShort.ShortProgramMoves | crates/audesys-cnc-motion/src/profile.rs:252-306 | from any machine state the program of a move too short to cruise runs its loop exactly its cycle count, to the step, and leaves every moving axis at its start plus its share of the path; it too has no halt |
| MotionShort.ShortMoveRunsBackwards | crates/audesys-cnc-motion/src/profile.rs:114-127 | as long as doubling its half cycle count does not wrap, that path is within one cycle at peak speed of two distances backwards, in closed form |
| MotionShort.ShortMoveNeverAdvances | crates/audesys-cnc-motion/src/profile.rs:286-302 | no short move goes forwards, and one with a distance to go stays where it is exactly when its half cycle count is 2^31 |
| MotionShort.EndsBehindStart | crates/audesys-cnc-motion/src/profile.rs:286-302 | so every moving axis ends within one cycle at peak speed of the point two displacements behind its start |
| Motion.GenerateTrapezoidalProgram | crates/audesys-cnc-motion/src/profile.rs:58-176 | the generator emits the constants only for a move shorter than 1e-9, the three phases of a move long enough to cruise, and the one loop of a short move otherwise, for any acceleration and cycle time other than zero |
| Motion.Generator.EmitTriangularMotion | crates/audesys-cnc-motion/src/profile.rs:252-306 | the loop of a short move with its two patched jumps |
| Motion.Generator.EmitProfilePhase | crates/audesys-cnc-motion/src/profile.rs:179-232 | one phase, with its backward jump to the start of its loop |
| Motion.Generator.EmitAxisStep | crates/audesys-cnc-motion/src/profile.rs:235-249 | one axis step |
| Wire.SelfDelimiting | crates/audesys-runtime-client/src/lib.rs:114-204 | decoding the encoding of any value with any bytes behind it gives the value and exactly its length |
| Wire.EncodingsUnambiguous | crates/audesys-runtime-client/src/lib.rs:114-204 | a stream of encodings has only one reading |
| Wire.DecodesOnlyEncodings | crates/audesys-runtime-client/src/lib.rs:154-204 | what the decoder reads, re-encoded, is what was there, Booleans apart |
| Scalars.LeByteAt | crates/audesys-runtime-client/src/lib.rs:128-135 | integers are laid out lowest byte first |
| Wire.EncodeHalValue | crates/audesys-runtime-client/src/lib.rs:114-151 | the buffer built by appending |
| Wire.DecodeSnapshotResponse | crates/audesys-runtime-client/src/lib.rs:580-605 | the loop over the mutable offset reads the entries or reports the first truncation |
| Wire.SnapshotRoundTrip | crates/audesys-runtime-client/src/lib.rs:579-605 | a snapshot of up to 65535 entries decodes back to the same list |
| Wire.StrictRoundTripIffNotEmptyArray | crates/audesys-hal-core/src/encoding.rs:84-293 | the strict codec round-trips a value if and only if it is not a zero-length array |
| Wire.TypeBytes | crates/audesys-runtime-client/src/lib.rs:114-151 | the first byte of every type of value, number by number |
| Wire.ElementBytes | crates/audesys-runtime-client/src/lib.rs:114-151 | the element types of arrays, number by number, with their place in both codecs |
| Wire.NumberBytes | crates/audesys-runtime-client/src/lib.rs:114-151 | byte i of an integer is digit i of its two's complement to the base 256 |
| Wire.TextBytes | crates/audesys-runtime-client/src/lib.rs:114-151 | strings and blobs: tag, four length bytes, contents |
| Wire.ArrayLayout | crates/audesys-runtime-client/src/lib.rs:114-151 | arrays: tag, four length bytes, element tag, data |
| Wire.SnapshotLayout | crates/audesys-runtime-client/src/lib.rs:579-605 | two bytes of count, and for each entry two bytes of name length, the name and the value |

## Left out

- StProgram.CompilationPreservesMeaning: DINT variables only, because BOOL and INT copies go through an addition that those types do not have, and ARRAY variables never hold elements; accepted programs of other types are covered by StSafety and StScratch only.
- StProgram.ProgramCorrect: the bound on loop iterations only indexes the big-step semantics; GeneratedCodeExact quantifies over it.
- StSemantics.InPlaceIsStandard: one direction only, because an expression that reads its overwritten target can still agree by accident, as `0 * x` does.
- Arrays.StoreThenLoad: floating-point elements are the reals their formats hold; rounding, infinities, NaN and the sign of zero are not covered.
- Arrays.AbortsExactlyOnLastElement: offsets wrap as in builds without overflow checks; builds with them abort on more indices.
- BlockHistory.CountUpDownClosed: PV below the largest 32-bit number, at which counting wraps as CountUpWraps shows for CTU.
- Motion.GenerateTrapezoidalProgram: acceleration and cycle time other than zero, because dividing by zero gives an infinity that no real is; the two square roots are parameters.
- MotionPath.Overshoot: real arithmetic, so rounding of 64-bit floats is not covered.
- LadderNetwork.EvaluateCycle: asks for coherent caches, which every network has until its rail is set after a query; EvaluatePowerFlow covers stale ones.
- LdCorrect.LadderCompilationCorrect: NO and NC contacts in series and OUT coils only, because parallel contacts, transition contacts and latching coils compile to IL that never loads or stores the signal; LdSource states their text and IlLines what it does.
- LdSource.CompileSourceCorrectly: lines of one keyword and one variable without indentation; the tokens of every line are given by TokenizeLadder.
- IlCorrect.RunCorrect: LD, LDN, AND, ANDN, ST, NOT, labels and jumps only, because the code of the other lines works on registers and signals no IL meaning accounts for; IlLines states what each of them does on the machine.
- IlText.Tokenize: upper-casing covers ASCII letters only.
- LadderLatch.SetThenResetIsRs: the RS block is fed with the power of the two rungs; transition contacts start each scan without memory, as in the source.
- Wire.DecodeSnapshotResponse: the lenient conversion of names that are not UTF-8 is a parameter.
- StCodegen.Compile: FUNCTION definitions and the placeholder targets of generic calls are outside the model.
- Indices of instructions are not truncated to 32 bits except in jump targets.
- Overflow checks of debug builds: addition, subtraction, multiplication and negation of integers wrap, as in builds without them.
- Error texts and source positions of parser and compilers; statements and declarations of the ST parser.
- EN/ENO chains of ladder blocks.
- Signal bindings and program metadata attached to compiled programs.
- Other compilers (function block diagram, G-code, axis groups), arcs, the runtime's sockets, scheduling and user interfaces: input/output or little logic of their own.
