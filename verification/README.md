# VinCC and VinixOS in Dafny

A model of the two parts of the repository, with proofs.

**The VinCC compiler** turns programs of Subset C into ARMv7-A assembly. The model has every stage:
text to tokens (`Lexer.dfy`), tokens to trees (`Parser.dfy`), trees to three-address code
(`IrGenerator.dfy`), three-address code to assembly with a register allocator
(`CodeGenerator.dfy`, `RegisterAllocator.dfy`), and the division routine the assembly calls
(`Divmod.dfy`). Each stage is a class whose methods change their fields as the original's do, proved
against functions that say what they produce. What those functions mean is given without them: by
the grammar of the language (`Grammar.dfy`, `StatementGrammar.dfy`, `ProgramGrammar.dfy`), by a
printer and free layout (`Printer.dfy`, `ProgramPrinter.dfy`, `Layout.dfy`), by a big-step semantics of
the source (`Source.dfy`, and `Pointers.dfy` for memory), by a machine for three-address code
(`IrMachine.dfy`), by a machine for the assembly lines (`ArmMachine.dfy`) and by how an assembler reads
strings (`StringData.dfy`). The main results:

- `Toolchain.TextCorrect`: from a text to running code. It joins the next two.
- `ProgramGrammar.AcceptsExactly`: a text is accepted, as a program, if and only if its tokens are well
  formed and the grammar makes them that program.
- `Preservation`, `Compiler` and `Linking.ProgramCorrect`: in the assembly of a program whose
  functions call each other, a function returns what it means in the source, with the same calls
  outside in the same order, and obeys the procedure call standard; it runs for ever when the source
  does.
- `Printing.RoundTrip`, `ProgramPrinting.ProgramRoundTrip` and `Layout.ProgramLayout`: expressions and
  programs, printed or laid out in any way, are read back as they were.
- `ArmLabels.ProgramLocals` and `StringData.ProgramString`: no two local labels of a program clash, and
  the label of a string leads to its characters.

**The VinixOS kernel mechanisms**: context switch (`KernelCpu.dfy`, `ContextSwitch.dfy`), system call
and interrupt entry (`Exceptions.dfy`), first stacks (`TaskInit.dfy`), scheduler (`Scheduler.dfy`), file
descriptors (`FileSystem.dfy`), exec (`Loader.dfy`) and the files it takes (`ElfImage.dfy`), the other
system calls of compiled programs (`SvcHandler.dfy`), receive ring (`UartRing.dfy`), number printing
(`UartPrint.dfy`), and page table (`Mmu.dfy`). Assembly routines are instruction lists run by a model
of the registers, banked registers and memory. Main results: isolation of tasks over whole runs,
transparency of interrupts and system calls, the scheduler's invariant, the fate of every task over a
run and bounded waiting, descriptors as independent cursors, exactly which files exec loads and the
loaded image as a fold of their segments, and the meaning of every address under the page table.

**Between the two**, `SystemCalls.dfy` follows write, exit, yield and read from the compiled lines
through the kernel and back.

## The grammar

The repository describes Subset C by a simplified BNF. The parser's language, which `Grammar.dfy` and the
two files beside it write down, differs from it as follows. The model follows the parser.

- Only a name, possibly in parentheses, can be called. String literals are primary expressions.
- A statement may be a lone semicolon, and a variable declaration is a statement anywhere, also as the
  branch of an if; in functions its type is int or char.
- A list of parameters may end in a comma.
- Character literals have no escapes, although the description lists them.
- Text outside declarations that does not start with a type is not an error: the parser never ends.

## The domain of the compiler theorems

The code is modelled as it is. Where it does not do what the source means, a condition of the
theorems keeps the case out. For each of these a lemma says exactly when the code goes wrong once the
condition is dropped, in general or for the form of code it names, and there are inputs where it does:

- Names are flat in three-address code: no declaration hides another (`NoHiding`); blocks side by side
  may declare the same names. See `HidingExactly`, `HidingFails`.
- Temporaries, constants and string labels share that name space: no variable looks like one
  (`NameOk`). See `TempNameExactly`.
- `&&` and `||` evaluate both operands: the right one must be harmless (`Harmless`): no calls, no
  assignments, and no operation the machine does not get past. Divisions of constants and divisions
  by the variable a guard tests are harmless. See `EagerExactly`, `EagerCallFails`, `EagerAssignFails`.
- A variable used as a left operand is read after the right operand has run: the right operand must
  not assign it (`ScalarExpr`). See `LateReadExactly`, `LateReadFails`; `BinaryExactly` combines the
  two, for all operators.
- Constants all go to r12: at most one constant in an operation, or equal ones (`OneConstant`). See
  `TwoConstantsExactly`, `TwoConstantsFail`.
- Spilled names all use r4: at most eight names in a function, temporaries included (`Targetable`).
  See `EightNamesExactly`, `EightNamesFail`.
- A call takes every waiting parameter, as it is then: later arguments make no calls and assign no
  variable an earlier argument is read from (`ArgsFit`). See `InnerCallExactly`, `LateArgumentExactly`.
- Divisions are ones the runtime routine does (`Divides`). See `Divmod.Idiv`, `DivisionFails`,
  `DivisionHangs`.

Three conditions remain: at most four arguments and as many as the called function takes; no callee
named like a string label; and no inlined system calls (`Callee`). Their number is put into r7 although
r7 may hold a variable: `SystemCalls.SystemCall` says exactly when that does no harm. Pointers and arrays
have a meaning of their own in `Pointers.dfy`, with the exact conditions under which the code keeps to
it: `ElementExactly`, `GuardedReadExactly`, `StoreExactly`, `AddressIsValue`.

## Model

| member | source | states |
|---|---|---|
| Toolchain.TextCorrect | CrossCompiler/toolchain/main.py:163-237 | From text to running code: when the grammar makes a text the program ds, the text is accepted, and what any function of ds in the domain means, calls of other functions to any depth included, the assembly made of the text does: the same value, the same calls outside in the same order, and the procedure call standard obeyed |
| Linking.ProgramCorrect | CrossCompiler/toolchain/backend/armv7a/code_generator.py:100-360 | The compiler as a whole, on whole programs whose functions call each other to any depth, recursion included: for a function in the domain, if its body, with calls running the bodies of the functions called, ends with value v, then the assembly of the program, entered at that function with 36 bytes of stack for its frame and for each call in progress, comes back to the address in lr with v in r0, r4-r11, sp and the caller's memory as at entry (AAPCS32, section 6.1.1), having made the same calls outside with the same arguments in the same order; for every register assignment the allocator may pick |
| Linking.ProgramReflected | CrossCompiler/toolchain/backend/armv7a/code_generator.py:100-360 | Conversely, without undefined behaviour and called from outside, the assembly leaves the program only in a state its source means |
| Linking.ProgramDiverges | CrossCompiler/toolchain/backend/armv7a/code_generator.py:100-360 | A function that runs for ever in a loop of its own does so in the assembly of the program, and never faults |
| Linking.LinkedServes | CrossCompiler/toolchain/backend/armv7a/code_generator.py:304-346 | A bl to a function of the program comes back, by the rules, with the answer the source gives the call, by induction on the depth of calls |
| Linking.MeansMore | CrossCompiler/toolchain/backend/armv7a/code_generator.py:304-346 | The meaning of a call does not depend on the bounds on depth and loop turns under which it is found |
| Compiler.CompilerCorrect | CrossCompiler/toolchain/backend/armv7a/code_generator.py:100-360 | One function of a program: when the calls it makes of other functions of the program do what the source takes them to do, whatever its source body means its assembly does, and then it returns to its caller by the rules |
| Compiler.DivergenceCompiled | CrossCompiler/toolchain/backend/armv7a/code_generator.py:100-360 | When the source of a function runs for ever the assembly is still inside the program after any number of steps and has not faulted |
| Compiler.CompilerReflected | CrossCompiler/toolchain/backend/armv7a/code_generator.py:100-360 | Conversely, for a source without undefined behaviour, the state in which the assembly leaves the program is one the source means |
| Preservation.MeaningPreserved | CrossCompiler/toolchain/middleend/ir/ir_generator.py:101-416 | Lowering preserves meaning: a function that ends in the source ends in the three-address code, with the same value, calls and value of every variable (all statements, nested blocks, loops, assignments and calls) |
| Preservation.DivergencePreserved | CrossCompiler/toolchain/middleend/ir/ir_generator.py:191-266 | A source function that never ends never ends and never gets stuck in the three-address code |
| Preservation.MeaningReflected | CrossCompiler/toolchain/middleend/ir/ir_generator.py:101-416 | Conversely, for a source without undefined behaviour, whatever the code returns is what the source means |
| Preservation.HaltsOnce | CrossCompiler/toolchain/middleend/ir/ir_generator.py:101-118 | A run of the code returns at most one thing |
| ArmRuns.StepSimulated | CrossCompiler/toolchain/backend/armv7a/code_generator.py:65-360 | Every step of the three-address machine is matched by the lines emitted for it, from matching states to matching states |
| ArmRuns.RunSimulated | CrossCompiler/toolchain/backend/armv7a/code_generator.py:65-360 | Any number of steps is matched, and the assembly cannot stay still for ever while the code moves |
| Toolchain.Build | CrossCompiler/toolchain/main.py:163-237 | Text to assembly through lexer, parser, IR and code generator, for every text: rejected exactly when an error was reported, for ever in the parser exactly when its loop over declarations does not advance, otherwise the assembly the theorems above speak about |
| Toolchain.PrintedIsParsed | CrossCompiler/toolchain/main.py:163-190 | For a printed program, what the middle end starts from is that program |
| Toolchain.BuildsExactly | CrossCompiler/toolchain/main.py:163-190 | For every text and every program: the compiler accepts the text as that program if and only if its tokens are well formed and the grammar makes them that program |
| Toolchain.FunctionsAre | CrossCompiler/toolchain/middleend/ir/ir_generator.py:28-43 | The functions compiled are exactly the functions declared |
| Compiler.Compile | CrossCompiler/toolchain/main.py:219-237 | Middle end and back end together yield, for every program, the lines of its functions with bodies one after the other, under one good register assignment each |
| IrGenerator.IRGenerator.NewTemp | CrossCompiler/toolchain/middleend/ir/generators.py:17-28 | A fresh temporary, numbered by the counter, which advances by one |
| IrGenerator.IRGenerator.NewLabel | CrossCompiler/toolchain/middleend/ir/generators.py:43-54 | A fresh label, numbered by the counter, which advances by one |
| IrGenerator.IRGenerator.CreateStringLiteral | CrossCompiler/toolchain/middleend/ir/ir_generator.py:49-73 | In a list with one label for every string it defines, what comes back is the one label of this string, before and after alike; the literal is emitted the first time only |
| IrGenerator.IRGenerator.VisitExpression | CrossCompiler/toolchain/middleend/ir/ir_generator.py:280-320 | Appends the code of an expression and answers the operand that holds its value, as the specification LowerExpr says |
| IrGenerator.IRGenerator.VisitBinaryOp | CrossCompiler/toolchain/middleend/ir/ir_generator.py:322-330 | Left operand, right operand, then the operation into a fresh temporary, both operands always evaluated |
| IrGenerator.IRGenerator.VisitUnaryOp | CrossCompiler/toolchain/middleend/ir/ir_generator.py:332-353 | Operand, then a load or the operation into a fresh temporary |
| IrGenerator.IRGenerator.VisitAssignment | CrossCompiler/toolchain/middleend/ir/ir_generator.py:355-387 | Value first, then a copy or a store; the result is the variable or the value |
| IrGenerator.IRGenerator.VisitFunctionCall | CrossCompiler/toolchain/middleend/ir/ir_generator.py:389-400 | Each argument is evaluated and passed before the next; the call pops its own number |
| IrGenerator.IRGenerator.VisitArrayAccess | CrossCompiler/toolchain/middleend/ir/ir_generator.py:402-416 | Base plus unscaled index, then a load |
| IrGenerator.IRGenerator.VisitIf | CrossCompiler/toolchain/middleend/ir/ir_generator.py:154-189 | Appends the code of an if statement with its two labels |
| IrGenerator.IRGenerator.VisitWhile | CrossCompiler/toolchain/middleend/ir/ir_generator.py:191-223 | Appends the code of a while loop with its two labels |
| IrGenerator.IRGenerator.VisitFor | CrossCompiler/toolchain/middleend/ir/ir_generator.py:225-266 | Appends the code of a for loop, any of whose parts may be missing |
| IrGenerator.IRGenerator.VisitStatement | CrossCompiler/toolchain/middleend/ir/ir_generator.py:120-152 | Appends the code of any statement |
| IrGenerator.IRGenerator.VisitFunction | CrossCompiler/toolchain/middleend/ir/ir_generator.py:91-114 | Counters restart at a function, prototypes give nothing |
| IrGenerator.IRGenerator.Generate | CrossCompiler/toolchain/middleend/ir/ir_generator.py:28-43 | The instruction list of the whole program; from a fresh generator no two of its string literals have the same label or the same content |
| IrGenerator.LiteralUnique | CrossCompiler/toolchain/middleend/ir/ir_generator.py:49-73 | The operand a literal yields labels this string and no other: the list defines every string once, under a label of its own |
| IrGenerator.TableUnique | CrossCompiler/toolchain/middleend/ir/ir_generator.py:49-73 | The string table is one to one: distinct strings have distinct labels str_0, str_1, ..., and the list defines exactly the strings of the table |
| IrGenerator.FunctionTable | CrossCompiler/toolchain/middleend/ir/ir_generator.py:91-114 | Functions one after the other keep the table that of the list |
| StringData.ProgramString | CrossCompiler/toolchain/backend/armv7a/code_generator.py:362-381 | In the assembly of a whole program the label of a string literal leads to one .asciz line, which the assembler reads as exactly its characters, unless a function has the name of the label |
| StringData.EscapeReads | CrossCompiler/toolchain/backend/armv7a/code_generator.py:372-375 | What the code generator escapes, the assembler reads back, for every string |
| Lowering.ExprCorrect | CrossCompiler/toolchain/middleend/ir/ir_generator.py:280-400 | The straight-line code of an expression yields its value, its calls and its assignments, and disturbs only temporaries it drew |
| Lowering.BinaryCorrect | CrossCompiler/toolchain/middleend/ir/ir_generator.py:322-330 | A binary operation, with && and || evaluated eagerly, computes what short-circuit evaluation (sections 6.5.13 and 6.5.14 of ISO C99) does when the right operand is harmless |
| Lowering.ArgsCorrect | CrossCompiler/toolchain/middleend/ir/ir_generator.py:389-400 | Arguments arrive in order behind the parameters already waiting, calls inside arguments included |
| Pointers.PureComputes | CrossCompiler/toolchain/middleend/ir/ir_generator.py:332-416 | The code of any expression with *, [] and arithmetic computes its value on a memory of words, elements one byte apart, and changes nothing but its temporaries |
| Pointers.AssignmentWrites | CrossCompiler/toolchain/middleend/ir/ir_generator.py:355-387 | *p = v and a[i] = v write the value at the address, with elements one byte apart, and nothing else; the operand of the assignment is the value |
| Pointers.ElementExactly | CrossCompiler/toolchain/middleend/ir/ir_generator.py:402-416 | Indices are not scaled: a[i] of an array of int goes to the place C says if and only if i is 0 |
| Pointers.GuardedReadExactly | CrossCompiler/toolchain/middleend/ir/ir_generator.py:322-330 | p && *p reads through p: the code gets through if and only if there is a word at p, also when p is 0 and C does not read |
| LoweringStmt.StmtCorrect | CrossCompiler/toolchain/middleend/ir/ir_generator.py:120-278 | Running the code of a statement does what the statement means: it ends at the end of its code or returns, with agreeing stores |
| LoweringStmt.SeqCorrect | CrossCompiler/toolchain/middleend/ir/ir_generator.py:144-147 | The same for a list of statements |
| LoweringStmt.BlockCorrect | CrossCompiler/toolchain/middleend/ir/ir_generator.py:144-147 | The same for a block, whose scope ends with it although names in the code are flat |
| LoweringStmt.IfCorrect | CrossCompiler/toolchain/middleend/ir/ir_generator.py:154-189 | The same for if, with and without else |
| LoweringStmt.LoopCorrect | CrossCompiler/toolchain/middleend/ir/ir_generator.py:191-266 | The same for loops, every number of turns, including none and for ever |
| Source.FuelExec | CrossCompiler/toolchain/middleend/ir/ir_generator.py:120-278 | More fuel never changes what a source statement means |
| Labels.StmtLabels | CrossCompiler/toolchain/middleend/ir/ir_generator.py:154-266 | A statement defines exactly the labels it draws, each once, and jumps only to labels it defines |
| Labels.FunctionLabels | CrossCompiler/toolchain/middleend/ir/ir_generator.py:101-114 | In a generated function every label is defined exactly once and every jump goes to one of them |
| Labels.TargetIsDefinition | CrossCompiler/toolchain/middleend/ir/ir_generator.py:154-266 | A jump arrives at the definition of its label |
| LoweringLimits.BinaryExactly | CrossCompiler/toolchain/middleend/ir/ir_generator.py:322-330 | Every binary operation whose operands have a meaning is lowered right (value, calls and variables) if and only if, when C skips the right operand, that operand has no effect, and when C evaluates it, the operation yields the same on what the left operand reads as afterwards |
| LoweringLimits.LateReadExactly | CrossCompiler/toolchain/middleend/ir/ir_generator.py:290-291 | For any left operand read from a variable x and any operator: right if the right operand leaves x with the value it had, and only then if the operator tells left operands apart |
| LoweringLimits.SumsAreInjective | CrossCompiler/toolchain/middleend/ir/ir_generator.py:322-330 | Sums, differences and exclusive ors do tell them apart |
| LoweringLimits.LateReadFails | CrossCompiler/toolchain/middleend/ir/ir_generator.py:290-291 | x + (x = n) is computed as n + n |
| LoweringLimits.EagerExactly | CrossCompiler/toolchain/middleend/ir/ir_generator.py:322-330 | l && r and l || r are lowered right if and only if C evaluates r or r makes no call and changes no variable that has a value |
| LoweringLimits.EagerCallFails | CrossCompiler/toolchain/middleend/ir/ir_generator.py:322-330 | 0 && f() and 1 || f() call f |
| LoweringLimits.EagerAssignFails | CrossCompiler/toolchain/middleend/ir/ir_generator.py:322-330 | 0 && (x = n) and 1 || (x = n) assign x |
| LoweringLimits.HidingExactly | CrossCompiler/toolchain/middleend/ir/ir_generator.py:137-147 | A block, any statements, whose declarations hide outer variables runs right to its end, and leaves the outer variables right if and only if each hidden one has, by then, the value of the variable that hides it |
| LoweringLimits.HidingFails | CrossCompiler/toolchain/middleend/ir/ir_generator.py:137-142 | { int x = n; } changes an outer x |
| LoweringLimits.TempNameExactly | CrossCompiler/toolchain/middleend/ir/generators.py:17-28 | With a variable x named like the next temporary, x + -n is right if and only if x had the value -n already |
| RegisterAllocation.RegisterAllocator.Allocate | CrossCompiler/toolchain/backend/armv7a/register_allocator.py:32-59 | Whatever free register is picked, the name keeps it; a name without one is spilled to r4 and the frame grows by four |
| RegisterAllocation.RegisterAllocator.Free | CrossCompiler/toolchain/backend/armv7a/register_allocator.py:61-71 | Gives a name's register back to the pool and forgets the name |
| RegisterAllocation.RegisterAllocator.GetRegister | CrossCompiler/toolchain/backend/armv7a/register_allocator.py:73-83 | Exactly the names with a register get one: of the pool, in use, the one the code uses for the name, and no other name's |
| RegisterAllocation.RegisterAllocator.Reset | CrossCompiler/toolchain/backend/armv7a/register_allocator.py:127-133 | Everything free, nothing assigned |
| RegisterAllocation.RoomForEight | CrossCompiler/toolchain/backend/armv7a/register_allocator.py:32-59 | With at most eight names, a name that lacks a register finds one free |
| ArmLimits.EightNamesExactly | CrossCompiler/toolchain/backend/armv7a/register_allocator.py:53-59 | After x0 = 0; x1 = 1; ... every name has its own number in three-address code; in the assembly it does if and only if there are at most eight names, whichever registers are picked |
| ArmLimits.EightNamesFail | CrossCompiler/toolchain/backend/armv7a/register_allocator.py:53-59 | With nine names, some name does not hold its number |
| CodeGeneration.CodeGenerator.GetOperand | CrossCompiler/toolchain/backend/armv7a/code_generator.py:383-420 | The lines that make an operand available and the register it is then in |
| CodeGeneration.CodeGenerator.VisitBinaryOp | CrossCompiler/toolchain/backend/armv7a/code_generator.py:150-228 | The lines of a binary operation under the assignment reached, names already settled keeping their registers |
| CodeGeneration.CodeGenerator.VisitUnaryOp | CrossCompiler/toolchain/backend/armv7a/code_generator.py:230-246 | The lines of a unary operation |
| CodeGeneration.CodeGenerator.VisitAssign | CrossCompiler/toolchain/backend/armv7a/code_generator.py:248-258 | The lines of a copy, none when the registers coincide |
| CodeGeneration.CodeGenerator.VisitLoad | CrossCompiler/toolchain/backend/armv7a/code_generator.py:260-265 | The lines of a load |
| CodeGeneration.CodeGenerator.VisitStore | CrossCompiler/toolchain/backend/armv7a/code_generator.py:267-276 | The lines of a store |
| Pointers.LoadSimulated | CrossCompiler/toolchain/backend/armv7a/code_generator.py:260-265 | The lines of a load leave the word at the address in the name, every other name and the frame as they were |
| Pointers.StoreSimulated | CrossCompiler/toolchain/backend/armv7a/code_generator.py:267-276 | The lines of a store write the value at the address and leave every name alone, unless address and value are two constants |
| Pointers.StoreExactly | CrossCompiler/toolchain/backend/armv7a/code_generator.py:267-276 | With two constants the value is written at the address the value is; the memory is right if and only if they are equal or both places held the value already |
| Pointers.AddressIsValue | CrossCompiler/toolchain/backend/armv7a/code_generator.py:242-246 | The address of a variable comes out as its value |
| CodeGeneration.CodeGenerator.VisitCondGoto | CrossCompiler/toolchain/backend/armv7a/code_generator.py:286-302 | The lines of a conditional jump |
| CodeGeneration.CodeGenerator.VisitCall | CrossCompiler/toolchain/backend/armv7a/code_generator.py:313-346 | At most four waiting parameters are passed, then all are forgotten |
| CodeGeneration.CodeGenerator.VisitReturn | CrossCompiler/toolchain/backend/armv7a/code_generator.py:348-360 | The value into r0 and a branch to the epilogue |
| CodeGeneration.CodeGenerator.VisitFunctionEntry | CrossCompiler/toolchain/backend/armv7a/code_generator.py:100-124 | Labels and prologue; every register free again |
| CodeGeneration.CodeGenerator.VisitFunctionExit | CrossCompiler/toolchain/backend/armv7a/code_generator.py:126-144 | The epilogue |
| CodeGeneration.CodeGenerator.VisitInstruction | CrossCompiler/toolchain/backend/armv7a/code_generator.py:65-94 | The lines of any other instruction |
| CodeGeneration.CodeGenerator.Generate | CrossCompiler/toolchain/backend/armv7a/code_generator.py:29-48 | From the flat instruction list: the header and, function by function, the specified lines under one register assignment each, injective into the pool and total on eight names or fewer |
| CodeGeneration.CodeStable | CrossCompiler/toolchain/backend/armv7a/code_generator.py:65-94 | The lines depend only on the registers of the names used, so the assignment at the end of a function describes all of it |
| CodeGeneration.GenAppend | CrossCompiler/toolchain/backend/armv7a/code_generator.py:37-48 | Lines of consecutive code, the waiting parameters passed on |
| ArmSimulation.ConstantLoads | CrossCompiler/toolchain/backend/armv7a/code_generator.py:394-405 | A constant of any size ends up in r12 modulo 2^32 |
| ArmSimulation.BinaryRuns | CrossCompiler/toolchain/backend/armv7a/code_generator.py:150-228 | The lines of every operator compute it, and change nothing else the caller keeps |
| ArmSimulation.DivisionRuns | CrossCompiler/toolchain/backend/armv7a/code_generator.py:163-176 | Division and remainder through the runtime routines |
| ArmSimulation.ParamsPass | CrossCompiler/toolchain/backend/armv7a/code_generator.py:322-338 | The waiting parameters reach r0, r1, r2, r3 |
| ArmSimulation.CallSimulated | CrossCompiler/toolchain/backend/armv7a/code_generator.py:313-346 | A call of a function outside the program passes the values of its arguments, gets its answer, and keeps every name |
| ArmRuns.InsideStep | CrossCompiler/toolchain/backend/armv7a/code_generator.py:313-346 | A call of a function of the program: into it, through it, back to the line after the bl, the answer into its register, and every name kept |
| ArmSimulation.LocalSimulated | CrossCompiler/toolchain/backend/armv7a/code_generator.py:65-94 | Every instruction that moves to the next one is matched |
| ArmSimulation.BranchArrives | CrossCompiler/toolchain/backend/armv7a/code_generator.py:278-302 | A branch arrives at the code of its label |
| ArmRuns.EntryRuns | CrossCompiler/toolchain/backend/armv7a/code_generator.py:100-124 | From the function's label through the push to its first instruction, with every saved register in the frame |
| ArmRuns.PopReturns | CrossCompiler/toolchain/backend/armv7a/code_generator.py:126-144 | The pop of the epilogue undoes the push of the prologue |
| ArmRuns.ReturnStep | CrossCompiler/toolchain/backend/armv7a/code_generator.py:348-360 | A return leaves the function with the value in r0 |
| ArmDomain.FunctionShaped | CrossCompiler/toolchain/backend/armv7a/code_generator.py:304-346 | A function that satisfies the syntactic conditions generates only instructions the target can do, and no parameter waits across control flow |
| ArmLabels.ProgramLocals | CrossCompiler/toolchain/backend/armv7a/code_generator.py:126-144 | Over a whole program with distinct function names all local labels are pairwise distinct |
| ArmLabels.MarkInjective | CrossCompiler/toolchain/backend/armv7a/code_generator.py:278-280 | Function name and label can be read back from a local label |
| ArmLabels.FindIsDefinition | CrossCompiler/toolchain/backend/armv7a/code_generator.py:278-298 | Looking a local label up finds the one place that defines it |
| Compiler.FunctionAt | CrossCompiler/toolchain/backend/armv7a/code_generator.py:100-113 | Looking a function's name up in the program finds its entry |
| Compiler.FunctionCalm | CrossCompiler/toolchain/backend/armv7a/code_generator.py:313-346 | Every generated function consumes the parameters it passes |
| Compiler.ProgramIsFlat | CrossCompiler/toolchain/middleend/ir/ir_generator.py:28-43 | The instruction list is that of the functions with bodies, one after the other |
| ArmLimits.TwoConstantsExactly | CrossCompiler/toolchain/backend/armv7a/code_generator.py:394-405 | An operation on two constants is right if and only if the first might as well be the second |
| ArmLimits.TwoConstantsFail | CrossCompiler/toolchain/backend/armv7a/code_generator.py:394-405 | 7 - 5 comes out as 0 |
| ArmLimits.InnerCallExactly | CrossCompiler/toolchain/backend/armv7a/code_generator.py:322-330 | In f(x, g(y)) the call of g is right if and only if x and y have the same value |
| ArmLimits.InnerCallIsGenerated | CrossCompiler/toolchain/middleend/ir/ir_generator.py:389-400 | That is the code generated for f(x, g(y)) |
| ArmLimits.LateArgumentExactly | CrossCompiler/toolchain/backend/armv7a/code_generator.py:322-338 | f(x, x = a) passes the right arguments if and only if the assignment does not change x |
| ArmLimits.LateArgumentIsGenerated | CrossCompiler/toolchain/middleend/ir/ir_generator.py:389-400 | That is the code generated for f(x, x = a) |
| ArmDomain.GuardsAreScalar | CrossCompiler/toolchain/middleend/ir/ir_generator.py:322-330 | x && y / x, x != 0 && y / x and x == 0 || y / x, and the same with %, are in the domain: the routine returns for a divisor of 0 |
| ArmDomain.OperandsAreScalar | CrossCompiler/toolchain/middleend/ir/ir_generator.py:322-330 | So are divisions of a constant and shifts by anything on the right of && |
| Divmod.Idiv | CrossCompiler/toolchain/runtime/divmod.S:19-63 | Both loops end and the quotient is that of section 6.5.5 of ISO C99, truncated toward zero, if and only if the divisor is zero (quotient 0) or its aligned multiple stays below 2^31; the routine never ends exactly when the alignment loses its last bit |
| Divmod.Idivmod | CrossCompiler/toolchain/runtime/divmod.S:74-88 | The remainder of section 6.5.5 that belongs to the quotient, for the operands divided, and only for them is the quotient right; whatever the quotient, q d + r is the numerator modulo 2^32 |
| Divmod.DivisionFails | CrossCompiler/toolchain/runtime/divmod.S:41-55 | 2^30 / 1 is not divided right |
| Divmod.DivisionHangs | CrossCompiler/toolchain/runtime/divmod.S:41-46 | -2^31 / 1 never ends |
| Divmod.Align | CrossCompiler/toolchain/runtime/divmod.S:41-46 | The alignment loop doubles divisor and bit until the divisor exceeds the numerator, or never ends |
| Divmod.ShiftSubtract | CrossCompiler/toolchain/runtime/divmod.S:48-55 | The shift-subtract loop divides when the aligned divisor is below 2^31 |
| Divmod.SmallDivides | CrossCompiler/toolchain/runtime/divmod.S:41-55 | Every numerator below 2^30 in magnitude is divided right by every divisor but -2^31 |
| Divmod.DivisionLaw | CrossCompiler/toolchain/runtime/divmod.S:66-88 | n = q d + r, |r| < |d|, r has the sign of n |
| Lexing.Lexer.Advance | CrossCompiler/toolchain/frontend/lexer/lexer.py:38-50 | One character on, and no farther than the end |
| Lexing.Lexer.SkipWhitespace | CrossCompiler/toolchain/frontend/lexer/lexer.py:59-62 | Skips exactly the leading white space |
| Lexing.Lexer.SkipLineComment | CrossCompiler/toolchain/frontend/lexer/lexer.py:64-72 | Stands at the newline that ends the comment, or at the end of the text |
| Lexing.Lexer.SkipBlockComment | CrossCompiler/toolchain/frontend/lexer/lexer.py:74-99 | Skips to the first closing mark; an error if there is none |
| Lexing.Lexer.ReadIdentifier | CrossCompiler/toolchain/frontend/lexer/lexer.py:101-110 | The longest word |
| Lexing.Lexer.ReadNumber | CrossCompiler/toolchain/frontend/lexer/lexer.py:112-119 | The longest run of digits |
| Lexing.Lexer.ReadCharLiteral | CrossCompiler/toolchain/frontend/lexer/lexer.py:121-157 | Any one character between single quotes, no escapes |
| Lexing.Lexer.ReadStringLiteral | CrossCompiler/toolchain/frontend/lexer/lexer.py:159-212 | The characters up to the closing quote, escapes resolved |
| Lexing.Lexer.SkipPreprocessorDirective | CrossCompiler/toolchain/frontend/lexer/lexer.py:214-221 | Skips the line with its newline |
| Lexing.Lexer.ReadOperator | CrossCompiler/toolchain/frontend/lexer/lexer.py:301-391 | Two-character operators before one-character ones; anything else is an error and skipped |
| Lexing.Lexer.NextTurn | CrossCompiler/toolchain/frontend/lexer/lexer.py:230-391 | One turn of the loop: one token, one gap or one error, as the specification OneTurn says |
| Lexing.Lexer.Tokenize | CrossCompiler/toolchain/frontend/lexer/lexer.py:223-401 | The tokens and errors the specification Lex gives the whole text, ended by EOF; Layout and Printing.TokenLex say what those are |
| Parsing.Parser.Expect | CrossCompiler/toolchain/frontend/parser/parser.py:49-76 | Takes the next token whether or not it is the expected one, but never EOF |
| Parsing.Parser.DoSynchronize | CrossCompiler/toolchain/frontend/parser/parser.py:84-93 | Skips past the next semicolon or closing brace, or to EOF |
| Parsing.Parser.ParseExpression | CrossCompiler/toolchain/frontend/parser/parser.py:467-469 | On any tokens, well formed or not: ends, reads exactly what the specification ParseAt reads, and never passes EOF; Grammar says what that is |
| Parsing.Parser.ParseAssignment | CrossCompiler/toolchain/frontend/parser/parser.py:471-485 | Right associative assignment |
| Parsing.Parser.ParseBinary | CrossCompiler/toolchain/frontend/parser/parser.py:487-610 | The ten levels of left associative operators, as one method |
| Parsing.Parser.ParseUnary | CrossCompiler/toolchain/frontend/parser/parser.py:612-624 | Chains of prefix operators |
| Parsing.Parser.ParsePostfix | CrossCompiler/toolchain/frontend/parser/parser.py:626-670 | Indexing and calls; arguments of a callee that is no name are dropped with an error |
| Parsing.Parser.ParseArgList | CrossCompiler/toolchain/frontend/parser/parser.py:672-682 | Arguments separated by commas |
| Parsing.Parser.DoParsePrimary | CrossCompiler/toolchain/frontend/parser/parser.py:684-736 | Names, literals and parentheses; any other token is an error and skipped, except EOF |
| Parsing.Parser.ParseStatement | CrossCompiler/toolchain/frontend/parser/parser.py:296-345 | On any tokens: ends, takes at least one token or stands at EOF |
| Parsing.Parser.ParseCompound | CrossCompiler/toolchain/frontend/parser/parser.py:347-362 | The statements of a block, lost ones dropped |
| Parsing.Parser.DoParseIf | CrossCompiler/toolchain/frontend/parser/parser.py:364-383 | if, with an else going to the nearest if |
| Parsing.Parser.DoParseWhile | CrossCompiler/toolchain/frontend/parser/parser.py:385-399 | while |
| Parsing.Parser.DoParseFor | CrossCompiler/toolchain/frontend/parser/parser.py:401-430 | for, any part may be missing |
| Parsing.Parser.DoParseReturn | CrossCompiler/toolchain/frontend/parser/parser.py:432-446 | return |
| Parsing.Parser.DoParseExprStmt | CrossCompiler/toolchain/frontend/parser/parser.py:448-461 | Expression and empty statements |
| Parsing.Parser.DoParseVarRest | CrossCompiler/toolchain/frontend/parser/parser.py:260-290 | A variable declaration after its name |
| Parsing.Parser.DoParseParams | CrossCompiler/toolchain/frontend/parser/parser.py:207-258 | Parameters separated by commas |
| Parsing.Parser.DoParseFunction | CrossCompiler/toolchain/frontend/parser/parser.py:184-205 | A prototype or a definition |
| Parsing.Parser.ParseDeclaration | CrossCompiler/toolchain/frontend/parser/parser.py:124-158 | A declaration; nothing is taken if no type keyword stands there |
| Parsing.Parser.Parse | CrossCompiler/toolchain/frontend/parser/parser.py:99-118 | The program on any tokens, nothing when an error was reported; the loop never ends exactly when a turn does not find a type keyword, and then every further turn is the same |
| Parsing.ParseAt | CrossCompiler/toolchain/frontend/parser/parser.py:467-736 | An expression parser takes at least one token or stands at EOF |
| Parsing.ParseStmt | CrossCompiler/toolchain/frontend/parser/parser.py:296-345 | So does the statement parser |
| Parsing.ParseDecl | CrossCompiler/toolchain/frontend/parser/parser.py:124-158 | The declaration parser takes a token if and only if it stands at a type keyword |
| Decimal.ReadPlaces | CrossCompiler/toolchain/frontend/parser/parser.py:684-700 | The value of a numeral: its first digit counts ten times for each digit behind it |
| Parsing.SynchronizeMeans | CrossCompiler/toolchain/frontend/parser/parser.py:84-93 | Recovery goes on right behind the first semicolon or closing brace, or stays at the end when there is none |
| ProgramGrammar.ParsesExactly | CrossCompiler/toolchain/frontend/parser/parser.py:99-736 | The parser accepts tokens, as a program, if and only if the grammar makes them that program: nothing else is accepted without an error, nothing of the language is refused, and the tree is the one the grammar gives |
| ProgramGrammar.AcceptsExactly | CrossCompiler/toolchain/frontend/parser/parser.py:99-736 | The same for every text, through the lexer; the grammar is the documented one with the differences listed above |
| ProgramGrammar.Unambiguous | CrossCompiler/toolchain/frontend/parser/parser.py:99-736 | No tokens are two programs |
| ProgramGrammar.StrayHangs | CrossCompiler/toolchain/frontend/parser/parser.py:108-118 | Where declarations are followed by a token that begins none, the parser never ends |
| Grammar.ExprSound | CrossCompiler/toolchain/frontend/parser/parser.py:467-736 | What an expression parser takes without an error is an expression of its level in the grammar, on any tokens |
| Grammar.ExprComplete | CrossCompiler/toolchain/frontend/parser/parser.py:467-736 | Every expression of a level is read whole, as the tree the grammar gives it, when what follows cannot belong to it |
| StatementGrammar.StmtSound | CrossCompiler/toolchain/frontend/parser/parser.py:296-461 | What the statement parser takes without an error is a statement of the grammar, and an else that follows it belongs to no if inside |
| StatementGrammar.StmtComplete | CrossCompiler/toolchain/frontend/parser/parser.py:296-461 | Every statement of the grammar is read whole, as its tree |
| ProgramGrammar.LexSpelled | CrossCompiler/toolchain/frontend/lexer/lexer.py:223-401 | The lexer ends every text with one EOF and makes only digits into numbers |
| Printing.RoundTrip | CrossCompiler/toolchain/frontend/parser/parser.py:467-718 | Print-lex-parse round trip: an expression printed with only the parentheses the precedences of sections 6.5.5 to 6.5.14 of ISO C99 ask for, then any text that does not continue it, is read back as that expression, and exactly the tokens of that text are left |
| Printing.ExprTrip | CrossCompiler/toolchain/frontend/parser/parser.py:467-718 | The same on tokens, at every precedence level of the standard |
| Printing.LevelTrip | CrossCompiler/toolchain/frontend/parser/parser.py:487-610 | Left associativity: operators of the level that follow are left to the loop |
| Printing.Grouping | CrossCompiler/toolchain/frontend/parser/parser.py:487-610 | For all operators and all primary and postfix operands: a op1 b op2 c is read as (a op1 b) op2 c when op1 comes no later than op2 in sections 6.5.5 to 6.5.14 of ISO C99, and as a op1 (b op2 c) otherwise |
| Printing.LevelsAreStandard | CrossCompiler/toolchain/frontend/parser/parser.py:487-610 | The parser's ten levels are those of the standard |
| Printing.PostTrip | CrossCompiler/toolchain/frontend/parser/parser.py:626-670 | Postfix operators that follow are left to the loop |
| Printing.ArgsTrip | CrossCompiler/toolchain/frontend/parser/parser.py:672-682 | Argument lists |
| Printing.LexTrip | CrossCompiler/toolchain/frontend/lexer/lexer.py:223-401 | Tokens written with spaces between them are read back, whatever text follows |
| Printing.TokenLex | CrossCompiler/toolchain/frontend/lexer/lexer.py:223-401 | Any token, in any text that does not continue it, is read as that token, and the text after it as if it stood alone |
| Layout.GapSkipped | CrossCompiler/toolchain/frontend/lexer/lexer.py:59-221 | White space, a line comment, a block comment and a directive in front of any text change neither its tokens nor its errors |
| Layout.LineCommentSkipped | CrossCompiler/toolchain/frontend/lexer/lexer.py:64-72 | A line comment ends with its line, whatever follows |
| Layout.BlockCommentSkipped | CrossCompiler/toolchain/frontend/lexer/lexer.py:74-99 | A block comment ends at its first closing mark, whatever follows |
| Layout.DirectiveSkipped | CrossCompiler/toolchain/frontend/lexer/lexer.py:214-221 | A directive ends with its line, whatever follows |
| Layout.LayoutReads | CrossCompiler/toolchain/frontend/lexer/lexer.py:223-401 | However tokens are laid out, with any gaps where none is needed and some where one is, exactly they are read, and then what follows |
| Layout.ProgramLayout | CrossCompiler/toolchain/frontend/parser/parser.py:99-205 | A program in any layout is read as that program |
| Layout.FlawsRefused | CrossCompiler/toolchain/frontend/lexer/lexer.py:74-212 | Wherever it stands in a text, a comment or string that is never closed, a character without its quotes, or a character that starts no token is reported |
| Printing.QuoteReads | CrossCompiler/toolchain/frontend/lexer/lexer.py:159-212 | A quoted string is read back, whatever its characters |
| ProgramPrinting.StmtTrip | CrossCompiler/toolchain/frontend/parser/parser.py:296-461 | Statements are read back too, when no else would go to an inner if |
| ProgramPrinting.ProgramRoundTrip | CrossCompiler/toolchain/frontend/parser/parser.py:99-205 | So are whole programs, without errors and to the end of the text, precedences those of the standard |
| ContextSwitching.Isolation | VinixOS/kernel/src/arch/arm/scheduler/context_switch.S:34-98 | Over whole runs: a task switched out finds, after any finite number of switches among other tasks, r3-r11, lr_svc, sp_svc, sp_usr, lr_usr and its stack from sp_svc up as they were, and goes on after its call |
| ContextSwitching.SwitchEffect | VinixOS/kernel/src/arch/arm/scheduler/context_switch.S:34-98 | One call of context_switch lays the current task out in memory and loads the next one as it was laid out |
| ContextSwitching.LaysOut | VinixOS/kernel/src/arch/arm/scheduler/context_switch.S:39-61 | The first half leaves the current task laid out as it is |
| ContextSwitching.LoadsTask | VinixOS/kernel/src/arch/arm/scheduler/context_switch.S:66-98 | The second half, and start_first_task, give a laid out task everything back |
| ContextSwitching.OutsideKept | VinixOS/kernel/src/arch/arm/scheduler/context_switch.S:39-61 | The first half writes only the frame and the task structure |
| ContextSwitching.TurnKeeps | VinixOS/kernel/src/arch/arm/scheduler/context_switch.S:34-98 | A switch keeps every other task's layout and memory |
| ContextSwitching.ParkedStays | VinixOS/kernel/src/arch/arm/scheduler/context_switch.S:34-98 | While a task does not run, what it has to find again stays the same |
| ContextSwitching.RunKeeps | VinixOS/kernel/src/arch/arm/scheduler/context_switch.S:34-98 | The invariant holds after any run |
| Exceptions.InterruptTransparent | VinixOS/kernel/src/arch/arm/exceptions/exception_entry.S:240-289 | An interrupt, taken in user code or in a handler, returns with r0-r12, lr_svc, sp_svc, sp_usr, lr_usr, pc and cpsr unchanged and nothing on the task's stack touched but the free part of the kernel's |
| Exceptions.SyscallTransparent | VinixOS/kernel/src/arch/arm/exceptions/exception_entry.S:86-144 | A system call, interleaved with any interrupts and any switches away and back, returns to the instruction after svc with only r0 changed, to what the handler left in its slot |
| Exceptions.SvcEnters | VinixOS/kernel/src/arch/arm/exceptions/exception_entry.S:95-120 | The frame the handler sees: status, padding, r0-r12, return address; interrupts on again |
| Exceptions.SvcLeaves | VinixOS/kernel/src/arch/arm/exceptions/exception_entry.S:126-144 | Everything comes out of the frame, whoever wrote it |
| Exceptions.IrqEnters | VinixOS/kernel/src/arch/arm/exceptions/exception_entry.S:240-272 | The frame of an interrupt |
| Exceptions.IrqLeaves | VinixOS/kernel/src/arch/arm/exceptions/exception_entry.S:276-289 | And the way back out of it |
| Exceptions.ServingStays | VinixOS/kernel/src/kernel/core/svc_handler.c:621-697 | Handler code, interrupts and switches keep the frame, sp_usr and lr_usr |
| TaskInit.Ram.TaskStackInit | VinixOS/kernel/src/kernel/scheduler/task.c:41-165 | What the routine writes: canary, both frames and the task structure; it panics exactly when a stack pointer ends at or below the base |
| TaskInit.Ram.PushUserFrame | VinixOS/kernel/src/kernel/scheduler/task.c:63-81 | The exception frame: entry point, r12 to r0 patterns, padding, mode |
| TaskInit.Ram.PushKernelFrame | VinixOS/kernel/src/kernel/scheduler/task.c:90-97 | The switch frame: the way out, then nine zeros |
| TaskInit.BootLaidOut | VinixOS/kernel/src/kernel/scheduler/task.c:41-165 | The frames are those of a suspended task with an exception frame above, and the canary is intact |
| TaskInit.FirstTaskStarts | VinixOS/kernel/src/arch/arm/scheduler/context_switch.S:110-132 | start_first_task and the way out of a system call arrive at the entry point, in User mode below 0xC0000000 and SVC mode otherwise, interrupts enabled, with r_i = 0x0BAD0000 + i and both stack pointers at their tops; the canary is intact |
| TaskInit.SwitchedTaskStarts | VinixOS/kernel/src/arch/arm/scheduler/context_switch.S:66-98 | So does a switch from another task |
| Scheduling.NeverPanics | VinixOS/kernel/src/kernel/scheduler/scheduler.c:174-391 | In every reachable state (two tasks or more, canaries intact, idle not terminated) the current task and only it is running, no panic and no fallback is reached, and a switch goes to a task that was ready |
| Scheduling.RunsKeep | VinixOS/kernel/src/kernel/scheduler/scheduler.c:174-391 | The invariant over all runs of tick, yield, terminate and add |
| Scheduling.ZombieForever | VinixOS/kernel/src/kernel/scheduler/scheduler.c:195-233 | A terminated task never runs again |
| Scheduling.BoundedWaiting | VinixOS/kernel/src/kernel/scheduler/scheduler.c:279-346 | A ready task that is not terminated runs once as many yields reschedule as it is slots away |
| Scheduling.ThreeYields | VinixOS/kernel/src/kernel/scheduler/scheduler.c:279-346 | MAX_TASKS - 1 such yields are always enough |
| Scheduling.WaitingStep | VinixOS/kernel/src/kernel/scheduler/scheduler.c:279-346 | Every rescheduling yield brings a waiting task strictly nearer |
| Scheduling.PanicsExactly | VinixOS/kernel/src/kernel/scheduler/scheduler.c:307-321 | A rescheduling yield panics if and only if the current and the idle task are terminated and nobody is ready |
| Scheduling.SearchNearest | VinixOS/kernel/src/kernel/scheduler/scheduler.c:286-305 | The loop finds the nearest ready slot |
| Scheduling.EventMeans | VinixOS/kernel/src/kernel/scheduler/scheduler.c:85-391 | Every event state by state: a yield hands over to the nearest ready task, leaves the one that ran ready, and changes no third; a termination makes that one task a zombie; a new task is ready in the next slot; nothing else changes |
| Scheduling.YieldMeans | VinixOS/kernel/src/kernel/scheduler/scheduler.c:242-391 | In any state that can come about: a yield nobody asked for does nothing; one that was asked for clears the wish and switches if and only if another task is ready, to the nearest one |
| Scheduling.Fates | VinixOS/kernel/src/kernel/scheduler/scheduler.c:174-391 | Over all runs: a task is a zombie if and only if it was one or one of the events terminates it while its slot is in use; yields and ticks end nobody |
| Scheduling.Scheduler.AddTask | VinixOS/kernel/src/kernel/scheduler/scheduler.c:85-108 | Slot, id and state of a new task, or -1 when the table is full |
| Scheduling.Scheduler.Start | VinixOS/kernel/src/kernel/scheduler/scheduler.c:118-151 | The first task is running; with at least two tasks the invariant of all runs holds |
| Scheduling.Scheduler.TickHandler | VinixOS/kernel/src/kernel/scheduler/scheduler.c:174-187 | Only sets the flag, only once started |
| Scheduling.Scheduler.TerminateTask | VinixOS/kernel/src/kernel/scheduler/scheduler.c:195-233 | The task is a zombie; one that terminates itself yields at once |
| Scheduling.Scheduler.YieldNow | VinixOS/kernel/src/kernel/scheduler/scheduler.c:242-391 | The whole yield, branch by branch, on the task structures, as the specification Yield says; YieldMeans and EventMeans say what that is |
| Scheduling.Scheduler.FindReady | VinixOS/kernel/src/kernel/scheduler/scheduler.c:279-305 | The search loop |
| Scheduling.Scheduler.HandOver | VinixOS/kernel/src/kernel/scheduler/scheduler.c:338-346 | States and current task after a switch, as the specification Handed says; EventMeans says what that is |
| FileSystem.Cursor | VinixOS/kernel/src/kernel/fs/vfs.c:168-194 | Over any operations on any descriptors, what is read from one that is not closed is exactly the part of its file its cursor moves over |
| FileSystem.OpenedPrefix | VinixOS/kernel/src/kernel/fs/vfs.c:119-212 | From opening on, the reads of a descriptor are a prefix of its file; 0 to 2 are never handed out |
| FileSystem.ZeroExactly | VinixOS/kernel/src/kernel/fs/ramfs.c:84-105 | A read gives 0 if and only if nothing was asked for or the file is at its end |
| FileSystem.OpenKeeps | VinixOS/kernel/src/kernel/fs/vfs.c:119-163 | Opening takes a free descriptor from 3 up, or changes nothing |
| FileSystem.OpenMeans | VinixOS/kernel/src/kernel/fs/vfs.c:119-163 | For every path and flags: open succeeds if and only if the flags are read-only, the root is mounted, a file has the name the path gives, with or without its slash, and a descriptor is free; it then hands out the lowest free one for the first file of that name at offset 0, and otherwise names the first of these that fails |
| FileSystem.OpenCloses | VinixOS/kernel/src/kernel/fs/vfs.c:119-212 | Closing undoes opening; a second close is an error |
| FileSystem.ReadMeans | VinixOS/kernel/src/kernel/fs/vfs.c:168-194 | Every read, on every descriptor: as many bytes as were asked for and are left, from the cursor on, which moves past them, and no other descriptor changes; or the error |
| FileSystem.RootedExactly | VinixOS/kernel/src/kernel/fs/vfs.c:70-110 | A file system is found if and only if one is mounted at the root |
| FileSystem.Vfs.VfsOpen | VinixOS/kernel/src/kernel/fs/vfs.c:119-163 | The descriptor or the error of open, and the table after it |
| FileSystem.Vfs.VfsRead | VinixOS/kernel/src/kernel/fs/vfs.c:168-194 | Bytes, count or error, and the cursor after it |
| FileSystem.Vfs.VfsClose | VinixOS/kernel/src/kernel/fs/vfs.c:199-212 | The descriptor free again, or an error |
| FileSystem.Vfs.MountAt | VinixOS/kernel/src/kernel/fs/vfs.c:70-95 | Takes a free slot, or fails when there is none |
| FileSystem.Vfs.FindFs | VinixOS/kernel/src/kernel/fs/vfs.c:100-110 | Whether a file system is mounted at the root |
| FileSystem.Vfs.RamfsLookup | VinixOS/kernel/src/kernel/fs/ramfs.c:70-79 | The first file of that name |
| FileSystem.Vfs.RamfsRead | VinixOS/kernel/src/kernel/fs/ramfs.c:84-105 | Copies what the file has to give from the offset on |
| Loader.ExecLoads | VinixOS/kernel/src/kernel/core/svc_handler.c:522-616 | When exec succeeds and no loadable segment touches the path buffer, user memory is the fold, in header order, of each segment's file bytes and zero fill up to its memory size |
| ElfImage.ExecExactly | VinixOS/kernel/src/kernel/core/svc_handler.c:522-616 | For every ELF file, from its bytes: exec answers E_OK if and only if the file system is mounted, a descriptor is free (two for a loadable segment), the written header fields are the accepted ones, every header is there, and every PT_LOAD segment lies in the window and in the file; memory is then that of the written segments |
| ElfImage.ExecRefuses | VinixOS/kernel/src/kernel/core/svc_handler.c:522-560 | Without a file of that name, a descriptor or a whole header, what exec answers instead; memory stays as it was |
| ElfImage.FileHeaderReads | VinixOS/kernel/src/kernel/core/svc_handler.c:35-51 | The 52 bytes of an ELF header, every field written little-endian in its place, are read back field by field |
| ElfImage.ProgramHeaderReads | VinixOS/kernel/src/kernel/core/svc_handler.c:53-63 | The 32 bytes of a program header are read back field by field, p_paddr, p_flags and p_align skipped |
| ElfImage.AcceptedExactly | VinixOS/kernel/src/kernel/core/svc_handler.c:161-197 | The header check accepts exactly 32-bit little-endian ARM executables of version 1 with headers of 32 bytes right behind it, at least one of them, and an entry point in the window |
| ElfImage.EveryFile | VinixOS/kernel/src/kernel/core/svc_handler.c:553-570 | Every file is a header, a table of whole program headers, and a rest |
| Loader.LoadedByte | VinixOS/kernel/src/kernel/core/svc_handler.c:572-604 | A byte belongs to the last segment that covers it: its file's byte there, or zero past the file size |
| Loader.OtherBytes | VinixOS/kernel/src/kernel/core/svc_handler.c:572-604 | A byte outside every segment is as it was |
| Loader.SegmentsLoad | VinixOS/kernel/src/kernel/core/svc_handler.c:553-605 | The loop over the headers, the path read again each time |
| Loader.Kernel.SysExec | VinixOS/kernel/src/kernel/core/svc_handler.c:522-616 | Every outcome of exec, errors with their partial writes included, as the specification Exec says, which ElfImage ties to the bytes of the file; on success r0 to r3 of the saved context are 0 and its lr is the entry point, otherwise it stays; the descriptors in use are as before |
| Loader.Kernel.LoadHeader | VinixOS/kernel/src/kernel/core/svc_handler.c:553-604 | One program header, read from its 32 bytes at its place in the file; ElfImage.ProgramHeaderReads says what is read |
| Loader.Kernel.LoadSegment | VinixOS/kernel/src/kernel/core/svc_handler.c:578-604 | One segment through a descriptor of its own |
| Loader.Kernel.VfsReadExact | VinixOS/kernel/src/kernel/core/svc_handler.c:124-140 | Succeeds if and only if enough bytes remain |
| Loader.Kernel.VfsSkipBytes | VinixOS/kernel/src/kernel/core/svc_handler.c:142-159 | Moves the cursor, and succeeds if and only if enough bytes remain |
| Loader.PointerOkExactly | VinixOS/kernel/src/kernel/core/svc_handler.c:101-122 | The check accepts exactly the ranges inside the window |
| SystemCalls.SystemCall | CrossCompiler/toolchain/backend/armv7a/syscall_support.py:10-52 | From the compiler to the kernel and back: the lines of write, exit, yield and read bring the arguments to r0 to r3 and to r7 a number for which the kernel does what the name says; on return the answer is in the name that takes it, and every other name keeps its value if and only if none lives in r7 with a value other than that number |
| SystemCalls.NamesMeant | VinixOS/kernel/include/syscalls.h:9-12 | The number the compiler gives each name is the one under which the kernel serves it |
| SystemCalls.NumberStays | CrossCompiler/toolchain/backend/armv7a/syscall_support.py:38-42 | A name in r7 that is still needed holds the number of the call afterwards |
| SystemCalls.CallArrives | CrossCompiler/toolchain/backend/armv7a/code_generator.py:322-338 | At the svc the number is in r7 and the waiting values are in r0 to r3 |
| SystemCalls.CallReturns | CrossCompiler/toolchain/backend/armv7a/code_generator.py:342-346 | The way back from the kernel, with the exact condition for the names |
| SvcHandler.WriteExactly | VinixOS/kernel/src/kernel/core/svc_handler.c:203-255 | write(fd, buf, count) is served as a program means it (errors in order, then the bytes with a carriage return before each newline, and their number) if and only if fd and buf are not by chance an address and a length in the window |
| SvcHandler.LegacyWriteExactly | VinixOS/kernel/src/kernel/core/svc_handler.c:203-255 | write(buf, count), the other order, is served as meant unless the buffer is outside the window and the count is an address inside it |
| SvcHandler.ReadExactly | VinixOS/kernel/src/kernel/core/svc_handler.c:320-401 | read(fd, buf, count) is served as a program means it, at most one byte and without waiting, if and only if fd and buf are not by chance an address and a length in the window |
| SvcHandler.LegacyReadExactly | VinixOS/kernel/src/kernel/core/svc_handler.c:320-401 | The same for read(buf, count) |
| SvcHandler.CookedExactly | VinixOS/kernel/src/kernel/core/svc_handler.c:243-252 | What is sent for a text is the one sequence of bytes in which every newline follows a carriage return and which is the text without those |
| SvcHandler.YieldServed | VinixOS/kernel/src/kernel/core/svc_handler.c:296-318 | yield always asks for a reschedule, hands over to the nearest ready task if there is one, and answers 0 with nothing else of its caller changed |
| SvcHandler.ExitServed | VinixOS/kernel/src/kernel/core/svc_handler.c:257-294 | exit terminates its caller and another task runs; the shell instead starts anew with its own program in the window |
| SvcHandler.Kernel.SvcHandler | VinixOS/kernel/src/kernel/core/svc_handler.c:621-697 | The dispatch on r7, unknown numbers included; the answer into the saved r0 |
| SvcHandler.Kernel.SysWrite | VinixOS/kernel/src/kernel/core/svc_handler.c:203-255 | All branches of sys_write, as the specification WriteService says |
| SvcHandler.Kernel.SendText | VinixOS/kernel/src/kernel/core/svc_handler.c:243-252 | The loop that sends the bytes |
| SvcHandler.Kernel.SysRead | VinixOS/kernel/src/kernel/core/svc_handler.c:320-401 | All branches of sys_read |
| SvcHandler.Kernel.SysExit | VinixOS/kernel/src/kernel/core/svc_handler.c:257-294 | Both ways of sys_exit |
| SvcHandler.Kernel.ReloadShell | VinixOS/kernel/src/kernel/core/svc_handler.c:268-278 | The loop that copies the shell back |
| UartRing.FirstInFirstOut | VinixOS/kernel/src/drivers/uart.c:70-128 | Under every interleaving of interrupts and readers, what readers got followed by what is buffered is what was there followed by what was accepted |
| UartRing.Conservation | VinixOS/kernel/src/drivers/uart.c:70-253 | Error-free characters received are delivered, buffered, counted as overflow, or cleared |
| UartRing.InterruptAppends | VinixOS/kernel/src/drivers/uart.c:99-127 | One interrupt appends what it takes and counts what it loses |
| UartRing.UartRx.Store | VinixOS/kernel/src/drivers/uart.c:117-126 | One character: stored, or counted when 255 are there |
| UartRing.UartRx.RxIrqHandler | VinixOS/kernel/src/drivers/uart.c:70-128 | The handler empties the hardware FIFO into the queue |
| UartRing.UartRx.GetChar | VinixOS/kernel/src/drivers/uart.c:210-233 | Takes the oldest byte |
| UartRing.UartRx.ClearRing | VinixOS/kernel/src/drivers/uart.c:247-253 | Empties the queue |
| UartRing.UartRx.RxAvailable | VinixOS/kernel/src/drivers/uart.c:235-245 | Even if interrupted between its two reads, it never answers more than can then be read |
| UartPrint.SimpleUdivmod | VinixOS/kernel/src/drivers/uart.c:269-291 | The true quotient and remainder for every n and every d, no shift leaving 32 bits; zero for d = 0 |
| UartPrint.PrintUint | VinixOS/kernel/src/drivers/uart.c:293-314 | At most 32 digits, no leading zero, and reading them back gives the number |
| UartPrint.DivisionStep | VinixOS/kernel/src/drivers/uart.c:279-287 | One turn of the division loop |
| Mmu.FinalMeans | VinixOS/kernel/src/kernel/mmu/mmu.c:50-59 | After the removal, the section walk of every address, in both modes, for reads, writes and instruction fetches, gives exactly the declared physical address or a fault; RAM is normal memory, cached with write-back and write-allocate and shareable; peripherals are strongly ordered and never executed |
| Mmu.BootMeans | VinixOS/kernel/src/kernel/mmu/mmu.c:112-164 | The same before the removal, with the identity mapping |
| Mmu.UserReach | VinixOS/kernel/include/mmu.h:119-128 | User mode reaches only the user megabyte, never a physical address the kernel's memory maps to |
| Mmu.HighAndIdentityAgree | VinixOS/kernel/src/kernel/mmu/mmu.c:148-163 | Before the removal the kernel's high addresses and their identity addresses translate alike |
| Mmu.BuildPageTable | VinixOS/kernel/src/kernel/mmu/mmu.c:112-164 | What the boot builder leaves in all 4096 entries |
| Mmu.MapRange | VinixOS/kernel/src/kernel/mmu/mmu.c:127-163 | One mapping loop |
| Mmu.RemoveIdentity | VinixOS/kernel/src/kernel/mmu/mmu.c:50-59 | What the removal loop leaves |
| Mmu.SectionMeans | VinixOS/kernel/include/mmu.h:26-68 | What the three descriptor words mean: section, base, domain, access rights, kind of memory, execute-never |

## Left out

- Pointers, arrays, `&` and `*`: `Pointers.dfy` gives them a meaning one expression or assignment at a time, for expressions without calls and assignments inside; they are not part of the theorems on whole functions, since no storage is set aside for arrays. Words of memory are independent of each other: unaligned overlaps and the single bytes of a char array are not modelled.
- Global variables: parsed, then ignored, as the IR generator ignores them; they have no storage to give a meaning to.
- char as a narrower type: every variable is a 32-bit int; the generator does not distinguish them either.
- Function parameters: parsed as names and dropped; the code generator never binds them at entry.
- Types in syntax trees: `int`, `char`, `void` and stars are read and dropped, and printing writes int everywhere.
- Calls: a function outside the program is an oracle that may depend on its arguments and every call outside made so far. In assembly it obeys the procedure call standard (AAPCS32, section 6.1.1). Functions of the program are entered and run; a call of one has a meaning when it returns a value, so a program that calls a function for its effects alone has it return something.
- Linking.ProgramDiverges: speaks of a function that loops for ever itself, not of one that calls without end, which in assembly runs out of stack.
- SystemCalls.SystemCall: one call in straight-line code, not inside the theorems on whole functions. The bytes the kernel writes into a buffer are kept apart from the words of the compiled program's memory.
- SvcHandler.Kernel.SvcHandler: the services 4 to 9 are dispatched and not modelled (open, read and close are in `FileSystem.dfy`); exec is in `Loader.dfy`. Messages for diagnosis are not among the bytes sent.
- The assembly machine calls the division runtime by the contract proved for `Divmod.Idiv` and `Divmod.Idivmod`; the routine's own stack use is not part of the machine.
- StringData.ProgramString: zero bytes and newlines inside a literal stand in the assembly as they are; that the assembler takes them so is assumed.
- Source positions, error messages and warning texts; of the error collector only whether an error was reported.
- Characters outside ASCII in the lexer.
- Parsing.Parser.ParseBinary: one method for the ten precedence levels, which in the repository are ten methods of the same shape.
- The semantic analyzer, which rejects programs and changes none; the preprocessor; the assembler and linker wrappers; the command line.
- The queries of the allocator about spilled names and used registers: nothing calls them.
- FIQ, aborts and undefined instructions: their entry code ends in a halt.
- The C code of the interrupt dispatcher and of the system call handlers, as instructions: in `Exceptions.dfy` they are steps that obey the procedure call standard and keep off the saved frame.
- exec and the shell's exit rewrite the saved frame; `Exceptions.SvcLeaves` says that whatever the frame holds comes out of it, and `Loader.Kernel.SysExec` what exec puts into it.
- Caches, the TLB, barriers and the alignment checks of the processor: none in a sequential machine.
- Loader.Kernel.SysExec: paths are at most 255 bytes before their zero byte; a longer one matches no file.
- The line status interrupt of the serial port, whose extra read of the status register may clear an error flag; a character with an error is one that the handler drops.
- Counters that only grow (overflow, interrupt count) do not wrap around at 2^32.
- The bootloader, clocks, timers, the interrupt controller, the watchdog and other device registers; shell commands, `printf` formatting, diagnostic dumps and userspace wrappers.
- Scheduling.Scheduler.AddTask: a task structure that is in the table already is not added again while there is room: two slots would share one structure, and with it one id and one state, which the invariants exclude.
- TaskInit.Ram.TaskStackInit: the stack is at least large enough for the two frames and lies below 2^32.
- LoweringLimits.BinaryExactly: both operands have a meaning. When the right one has none, `Lowering.BinaryCorrect` says that a harmless one does no harm; what another does depends on variables that were never set.
