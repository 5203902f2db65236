# Constant propagation and stack code generation for a small C-like language

This project models the two back-end traversals of the compiler PlumpMath/Compiler:

- the constant-propagation analyser `ConstantFolding` (constantfolding.cpp);
- the stack-machine code generator `Codegen` (codegen.cpp).

Both walk one closed abstract syntax tree (`ast.dfy`).

**The analyser** threads an environment through every function body: a map from variable names to lattice elements TOP, BOTTOM or a constant (`lattice.dfy`). It gives every expression node an element.
- `transfer.dfy` holds the per-operator rules, in the order the visitors test their cases.
- `constant_folding.dfy` states the analysis as functions:
  - `Fold` for expressions;
  - `Analyze`, `AnalyzeBlock` and `AnalyzeSeq` for statements;
  - `LoopFix` for the for-loop fixpoint.
- The visit methods update the environment step by step, as the analyser does, and are proved to compute those functions.
- `concrete.dfy` gives the run-time meaning of expressions, with C's truncating division. Soundness against it is proved for expressions only: for those of the tracked fragment (no unary minus, magnitude or array read) whose names are all bound in the map, with the corrected `<=` rule. No statement is proved sound, and a read of an unbound name, such as every parameter read, is not sound (see Findings). Nor are array element reads or array calls, which depart from the analyser's own rules (see Left out).

**The generator** writes abstract instructions instead of assembler text (`machine.dfy`). Each function becomes a prologue, the code of its statements, and the code of its return.
- `codegen.dfy` states the code of each node as a function.
- The class `Generator` appends that code to its output, and allocates labels, as the visits do.
- Two meanings of the instructions are used:
  - the operand-stack depth, which proves that code-producing expressions push one word and statements none, with the corrected call;
  - register and stack values, for the arithmetic sequences.

## Model

| member | source | states |
|---|---|---|
| Lattice.Join | constantfolding.cpp:49-51 | the join is an upper bound of both elements and below every other upper bound |
| Lattice.JoinAlgebra | constantfolding.cpp:49-51 | the join is commutative, associative and idempotent; BOTTOM is its identity and TOP absorbs |
| Lattice.JoinDistinctConstants | constantfolding.cpp:49-51 | two different constants are incomparable and join to TOP |
| Lattice.LeqIsPartialOrder | constantfolding.cpp:49-51 | the order the join is taken in is reflexive, antisymmetric and transitive |
| Lattice.JoinMaps | constantfolding.cpp:223 | the map join has the keys of both maps, and each name's value is the join of its two values, a missing key counting as BOTTOM |
| Lattice.JoinMapsIsLub | constantfolding.cpp:325 | the map join lies above both maps, and below any map that lies above both |
| Lattice.JoinMapsCommutes | constantfolding.cpp:280 | joining into either map of a pair gives the same map |
| Lattice.JoinMapsIdempotent | constantfolding.cpp:325 | joining a map with itself gives the map back |
| Lattice.MapsEqualMeansSameValues | constantfolding.cpp:331 | two maps compare equal exactly when every name has the same value in both, missing keys being BOTTOM |
| Concrete.Apply | constantfolding.cpp:638-648 | an operator is undefined exactly for a division by zero |
| Concrete.TruncDivRemainderIs | constantfolding.cpp:648 | the remainder of C's `/` is the remainder of the magnitudes, carrying the dividend's sign |
| Concrete.TruncDivRemainder | constantfolding.cpp:648 | C's `/` leaves a remainder smaller than the divisor in magnitude, and a nonzero remainder has the dividend's sign |
| Concrete.TruncDivNotEuclidean | constantfolding.cpp:648 | C's `/` truncates toward zero: -7/2 is -3, where Euclidean division gives -4 |
| Transfer.Strict | constantfolding.cpp:415-593 | the shared shape of Plus, Minus and the comparisons: the result is TOP exactly when an operand is TOP, and a constant exactly when both operands are |
| Transfer.AndRule | constantfolding.cpp:367-388 | `&&` folds to a constant exactly when an operand is the constant 0 or both are constants, and that constant is a boolean |
| Transfer.OrRule | constantfolding.cpp:390-413 | `\|\|` folds to a constant exactly when an operand is the constant 1 or both are constants, and that constant is a boolean |
| Transfer.TimesRule | constantfolding.cpp:604-627 | `*` folds to a constant exactly when an operand is the constant 0 or both are constants |
| Transfer.DivRule | constantfolding.cpp:629-651 | `/` folds to a constant exactly when both operands are constants and the divisor is not 0; BOTTOM only comes from a BOTTOM operand |
| Transfer.NotRule | constantfolding.cpp:653-671 | `!` gives TOP exactly for TOP, and a boolean constant exactly for a constant |
| Transfer.IdentRule | constantfolding.cpp:673-689 | a variable read passes its binding through unchanged, TOP included |
| Transfer.LteqRule | constantfolding.cpp:516-535 | the `<=` rule as written is the corrected rule with its operands swapped |
| Transfer.LteqIntended | constantfolding.cpp:516-535 | the corrected `<=` folds exactly when both operands are constants, to the truth of `a <= b` |
| Transfer.BinRule | constantfolding.cpp:367-651 | a binary node is BOTTOM only when an operand is; two constant operands always fold, except a division by the constant 0, which gives TOP |
| Transfer.BinRuleSound | constantfolding.cpp:367-651 | every binary rule is sound: operand elements that admit x and y give an element that admits `x op y` |
| Transfer.BinRuleOnConstants | constantfolding.cpp:367-651 | on two constants every rule folds exactly as the operator; a division by the constant 0 gives TOP |
| Transfer.TimesRuleCases | constantfolding.cpp:614-622 | a constant 0 on either side gives 0 whatever the other side is; otherwise TOP wins, then BOTTOM |
| Transfer.AndOrAbsorb | constantfolding.cpp:376-407 | a false operand of `&&` and a true operand of `\|\|` decide the result before TOP and BOTTOM are tested |
| Transfer.DivRuleCases | constantfolding.cpp:638-648 | a constant 0 divisor gives TOP even for a 0 dividend; a 0 dividend with a TOP divisor gives TOP and with a BOTTOM divisor gives BOTTOM |
| Transfer.StrictTopFirst | constantfolding.cpp:424-593 | Plus, Minus and the six comparisons give TOP when either operand is TOP, and otherwise BOTTOM when either is BOTTOM |
| Transfer.NotRuleSound | constantfolding.cpp:663-667 | `!` keeps TOP and negates a constant soundly |
| Transfer.LteqRuleUnsound | constantfolding.cpp:526-532 | the `<=` rule as written folds `1 <= 2` to 0, which the true value 1 contradicts |
| Transfer.LteqIntendedSound | constantfolding.cpp:516-535 | the corrected `<=` rule is sound, folds two constants exactly, and tests TOP before BOTTOM |
| ConstantFolding.Fold | constantfolding.cpp:367-709 | visiting an expression only inserts the names it reads that were missing, each bound to BOTTOM, and changes no existing value |
| ConstantFolding.FoldArgs | constantfolding.cpp:199 | visiting call arguments only inserts the missing names they read, bound to BOTTOM |
| ConstantFolding.ExtendsKeepsValues | constantfolding.cpp:35-38 | inserting BOTTOM bindings changes no name's value, and inserts nothing when every name was present |
| ConstantFolding.Lookup | constantfolding.cpp:35-38 | reading a variable leaves it in the map, changes no value, and binds a newly inserted name to BOTTOM |
| ConstantFolding.FoldDependsOnValues | constantfolding.cpp:673-689 | an expression's element depends only on the values of the names it reads |
| ConstantFolding.RevisitChangesNothing | constantfolding.cpp:399-409 | the second visit of the operands, as Or and the comparisons make it, changes neither the element nor the map |
| ConstantFolding.FoldSound | constantfolding.cpp:367-709 | in every run-time state the map describes, a tracked expression's defined value is admitted by its element, and the map is unchanged |
| ConstantFolding.FoldIntLit | constantfolding.cpp:697-702 | a literal gets its own value and leaves the map unchanged |
| ConstantFolding.FoldIdent | constantfolding.cpp:673-689 | a variable read gets the variable's binding, BOTTOM for a name not in the map |
| ConstantFolding.FoldPlusConstants | constantfolding.cpp:549-566 | `l + r` with constant operands folds to their sum |
| ConstantFolding.FoldTimesZero | constantfolding.cpp:604-615 | `l * r` with a constant 0 left operand folds to 0 whatever `r` is |
| ConstantFolding.Declare | constantfolding.cpp:156-175 | declarations add exactly the declared names as keys |
| ConstantFolding.KillAll | constantfolding.cpp:200-204 | setting every entry to TOP adds and removes no key |
| ConstantFolding.PotentialDecreases | constantfolding.cpp:314-341 | a round that only raises values and changes one of them lowers the number of steps the names can still rise |
| ConstantFolding.Analyze | constantfolding.cpp:183-342 | a statement keeps every key and adds only names it declares, assigns or reads |
| ConstantFolding.AnalyzeIf | constantfolding.cpp:215-226 | an if-statement keeps every key and adds only names of its condition and body |
| ConstantFolding.AnalyzeIfElse | constantfolding.cpp:274-283 | an if-else keeps every key and adds only names of its condition and branches |
| ConstantFolding.AnalyzeLoop | constantfolding.cpp:308-311 | a for loop keeps every key and adds only names of its parts |
| ConstantFolding.LoopPass | constantfolding.cpp:316-328 | one more round of a loop only raises values and adds only names of the loop |
| ConstantFolding.LoopFix | constantfolding.cpp:314-341 | the loop's rounds end, only raise values, and stay inside the finite set of names |
| ConstantFolding.AnalyzeBlock | constantfolding.cpp:144-148 | a block keeps every key and adds only names it declares or uses |
| ConstantFolding.AnalyzeSeq | constantfolding.cpp:66-70 | a statement list keeps every key and adds only names its statements use |
| ConstantFolding.AnalyzeFunctionBlock | constantfolding.cpp:115-117 | a function body adds only names it declares or uses |
| ConstantFolding.DeclareRule | constantfolding.cpp:156-175 | every declared name is TOP afterwards and every other name keeps its value |
| ConstantFolding.AssignmentRule | constantfolding.cpp:183-189 | the target is bound to the element of the right-hand side and every other name keeps its value |
| ConstantFolding.CallRule | constantfolding.cpp:197-207 | after a plain call `x = f(...)` every name present is TOP, no key is removed, and the only keys added are unseen names the arguments read |
| ConstantFolding.IfNoElseRule | constantfolding.cpp:215-226 | the result lies above the body's map and the condition's map; a name keeps its value where they agree and becomes TOP where they hold different constants |
| ConstantFolding.IfWithElseRule | constantfolding.cpp:274-283 | the result lies above both branches; a name keeps its value where they agree and becomes TOP where they hold different constants |
| ConstantFolding.LoopFixStep | constantfolding.cpp:331-340 | the loop stops on a round that leaves the map equal, and otherwise goes on from that round's result |
| ConstantFolding.LoopFixStops | constantfolding.cpp:314-341 | the loop's result is one round applied to a map above the entry map, and it equals that map |
| ConstantFolding.ScenarioStraightLine | constantfolding.cpp:183-189 | `x = 5; y = x + 3;` leaves `y` at 8 and `x` at 5 |
| ConstantFolding.ScenarioBranches | constantfolding.cpp:274-283 | branches assigning the same constant keep it; branches assigning different constants give TOP |
| ConstantFolding.ScenarioAbsorbingZero | constantfolding.cpp:614-615 | `x = 0; z = x * y;` leaves `z` at 0 whatever `y` is |
| ConstantFolding.ScenarioCallKills | constantfolding.cpp:197-204 | a call between `a = 1` and `z = a` leaves `z` at TOP |
| ConstantFolding.VisitDecl | constantfolding.cpp:156-175 | the loop over the declared names sets each one to TOP, giving the map with exactly those names bound to TOP |
| ConstantFolding.VisitDecls | constantfolding.cpp:156-175 | a declaration list gives `Declare` of the list |
| ConstantFolding.VisitArgs | constantfolding.cpp:199 | the argument loop gives `FoldArgs` of the arguments |
| ConstantFolding.SetAllTop | constantfolding.cpp:200-204 | the iteration over the map gives the same keys, each bound to TOP |
| ConstantFolding.VisitStmt | constantfolding.cpp:183-342 | every statement visit computes `Analyze` |
| ConstantFolding.VisitAssignment | constantfolding.cpp:183-189 | computes `Analyze` of the assignment |
| ConstantFolding.VisitArrayAssignment | constantfolding.cpp:191-195 | computes `Analyze` of the array store: the index, then the right-hand side, are visited and no value is assigned |
| ConstantFolding.VisitCall | constantfolding.cpp:197-207 | computes `Analyze` of the call |
| ConstantFolding.VisitArrayCall | constantfolding.cpp:209-213 | computes `Analyze` of the array call: the index, then the arguments, are visited, and no name is reset (ArrayCallKeepsValues) |
| ConstantFolding.VisitIfNoElse | constantfolding.cpp:215-226 | the clone-visit-join sequence computes `Analyze` of the if-statement |
| ConstantFolding.VisitIfWithElse | constantfolding.cpp:274-283 | computes `Analyze` of the if-else: the then-branch runs on the clone taken before the condition, the else-branch on the condition's map, then the two are joined |
| ConstantFolding.VisitForLoop | constantfolding.cpp:288-342 | the `while (true)` loop terminates and returns `LoopFix`, the loop's analysis |
| ConstantFolding.VisitRound | constantfolding.cpp:316-328 | one round on a clone computes `LoopPass` |
| ConstantFolding.VisitBlock | constantfolding.cpp:144-148 | computes `AnalyzeBlock` |
| ConstantFolding.VisitSeq | constantfolding.cpp:66-70 | the statement loop computes `AnalyzeSeq` |
| ConstantFolding.VisitFunc | constantfolding.cpp:106-113 | the body is analysed from a blank map, and the caller's map is returned unchanged |
| ConstantFolding.VisitProgram | constantfolding.cpp:100-104 | every function is analysed from a blank map, and the program's map is unchanged |
| ConstantFolding.BodyResult | constantfolding.cpp:106-113 | the map a function's body leaves, analysed from the blank map; it has no ensures of its own, and VisitFunc and ParamReadAsWritten state what it is |
| ConstantFolding.EntryEnv | constantfolding.cpp:74 | the corrected entry map binds exactly the parameters, each to TOP |
| ConstantFolding.BodyResultFromEntry | constantfolding.cpp:74 | a body analysed from the corrected entry map keeps every parameter bound and adds only names the body declares or uses |
| ConstantFolding.IfAssignsConst | constantfolding.cpp:215-226 | `if (c) { x = v; }` leaves `x` at the join of `v` and what `x` was before |
| ConstantFolding.ParamBranchResult | constantfolding.cpp:106-113 | the body `int x; x = n; if (n > 0) { x = 1; } return x;` leaves `x` at the join of 1 and `n`'s binding on entry |
| ConstantFolding.ParamPlusOne | constantfolding.cpp:673-689 | `n + 1` read from the blank map folds to BOTTOM, although it evaluates to 5 when `n` is 4 |
| ConstantFolding.ParamReadAsWritten | constantfolding.cpp:106-113 | as written, a parameter read is unsound: `n + 1` gets BOTTOM, which admits no value, and the branch example leaves `x` at the constant 1, although `x` is 0 when `n` is 0 |
| ConstantFolding.EntryParamsSound | constantfolding.cpp:74 | from the corrected entry map, a tracked expression over the parameters is sound in every state giving them values |
| ConstantFolding.ParamBranchFromEntry | constantfolding.cpp:74 | from the corrected entry map, the branch example leaves `x` at TOP, which admits both of its run-time values |
| ConstantFolding.ArrayCallKeepsValues | constantfolding.cpp:209-213 | an array call `a[i] = f(...)` keeps every name's value, unlike a plain call |
| ConstantFolding.ArrayReadAdmitsNothing | constantfolding.cpp:691-695 | an array element read is BOTTOM and admits no value |
| ConstantFolding.ArrayReadBranch | constantfolding.cpp:691-695 | `x = a[0]; if (c) { x = 1; }` leaves `x` at the constant 1 for every condition and entry map |
| Machine.PopsDepth | codegen.cpp:314-319 | n pops in a row need n words and leave n fewer |
| Machine.PairsDepth | codegen.cpp:285-288 | each `popl %ebx; pushl %ebx` pair leaves the depth unchanged when there is a word to pop |
| Machine.RepeatLength | codegen.cpp:314-319 | k copies of a block have k times its length |
| Machine.SignFillDividend | codegen.cpp:146-147 | after sign extension, the 64-bit dividend `idivl` reads equals `%eax`; without it, a negative `%eax` reads as `%eax + 2^32` |
| Codegen.FrameAddr | codegen.cpp:251-256 | a symbol's slot is `-(offset + 4)` off `%ebp`, so a nonnegative offset addresses a slot below the saved `%ebp` |
| Codegen.ArithCode | codegen.cpp:139-163 | the `emit_arith` sequence; it has no ensures of its own, and ArithCodeDepth, PopOperands and ArithCodeComputes state what it does |
| Codegen.EpilogueCode | codegen.cpp:165-173 | the epilogue ends with `ret`, and pops exactly one word, the saved `%ebp`, failing on an empty stack |
| Codegen.ExprCode | codegen.cpp:421-482 | the code of a code-producing expression ends by pushing its value |
| Codegen.StmtCode | codegen.cpp:244-331 | the stub statement kinds produce no code, and an assignment ends by storing to the target's slot |
| Codegen.CallCodeVisiting | codegen.cpp:266-331 | a call whose loop visited some of the arguments; no ensures of its own, its depth is stated by CallCodeVisitingDepth |
| Codegen.CallCodeAsWritten | codegen.cpp:281-290 | the call as written visits ceil(n/2) arguments; no ensures of its own, see CallAsWrittenBalancedIff and CallAsWrittenUnderflows |
| Codegen.CallCode | codegen.cpp:266-331 | the corrected call visits every argument; no ensures of its own, see CallBalanced and SameSlot |
| Codegen.CopyCode | codegen.cpp:124-134 | the parameter copies; no ensures of its own, see CopyCodeLayout and CopyCodeKeepsDepth |
| Codegen.PrologueCode | codegen.cpp:112-137 | the prologue; no ensures of its own, see PrologueLayout and PrologueDepth |
| Codegen.ReturnCode | codegen.cpp:336-345 | the return; no ensures of its own, see ReturnDepth |
| Codegen.FuncCode | codegen.cpp:201-209 | a function's code; no ensures of its own, see FuncCodeBalanced and ScenarioIncrement |
| Codegen.FuncsCode | codegen.cpp:197 | the functions' code in order; no ensures of its own, see FuncsCodeBalanced |
| Codegen.ProgramCode | codegen.cpp:189-200 | the program's code; no ensures of its own, see ProgramCodeBalanced |
| Codegen.ArithCodeDepth | codegen.cpp:139-163 | `emit_arith` pops two words and pushes one, and fails on fewer than two |
| Codegen.ExprCodeDepth | codegen.cpp:421-482 | every expression of code-producing nodes pushes exactly one word |
| Codegen.ArgsCodeDepth | codegen.cpp:280-283 | the visited arguments push one word each |
| Codegen.CallCodeVisitingDepth | codegen.cpp:266-331 | a call that visited k of its n arguments changes the depth by k - n, and underflows when the stack is too shallow |
| Codegen.CallAsWrittenBalancedIff | codegen.cpp:281-290 | the call as written leaves the stack balanced exactly when it has at most one argument |
| Codegen.CallAsWrittenUnderflows | codegen.cpp:281-290 | `f(1, 2)` as written, on an empty stack, pops a word never pushed |
| Codegen.CallBalanced | codegen.cpp:280-319 | with every argument visited, a call leaves the stack as it found it |
| Codegen.StmtCodeBalanced | codegen.cpp:244-331 | every statement leaves the operand stack as it found it, with the corrected call |
| Codegen.StmtsCodeBalanced | codegen.cpp:210-239 | a statement list leaves the operand stack as it found it, with the corrected call |
| Codegen.EmptyBeforeEpilogue | codegen.cpp:336-344 | a body's statements and return value leave the operand stack empty right before the epilogue, with the corrected call |
| Codegen.CopyCodeKeepsDepth | codegen.cpp:124-134 | the parameter copies neither push nor pop |
| Codegen.PrologueDepth | codegen.cpp:112-137 | the prologue pushes exactly the saved `%ebp` |
| Codegen.ReturnTailDepth | codegen.cpp:338-343 | popping the value into `%eax`, then the epilogue, pops two words |
| Codegen.ReturnDepth | codegen.cpp:336-345 | the return pops the value it pushes and the saved `%ebp` |
| Codegen.FuncCodeBalanced | codegen.cpp:201-209 | a whole function's code leaves the stack as it found it, with the corrected call |
| Codegen.FuncsCodeBalanced | codegen.cpp:197 | a list of functions that produce code throughout leaves the stack as it found it, with the corrected call |
| Codegen.ProgramCodeBalanced | codegen.cpp:189-200 | the program's code opens with the text section and `.globl _Main`, then holds each function's code in order, and leaves the stack as it found it, with the corrected call |
| Codegen.CopyCodeLayout | codegen.cpp:124-131 | the copies are a load from `ParamSource(i)` and a store to `ParamSlot(i)` for each parameter i, in order |
| Codegen.PrologueLayout | codegen.cpp:112-137 | label, save `%ebp`, new frame base, `(size_locals + num_args + 1) * 4` bytes reserved, then parameter i copied from `(1 + num_args - i) * 4` to `-(4i + 4)` |
| Codegen.ParamOffsets | codegen.cpp:124-131 | parameter sources lie at 8 and above, one word apart and distinct; slots are distinct, lie in `[-4n, -4]`, and lie inside the reserved frame |
| Codegen.SameSlot | codegen.cpp:251-256 | a read (line 466), an assignment and a call's result (line 311) all address a name's slot at `-(offset + 4)` |
| Codegen.PopOperands | codegen.cpp:143-145 | the right operand is popped into `%ebx`, the left into `%eax` |
| Codegen.IdivlAfterSignFill | codegen.cpp:146-148 | `idivl` on a sign-extended 32-bit dividend gives the truncating quotient in `%eax` and the remainder in `%edx` |
| Codegen.SignExtendStep | codegen.cpp:146-147 | `mov %eax,%edx; sar $0x1f,%edx` leaves `%edx` as the sign fill of `%eax` |
| Codegen.DivideAndPush | codegen.cpp:148-149 | `idivl %ebx; pushl %eax` on a sign-extended dividend pushes the truncating quotient |
| Codegen.PushAfter | codegen.cpp:157-158 | an instruction followed by `pushl %eax` pushes what it left in `%eax` |
| Codegen.ApplyAndPush | codegen.cpp:157-158 | `addl`, `subl` or `imull` of `%ebx` into `%eax`, then `pushl %eax`, pushes C's result |
| Codegen.DivCodeComputes | codegen.cpp:142-149 | the division sequence replaces a 32-bit `x` and a nonzero `y` on the stack by C's `x / y` |
| Codegen.ArithCodeComputes | codegen.cpp:139-163 | `emit_arith` replaces the two top words x and y by `x op y`, leaving the result in `%eax` and y in `%ebx` |
| Codegen.ScenarioIncrement | codegen.cpp:112-172 | `int f(int n) { return n + 1; }` gives the expected instruction list, and the stack is empty before the epilogue |
| Codegen.Generator.constructor | codegen.cpp:181-187 | the output starts empty and the label counter at 0 |
| Codegen.Generator.Emit | codegen.cpp:160 | writing a block of code appends exactly that block to the output and leaves the labels alone |
| Codegen.Generator.NewLabel | codegen.cpp:29 | labels come out 0, 1, 2, ..., and none is issued twice |
| Codegen.Generator.EmitPrologue | codegen.cpp:112-137 | the parameter loop appends `PrologueCode` |
| Codegen.Generator.EmitArith | codegen.cpp:139-163 | appends `ArithCode` |
| Codegen.Generator.EmitEpilogue | codegen.cpp:165-173 | appends `movl %ebp,%esp; popl %ebp; ret` |
| Codegen.Generator.VisitExpr | codegen.cpp:421-482 | appends `ExprCode`, which pushes one word (ExprCodeDepth) |
| Codegen.Generator.VisitAssignment | codegen.cpp:244-261 | appends the value's code, then a pop and a store to the target's slot |
| Codegen.Generator.VisitArgsAsWritten | codegen.cpp:280-291 | the doubly incremented loop runs ceil(n/2) rounds, visiting the last ceil(n/2) arguments, last first |
| Codegen.Generator.VisitCallAsWritten | codegen.cpp:266-331 | appends `CallCodeAsWritten` |
| Codegen.Generator.VisitArgs | codegen.cpp:280-291 | the corrected loop visits every argument, last first, and buffers one pop/push pair per argument |
| Codegen.Generator.FinishCall | codegen.cpp:308-328 | appends the buffered pairs, the call, the store of `%eax`, and one pop per argument |
| Codegen.Generator.VisitCall | codegen.cpp:266-331 | appends `CallCode`, which leaves the stack balanced (CallBalanced) |
| Codegen.Generator.VisitReturn | codegen.cpp:336-345 | appends the value's code, `popl %eax`, then the epilogue |
| Codegen.Generator.VisitStmt | codegen.cpp:244-331 | appends `StmtCode`, which leaves the stack balanced (StmtCodeBalanced), with the corrected call |
| Codegen.Generator.VisitStmts | codegen.cpp:210-239 | appends the code of each statement in order, with the corrected call |
| Codegen.Generator.VisitFunc | codegen.cpp:201-209 | appends the prologue sized by declarations and parameters, the statements, then the return, with the corrected call |
| Codegen.Generator.VisitFuncs | codegen.cpp:197 | appends the code of each function in order, with the corrected call |
| Codegen.Generator.VisitProgram | codegen.cpp:189-200 | appends text mode, `.globl _Main`, then every function, with the corrected call |

## Left out

- Text output: the `fprintf`/`stringstream` formatting, the mnemonics and the label spelling. Each instruction is an abstract value, and `.text` becomes one `TextSection` value.
- Join and map equality: their bodies live in a header that is not part of this model. They are defined by their documented meaning. `LatticeElem`'s integer encoding and its `==` against integers are replaced by the datatype.
- Absent keys: the code is followed where the stated rule disagrees. The rule at constantfolding.cpp:74 makes variables start as TOP, but reading an absent variable inserts it bound to BOTTOM, the map's default (constantfolding.cpp:35-38).
- Transfer.NotRule: BOTTOM stays BOTTOM. The code negates the raw encoding of BOTTOM, which is not part of this model.
- Transfer.DivRule: follows the code, not the rule stated at constantfolding.cpp:86. `0 / TOP` gives TOP there, because the second `if` overrides the first.
- Uminus, Magnitude and ArrayAccess: the analyser gives them no rule, so their nodes keep BOTTOM. `FoldSound` covers the fragment without them (`Tracked`). For array element reads this contradicts the rule at constantfolding.cpp:83 that every element is TOP, and it is unsound in the same way as an unbound read: BOTTOM admits no value (`ArrayReadAdmitsNothing`), so `x = a[0]; if (c) { x = 1; }` leaves `x` at the constant 1 (`ArrayReadBranch`).
- ConstantFolding.VisitArrayCall: follows the code, which visits the index and the arguments and resets nothing (constantfolding.cpp:209-213), against the rule at constantfolding.cpp:81-82 that every variable is TOP after each call statement. `ArrayCallKeepsValues` states this, so the call rule holds for plain calls only; no corrected array call is modelled.
- The per-node attribute: the analyser writes an element onto every expression node. The model returns the element of the node visited (`Folded.elem`) instead of storing one per node.
- In-place map mutation: the maps are values, so cloning is copying. `delete`, the leaked clone at constantfolding.cpp:162 and the copied list at codegen.cpp:280 have no counterpart.
- The symbol table: it is a total function from names to offsets, with scopes ignored.
- Generator stubs: every node kind whose visit is a stub produces no code (control flow, comparisons, And/Or/Not, Uminus, Magnitude, BoolLit, array nodes, nested blocks).
- Nested functions: the function list inside a function body is left out of both traversals.
- Parameter and type nodes: they carry nothing either traversal uses.
- 32-bit arithmetic: folded arithmetic and the generated `addl`/`subl`/`imull` use unbounded integers, and overflow is not modelled.
- Codegen.DivCodeComputes: requires a 32-bit dividend, because sign extension is only exact there.
- Machine state: the run-time meaning of the generated code is the operand-stack depth plus, for the arithmetic sequences, registers and stack values. Memory, `%esp`/`%ebp` arithmetic, calls and returns are not executed.
- ConstantFolding.FoldSound: requires every name the expression reads to be bound in the map. A read of an unbound name gets BOTTOM, which admits no value, so the analysis as written is unsound there. Every parameter read is such a read, because each body starts from the blank map and parameters bind nothing (see Findings). No soundness is stated for statements.
- Parameters on entry: `VisitFunc` and `BodyResult` follow the code and start each body from the blank map. The corrected entry map `EntryEnv`, with every parameter at TOP, is proved sound for parameter reads, but the traversal does not use it.
- Codegen.ParamOffsets: parameter i is read from the word the call leaves for argument n-1-i, because the call pushes its arguments last first. Whether that reverses the parameters depends on the offsets the symbol table assigns them, and the symbol table is not part of this model.
- Codegen.PrologueCode: the frame is sized by the number of declaration nodes, as `m_decl_list->size()` counts them, not by the number of declared names, so `int a, b;` reserves one word for two locals. Whether a local's slot can then fall outside the frame depends on the symbol table's offsets, which are not part of this model.
- Corrected versions: the analyser's `<=` rule and the generator's call use the corrected definitions (see Findings). The as-written versions are kept beside them.

## Findings

| source | as written | input that shows it | evidently intended | confidence | as-written member | corrected member |
|---|---|---|---|---|---|---|
| constantfolding.cpp:532 | `visitLteq` folds two constants with `e1.value >= e2.value` | `1 <= 2` is folded to the constant 0, although it evaluates to 1 | `e1.value <= e2.value` | not executed | Transfer.LteqRuleUnsound | Transfer.LteqIntendedSound |
| codegen.cpp:290 | the argument loop of `visitCall` increments `i` a second time in its body | `f(1, 2)` from an empty operand stack: only `2` is pushed, but two pops follow the call | one increment per round, so every argument is pushed | not executed | Codegen.CallAsWrittenUnderflows | Codegen.CallBalanced |
| constantfolding.cpp:106-113 | `visitFunc` starts each body from a blank map and `visitParam` binds nothing, so a parameter's first read inserts it at BOTTOM (lines 35-38), against the rule at line 74 that variables start as TOP | `int f(int n) { int x; x = n; if (n > 0) { x = 1; } return x; }` ends with `x` at the constant 1, although `x` is 0 when `n` is 0 | every parameter bound to TOP on entry | not executed | ConstantFolding.ParamReadAsWritten | ConstantFolding.EntryParamsSound |
