# Kafel policy compiler: model and proofs

Kafel compiles seccomp policies to BPF programs. This project models the compiler from the parsed
policy to the finished program, and the BPF interpreter of Kafel's own test runner, which gives the
program its meaning. It proves that the compiled program decides every system call as the policy
says, and it pins down the few inputs on which the compiler, as written, does not do that.

A policy is a list of action blocks and uses of other policies. The compiler works in four stages,
and the modules follow them:

- **Conditions.** `Expression` holds the trees, the simplifier and the two meanings of a comparison
  (the documented 64-bit one, and the compiled one, which looks at the low words only unless a side
  is 64 bits wide). `Constants` holds the word constants cached in the tree, `CodeSize` what the code
  of a condition costs, `Outlines` what constants settle about it, `Words` the machine words.
- **Rules.** `Policy` holds policies, uses and the decision of the first matching rule; `Rules` holds
  range rules, partitions of the 2^32 system call numbers, and sorting; `RangeRules` is the growing
  array that collects the rules and normalises them in place; `Normalise` holds the reasons why each
  in-place step keeps what the rules say about every number.
- **Code.** `Bpf` holds the instructions and the meaning of a buffer that is emitted backwards, so
  that appending code never disturbs the code below it; `CodeMeaning` holds locations (a negative one
  is an action, any other an index into the buffer). `Emitter` is the code generation context with
  its buffer and its remembered returns (`ReturnCache`), and its branches with trampolines
  (`Branching`). `ExprCode` generates loads, comparisons and expressions, in continuation style, over
  `LoadCode`, `Comparisons`, `CompareCode` and `ConditionCode`. `RuleCode` generates rules
  (`MappingCode`), the dispatch on the system call number (`Dispatch`, with `SlotReach` for jump
  offsets, `Collapse` for dispatches without code, and `DispatchSteps` for one rule more) and the
  architecture check (`FilterCode`).
- **Program.** `Interpreter` is the interpreter, as a function and as the loop over its registers;
  `Compiler` puts everything together; `Guarantees` draws the conclusions for whole policies;
  `Corners` holds the inputs that go wrong.

A lemma is marked `{:induction false}` wherever Dafny would otherwise try an induction of its own, so
that every proof is what its body says.

## What is promised, and when

`Compiler.CompilePolicy` states the whole of it. For every policy, default action and architecture
there is an error only if a simplified condition needs more than sixteen scratch words or the length
bound of the policy exceeds 65535; otherwise the result is a program that cannot go wrong on any
input. If its first instruction is the architecture check or a return, it kills every call on another
architecture; and if some system call number is left without a rule, too, it returns the code of the
policy's decision in every run, from any registers and scratch words, readable or not, that does not
come to a branch with equal offsets whose test fails.

Such a branch is what is left of an offset that did not fit. The meaning of code is therefore given in
two readings (`Bpf.Reading`): as the instructions are, and as they were meant, with 256 added again to
the second offset of such a branch. All that the table below says emitted code does, it does as it was
meant, for all policies and without exception, and as it is whenever the run is not misled
(`Interpreter.RunsAsMeant`).

`Guarantees.PolicyIsMeant` draws the conclusion in the terms of the documentation, and
`Guarantees.ReturnedCodes` and `Guarantees.ErrnoReturned` in numbers. Two more theorems tell from the
policy alone that no run is misled. A policy is *within the limits* if its length bound is at most
65535, no condition is too deep, and either the length bound is at most 259 or its conditions are
small: they take at most 127 instructions altogether; or constants settle no comparison in them, and
those of each number take at most 127 instructions or only one number has any. There may be any number
of rules. By `Guarantees.PolicyImplemented` a policy within the limits always compiles, and its program
decides every call as the policy does if and only if it does not start at left-over code that fails to
kill (see *entry point* below); `Guarantees.PolicyIsDocumented` says it in the terms of the
documentation. In terms of the policy as written: eight instructions for a rule, seven for a node of a
condition and ten more are enough, and with no more than eighteen nodes no offset is lost
(`Guarantees.SmallPolicyCompiles`); up to 8190 rules without conditions are implemented exactly
(`Guarantees.UnconditionalPolicy`).

What can go wrong is followed to the place it comes from.

- *Lost offsets.* `add_jump` resolves the first target twice but the second only once. When the first
  target is an instruction more than 255 back and the second one is exactly 254 back, the second
  offset becomes 256 and is cut to 0. `Emitter.Context.AddJump` always continues at the first target in
  this case and is exact in every other one; if the two targets can be told apart at all, it is exact
  if and only if the offset is not lost. The emitted branch has equal offsets if and only if that
  happened, and it comes with two jumps to its first target (`Compiler.OffsetLost`).
  `Corners.LostOffset` is such a call. The architecture check never loses an offset. Inside a condition
  one of the targets is the code just emitted or both are actions, unless constants have settled a
  comparison; so if they settle none, an offset can only be lost by a test of the system call number in
  the dispatch (`Compiler.LostToDispatch`). A cascade of joins in the dispatch takes at most 128
  instructions, so that small conditions keep the topmost slots within reach (`SlotReach.JoinIsSafe`).
- *Entry point.* If the dispatch collapses to KILL although code was emitted, the final
  `resolve_location` may find a return of KILL within reach and add nothing, so that the first
  instruction of the program is code that nothing was meant to reach. `RuleCode.KillAtOnce` says
  exactly when on the generator's state. `Compiler.DeadEntry` says it of the policy: the default is
  KILL, constants settle every number on one action, and yet some condition has code that returns
  KILL. Nothing else makes a program start wrong, and with at most 256 instructions of conditions
  this always does. The program then decides every call as the last code of the lowest such number
  does (`Compiler.EntersAt`). `Corners.DeadEntry` compiles the policy that allows a call if
  `(arg & 0xff) == 0x100000000`.
- *Default action.* A dispatch that needs no code is replaced by the default action, which is right
  if and only if every rule agrees with the default (`RuleCode.CompileRules`,
  `Corners.StrayDefault`). As the rules are a partition, some number without a rule is enough, and
  fewer than 2^32 rules always leave one; the source counts rules in an `int`, so no policy gets there.

Where the code and its documentation differ, the model follows the code. Comparison width is decided
after simplification, so that `(fd & 0xffffffffffffffff) == 5` with a 4-byte `fd` is a comparison of
low words (`Expression.MaskDroppedNarrows`); a comparison without 8-byte arguments and numbers beyond
32 bits sees the arguments with their upper halves cleared (`Expression.WidthByLeaves`). The documented 64-bit meaning is met when arguments
declared narrower than 8 bytes have zero upper halves (`Expression.CompiledMeaningIsDocumented`), or
when every comparison that is left is 64 bits wide (`Expression.WideNeedsNoAssumption`).

## Model

| member | source | states |
|---|---|---|
| `Compiler.CompilePolicy` | kafel/src/codegen.c:714-793 | for every policy: an error only if a condition is too deep or the length bound exceeds 65535; otherwise a program that cannot go wrong and is within the length bound. If it starts right, it kills all calls on other architectures and, some number being left without a rule, returns the policy's decision in every run from any registers that is not misled by a branch with equal offsets, and was meant to in the others; it starts wrong only at a dead entry, and then decides every call as the code left on top does. Branches with equal offsets come only with two jumps to a far first target, only in the dispatch if constants settle no comparison, and not at all if the conditions are small |
| `Guarantees.PolicyIsMeant` | kafel/README.md:103 | for every policy, of any size below the limit on length, that spares some call or in which constants settle no comparison: a program that kills on other architectures and, on clean narrow arguments, returns the documented decision in every run that is not misled, and was meant to in the others |
| `Guarantees.ReturnedCodes` | kafel/src/codegen.c:74-98 | the number a run that is not misled returns asks the kernel for exactly what the policy decides, or for killing the thread on another architecture |
| `Guarantees.ErrnoReturned` | kafel/src/codegen.c:90-95 | a decision for ERRNO with a value returns 0x50000 plus the value |
| `Guarantees.SmallPolicyCompiles` | kafel/src/codegen.c:775-787 | if eight instructions for a rule, seven for a node of a condition and ten more make at most 65535, and bitwise operations are nested at most fifteen deep, the policy compiles within that length; with no more than eighteen nodes no offset is lost |
| `Guarantees.UnconditionalPolicy` | kafel/src/codegen.c:714-793 | up to 8190 rules without conditions always compile, and the program decides every call as they do |
| `Guarantees.PolicyImplemented` | kafel/src/codegen.c:714-793 | a policy within the limits always compiles, and the program decides every call as the policy does if and only if the policy has no dead entry or the code it enters happens to kill everything |
| `Guarantees.PolicyIsDocumented` | kafel/README.md:103 | a policy within the limits, of any number of rules, that spares some call or in which constants settle no comparison always compiles, and on inputs with clean narrow arguments the program returns the documented decision: used bodies pasted in place, first matching rule, 64-bit comparisons |
| `Guarantees.SparedStartsRight` | kafel/src/codegen.c:769-773 | a policy that spares some call, as compiled, has no dead entry |
| `Guarantees.OpenStartsRight` | kafel/src/codegen.c:769-773 | nor has one in which constants settle no comparison |
| `Guarantees.SaysDecide` | kafel/src/range_rules.c:373-387 | what the rules for a number say together, in insertion order and with the default last, decides its calls as the policy does |
| `Compiler.CollectRanges` | kafel/src/codegen.c:687-704 | the normalised ranges of a policy are a partition that says about every number exactly what the rules for it say together, decides like the policy, costs no more, has at most twice as many ranges as rules plus one, and never two neighbours with one action other than the default |
| `Compiler.FinishProgram` | kafel/src/codegen.c:769-792 | the result is an error or the reversed buffer, exactly as the emitted code demands: some scratch load beyond slot 15, or more than 65535 instructions |
| `Guarantees.CompiledPolicyIsDocumented` | kafel/README.md:103 | compiled rules (each used policy expanded once, comparisons by width) and the documented policy (bodies pasted, 64-bit comparisons) decide alike on clean narrow arguments |
| `Compiler.FewRulesLeaveUnnamed` | kafel/src/codegen.c:708-710 | fewer than 2^32 rules leave some system call number unnamed |
| `Compiler.ReversedIsSafe` | kafel/test/runner/interpreter.c:84-231 | a well-formed buffer reverses to a program whose jumps, reads, slots and ends are all in order |
| `Compiler.LeftoverDecides` | kafel/src/codegen.c:771-773 | a program that does not start right decides every call, unless misled, as the last code of the lowest number that has left any |
| `Compiler.RendersIsMeant` | kafel/src/codegen.c:678-685 | code that renders the verdict as it was meant gives a program that returns it in every run that is not misled |
| `Compiler.ReversedLost` | kafel/src/codegen.c:226-240 | a branch with equal offsets is followed by two jumps to its first target, more than 255 instructions away, and has 259 instructions after it |
| `Compiler.DispatchLost` | kafel/src/codegen.c:655-661 | if constants settle no comparison of a policy, such a branch compares the system call number with the start of a range |
| `Compiler.FinishedProgram` | kafel/src/codegen.c:775-792 | ranges that say what the policy says and code that decides like the ranges, or is left over from them, give a program for which everything is as promised |
| `Interpreter.InterpretReversed` | kafel/src/codegen.c:678-685 | running the reversed buffer forwards is running the emission buffer backwards, from every index, registers and scratch memory, in both readings of offsets |
| `Interpreter.RunsAsMeant` | kafel/src/codegen.c:236-239 | a run that does not come to a branch with equal offsets whose test fails is the run that was meant |
| `Interpreter.StoredReadsBack` | kafel/test/runner/interpreter.c:84-214 | a word stored in one of the slots 0 to 15 is read back; a store in any other slot is an error |
| `Interpreter.SafeProgramReturns` | kafel/test/runner/interpreter.c:216-231 | a safe program ends in a return on every input, without interpreter error |
| `Interpreter.Context.InterpretInstruction` | kafel/test/runner/interpreter.c:84-214 | one instruction changes the registers, scratch words and counter as its meaning says, a load gets the word of the data that is at its offset, and it fails exactly on a bad read, a slot beyond 15 or a counter that does not advance |
| `Interpreter.Context.Run` | kafel/test/runner/interpreter.c:216-231 | the loop over mutable registers computes the recursive meaning of the program |
| `Bpf.RunExtends` | kafel/src/codegen.c:137-153 | emitting more instructions does not disturb the code below |
| `Bpf.ReadsImage` | kafel/test/runner/interpreter.c:89-100 | a load at an aligned offset up to 60 gets that word of the sixteen-word image of the data, any other one fails |
| `Bpf.DataLayout` | kafel/src/codegen.c:279-290 | the number is at offset 0, the architecture at 4, the instruction pointer at 8, argument a at 16 + 8a, the low half first |
| `Actions.CodeServesPurpose` | kafel/src/codegen.c:74-98 | the upper half of the return value of an action, read as the kernel reads it, is what the action is for, and the lower half its value |
| `Actions.ValueCodes` | kafel/src/codegen.c:88-96 | TRAP, ERRNO and TRACE with a value have the return values 0x30000, 0x50000 and 0x7ff00000 plus the value |
| `Actions.BasicCodes` | kafel/src/codegen.c:76-86 | KILL, KILL_PROCESS, ALLOW, LOG and USER_NOTIF have the return values 0, 0x80000000, 0x7fff0000, 0x7ffc0000 and 0x7fc00000 |
| `Actions.ActionToBpfInjective` | kafel/src/codegen.c:74-98 | different actions have different return values |
| `Expression.SimplifyCorrect` | kafel/src/expression.c:91-203 | the simplified expression has the same 64-bit truth value on every input |
| `Expression.SimplifyNormalises` | kafel/src/expression.c:116-202 | the result is a truth constant or a tree without truth constants, operations on two numbers, absorbing or neutral operands, or comparisons of an argument with itself |
| `Expression.NormalIffFixed` | kafel/src/expression.c:91-203 | normal trees are exactly those the simplifier leaves alone |
| `Expression.SimplifiedIsGenerable` | kafel/src/codegen.c:604-605 | the code generator's failing default case is never reached on a simplified tree |
| `Expression.CompiledMeaningIsDocumented` | kafel/src/codegen.c:449-462 | the simplified tree, compared by width, means what the original tree is documented to mean, if narrow arguments have zero upper halves |
| `Expression.WidthByLeaves` | kafel/src/codegen.c:449-462 | for every tree and input: a comparison whose arguments are not of size 8 and whose numbers are below 2^32 is the 64-bit one on arguments with cleared upper halves, any other one the 64-bit one on the arguments as they are |
| `Expression.UpperHalvesIgnored` | kafel/src/codegen.c:449-462 | a comparison without wide leaves is the same on inputs with equal low argument words |
| `Expression.SmallArgsAreNarrow` | kafel/src/codegen.c:449-462 | arguments below 2^32 meet the assumption of every condition |
| `Expression.WideNeedsNoAssumption` | kafel/src/codegen.c:553-573 | no assumption is needed when every comparison that is left is 64 bits wide |
| `Expression.MaskDroppedNarrows` | kafel/src/codegen.c:449-462 | without the assumption the meanings differ: dropping the all-ones mask narrows the comparison |
| `Constants.WordConstSound` | kafel/src/codegen.c:313-380 | a word marked constant has its cached value on every input |
| `Constants.UnmarkedHasUnmarkedChild` | kafel/src/codegen.c:389-447 | an unmarked bitwise node has an unmarked operand to load |
| `Outlines.OpenBranches` | kafel/src/codegen.c:485-607 | if constants settle no comparison of a condition, all of its code is reached, and it starts at the instruction emitted last |
| `Outlines.ArgComparisonOpen` | kafel/src/codegen.c:485-551 | constants settle no comparison of an argument with a number for which both outcomes are possible |
| `CodeSize.SizeByNodes` | kafel/src/codegen.c:485-607 | at most seven instructions for a node of a condition |
| `CodeSize.SlotsByNesting` | kafel/src/codegen.c:389-447 | at most one scratch word more than bitwise operations are nested deep |
| `CodeSize.SimplifyShrinks` | kafel/src/expression.c:91-203 | simplifying adds neither nodes nor nesting |
| `Outlines.WordVerdictSound` | kafel/src/codegen.c:485-551 | a 32-bit comparison that constants settle has that outcome on every input |
| `Words.BitwiseByWord` | kafel/src/codegen.c:302-311 | the 64-bit bitwise operations act on each 32-bit word separately |
| `Words.BitwiseDigits` | kafel/src/codegen.c:302-311 | each binary digit of a conjunction or disjunction is that of the digits of the operands |
| `Words.OrderByWord` | kafel/src/codegen.c:553-563 | the 64-bit order is lexicographic in the high and low words |
| `LoadCode.ConstOperandLoads` | kafel/src/codegen.c:424-429 | loading the varying operand and combining it with the cached constant loads the node's word, also when the combination is left out because it changes nothing |
| `LoadCode.StackPairLoads` | kafel/src/codegen.c:430-443 | the right operand survives in its scratch slot while the left one is loaded above it |
| `LoadCode.IndexPairLoads` | kafel/src/codegen.c:430-443 | a left operand that is an argument leaves X alone |
| `Comparisons.PlanCorrect` | kafel/src/codegen.c:485-523 | swapping a constant to the right, exchanging the sides, and turning a conjunction compared with zero into a bit test keep the outcome of the comparison |
| `Comparisons.OneLoadServesBoth` | kafel/src/codegen.c:558-560 | registers loaded for the greater-than test on the high words also decide the greater-or-equal test, even when that has become a bit test of the operands of a conjunction: (a & b) & b == a & b |
| `Comparisons.GreaterCanFail` | kafel/src/codegen.c:558-561 | a greater-than test cannot be settled as always holding, so the shared load has a branch to go with |
| `CompareCode.InequalityShared` | kafel/src/codegen.c:553-563 | two branches on the high words with one load, and the test on the low words, decide the 64-bit order |
| `CompareCode.InequalityApart` | kafel/src/codegen.c:553-563 | the same when the second test on the high words needed no code |
| `CompareCode.EqualityByWord` | kafel/src/codegen.c:565-573 | equality of both words is equality of the numbers |
| `CompareCode.AndDecides` | kafel/src/codegen.c:581-583 | chaining continuations decides a conjunction |
| `ConditionCode.AndBuilt` | kafel/src/codegen.c:581-583 | code for the right operand with code for the left one on top is code for the conjunction: it decides it, starts where constants settle it, ends with a known test, and loses no offset if a target is near enough |
| `ConditionCode.OrderSharedBuilt` | kafel/src/codegen.c:553-563 | the same for the 64-bit order, with one load for two branches |
| `ConditionCode.OrderApartBuilt` | kafel/src/codegen.c:553-563 | the same when the second test on the high words needed no code |
| `ConditionCode.VerdictSound` | kafel/src/codegen.c:575-607 | a condition that constants settle is what they settle it as, on every input |
| `ReturnCache.WindowHasRoom` | kafel/src/codegen.c:195-197 | a purged cache has a free slot whenever one of the two last instructions is not a return: the assertion never fails |
| `ReturnCache.InsertReturn` | kafel/src/codegen.c:195-203 | purging and inserting keeps the cache sound, each action cached once, and forgets only what is out of reach |
| `ReturnCache.MoveReturn` | kafel/src/codegen.c:185-193 | replacing the location of a cached action keeps the cache sound and all other entries |
| `Emitter.Context.AddInstruction` | kafel/src/codegen.c:137-153 | appends exactly the instruction and keeps the invariant of the context |
| `Emitter.Context.PurgeLocationCache` | kafel/src/codegen.c:155-168 | the in-place compaction keeps, in order, exactly the entries still in reach |
| `Emitter.Context.ResolveAction` | kafel/src/codegen.c:170-204 | returns a return of the action within reach: the remembered one if it is near, a new one otherwise; other near ones stay remembered |
| `Emitter.Context.ResolveLocation` | kafel/src/codegen.c:206-224 | the position is within 255 and continues at the location, with at most one new instruction |
| `Emitter.Context.ResolveTargets` | kafel/src/codegen.c:235-238 | after resolving t, f and t again, both positions continue at their targets and are distinct; the second is out of reach exactly in the 254-back case |
| `Emitter.Context.AddJump` | kafel/src/codegen.c:226-240 | from the returned location the code continues at t when the test holds and at f otherwise, except in the 254-back case; for targets that can be told apart it does so if and only if it is not that case, which is visible as equal offsets with two jumps to t below, and no other offset is lost; as it was meant, it does so in any case; at most four instructions; no return is left waiting |
| `Emitter.Context.ReverseInstructionBuffer` | kafel/src/codegen.c:678-685 | the two-index swap reverses the buffer |
| `Branching.TargetsPlaced` | kafel/src/codegen.c:235-238 | the arithmetic of three resolutions: which positions stay in reach, and the one case that does not |
| `ExprCode.GenerateLoad` | kafel/src/codegen.c:389-447 | the code leaves the word of the value in A, scratch words below sp alone, and the right operand in X where promised; within the size and slot bounds |
| `ExprCode.GenerateCmp32` | kafel/src/codegen.c:485-551 | a 32-bit comparison is settled with no code, or is a branch on its operands, loaded or not as asked |
| `ExprCode.GenerateInequality` | kafel/src/codegen.c:553-563 | the code decides greater and greater-or-equal, on both words when a side is wide |
| `ExprCode.GenerateEquality` | kafel/src/codegen.c:565-573 | the code decides equality, on both words when a side is wide |
| `ExprCode.GenerateExpr` | kafel/src/codegen.c:575-607 | for every tree: from the returned location, with arbitrary A, X and scratch memory, the code behaves as the true continuation if the expression holds and as the false one otherwise; within the size and slot bounds |
| `RuleCode.GenerateAction` | kafel/src/codegen.c:609-633 | the code of a rule returns the action of the first mapping that holds |
| `MappingCode.MappingBuilt` | kafel/src/codegen.c:617-631 | one more condition in front of compiled mappings: where the code starts once constants have settled it, whether any is emitted and whether it kills, and what its last instruction leads to |
| `MappingCode.SettledSound` | kafel/src/codegen.c:609-633 | what the generator settles a number on, every call with that number gets |
| `RuleCode.JoinTop` | kafel/src/codegen.c:655-661 | a branch on the number joins two neighbouring slots: it covers both intervals and decides them as before, and no other instruction loses an offset |
| `RuleCode.AddRule` | kafel/src/codegen.c:647-667 | each step keeps the stack covering the numbers from the rule up, levelled, at most 33 slots, within reach, and a single action exactly if the generator settles all rules so far on it |
| `RuleCode.GenerateRules` | kafel/src/codegen.c:635-676 | with the system call number in A, control finds the code of the range that contains it, for every partition, after at most ceil(log2 N) tests of the number for N ranges; that code implements the range; no offset is lost if the conditions are small, and none outside the tests of the number if constants settle no comparison; there is no dispatch if and only if the generator settles all ranges on one action |
| `RuleCode.CompileRules` | kafel/src/codegen.c:687-712 | the code decides every system call as the rules do; a dispatch without code, which there is exactly if the generator settles all rules on one action, is replaced by the default action, which decides like the rules if and only if all of them agree with it |
| `RuleCode.KillAtOnce` | kafel/src/codegen.c:769-773 | the kill-everything program starts at its return if and only if no such return was within reach, as it is if one was emitted within the last 256 instructions |
| `RuleCode.CompileForArch` | kafel/src/codegen.c:756-773 | the architecture check in front of the policy's code renders the verdict, and kills on other architectures whatever offsets are lost; the code always returns; it starts wrong only if the generator settles all rules on KILL although some code kills, and surely then if the conditions are short |
| `FilterCode.FilterKills` | kafel/src/codegen.c:769-770 | calls on another architecture are killed, as the check itself loses no offset |
| `Dispatch.RoomForSlot` | kafel/src/codegen.c:641-646 | n slots stand for at least 2^(n-1) ranges and there are at most 2^32 of those, so a strictly levelled stack has at most 32 slots and there is room for one more in 33 |
| `Dispatch.JoinLevels` | kafel/src/codegen.c:655-662 | joining equally tall neighbours keeps every slot of level n covering at least 2^n ranges, and the levels decreasing except possibly for the last pair |
| `Dispatch.PushSlot` | kafel/src/codegen.c:663-666 | pushing the code of the next rule keeps what the slots find and their levels, and fits |
| `Dispatch.WidenSlot` | kafel/src/codegen.c:651-654 | a rule with the code of the topmost slot widens it instead |
| `Dispatch.BranchFinds` | kafel/src/codegen.c:656-660 | a branch on the number joins two neighbouring intervals at the price of one more test |
| `Dispatch.FindingDecides` | kafel/src/codegen.c:635-676 | finding the code of the range that contains the number, by tests that leave the registers alone, is deciding every system call as the rules do |
| `Dispatch.TreeIsBalanced` | kafel/src/codegen.c:670-675 | joining what is left on the stack gives a tree with at most ceil(log2 N) tests on any path for N ranges |
| `SlotReach.JoinIsSafe` | kafel/src/codegen.c:650-662 | conditions that fit leave the two topmost slots where joining them loses no offset |
| `SlotReach.PushIsSafe` | kafel/src/codegen.c:655-666 | a cascade of joins and a new slot keep the topmost slots within reach |
| `Collapse.CollapseNext` | kafel/src/codegen.c:647-667 | one more rule: there is a single action on the stack exactly if the generator settles all rules on it, and what code there is comes from the lowest rule that leaves any |
| `FilterCode.KilledRenders` | kafel/src/codegen.c:771-773 | with or without the return of KILL on top, the code always returns; with it the verdict is right, and without it the code starts at what the conditions have left |
| `FilterCode.ActionDecides` | kafel/src/codegen.c:708-710 | a single action decides every call as the rules do if and only if all rules agree on it |
| `Policy.Expand` | kafel/src/range_rules.c:196-211 | defined for every graph of uses, cyclic ones included, as each step uses up a policy; used policies stay used |
| `Policy.UseIsPaste` | kafel/src/range_rules.c:196-211 | skipping policies already used decides like pasting every used body, when policies use earlier ones only |
| `Rules.PartitionDecides` | kafel/src/range_rules.c:373-387 | in a partition exactly the range that covers the number decides, and it always does |
| `Rules.SortKeepsMeaning` | kafel/src/range_rules.c:225-239 | any reordering that the comparison function accepts as sorted has the same first match, because priorities count insertions |
| `Rules.SortKeepsOrder` | kafel/src/range_rules.c:225-239 | any reordering that the comparison function accepts as sorted has the rules for each number in insertion order, because priorities count insertions |
| `Rules.RulesCostReordered` | kafel/src/range_rules.c:236-239 | reordering keeps what the conditions cost |
| `Normalise.MergeStepSame` | kafel/src/range_rules.c:256-266 | a further rule for the number read last continues the conditions of the first, or is shadowed by it; the merged rule says exactly what the two say together |
| `Normalise.MergeStepExtend` | kafel/src/range_rules.c:267-273 | the next number with the same action extends the range, so that no two neighbours could have been one |
| `Normalise.MergeStepAppend` | kafel/src/range_rules.c:274-295 | a rule kept on its own, perhaps reaching down over a gap with the default action, keeps what is said about every number |
| `Normalise.PlacingRule` | kafel/src/range_rules.c:335-361 | moving a rule up to its final place overwrites no rule that has not moved yet |
| `Normalise.PlacingGap` | kafel/src/range_rules.c:342-351 | the same with a default rule above it; the count of missing rules is positive there |
| `Normalise.ToldDecides` | kafel/src/range_rules.c:256-266 | scanning rules for single numbers in order is asking what they say together: the conditions of the first rules, up to a last resort |
| `Normalise.NormalisedDecides` | kafel/src/range_rules.c:373-387 | a partition that says what the rules say together decides every call as scanning them does |
| `RangeRules.RuleArray.Grow` | kafel/src/range_rules.c:102-122 | room for the growth, contents unchanged, whether or not the array moved |
| `RangeRules.RuleArray.AddFilters` | kafel/src/range_rules.c:137-176 | exactly one rule is appended for each filter whose simplified condition is not false, with that condition unless it is true, in order |
| `RangeRules.RuleArray.AddPolicyRules` | kafel/src/range_rules.c:178-223 | with the explicit stack and the used flags, exactly the rules of the expanded policy are appended; ends for every graph of uses |
| `RangeRules.AddedDecides` | kafel/src/range_rules.c:137-176 | the rules appended decide as the policy does, after the ones there were before |
| `RangeRules.AddedCosts` | kafel/src/range_rules.c:137-176 | they are no more than the filters and cost what the simplified conditions do |
| `RangeRules.RuleArray.CountMissing` | kafel/src/range_rules.c:241-317 | in-place merging leaves ascending disjoint ranges that say about every number what the rules for it say together, no two of which could have been one unless they have the default action, and counts exactly the gaps that remain |
| `RangeRules.RuleArray.AddMissingRules` | kafel/src/range_rules.c:319-371 | back-to-front expansion in the same array yields a contiguous partition that says the same with the default last, as a rule of its own or as the last resort of a conditional rule; the count comes out at zero |
| `RangeRules.RuleArray.NormalizeRules` | kafel/src/range_rules.c:373-387 | the array becomes a partition of the 2^32 numbers that says about each exactly what its rules say in insertion order with the default last, and so decides every call as scanning them does; at most twice as many ranges plus one, and neighbours with one action only where it is the default |
| `Corners.FarContext` | kafel/src/codegen.c:137-153 | the generator can get to code with two targets 256 and 254 instructions back |
| `Corners.LostOffset` | kafel/src/codegen.c:226-240 | from there, the branch to these targets that `add_jump` emits always continues at the first one and is not a branch to both |
| `Corners.DeadEntry` | kafel/src/codegen.c:714-793 | a policy that is documented to kill every call compiles to a program that allows every call whose argument has a zero low byte |
| `Corners.StrayDefault` | kafel/src/codegen.c:687-712 | for rules that allow everything and a default of KILL, the compiler of rules returns KILL, which does not decide as the rules do |

## Left out

- Lexer, parser, includes, error texts, system call tables and name lookup: the model starts from resolved numbers, argument indices and argument sizes; a policy may use earlier policies only because the parser looks names up among those already defined.
- Expression trees are values: nodes that the simplifier changes or frees in place, and the word constants that are written into the nodes, are functions of the tree here, so sharing and freeing are not captured.
- The instruction buffer, the stack of dispatch slots and the stack of entries are sequences; the 33-slot bound of the dispatch stack is proved where a slot is pushed.
- The library's sort is replaced by an insertion sort of a copy; only the result's being a sorted reordering is used.
- The used flags are a local sequence instead of fields of the policies, as they are cleared before each compilation.
- Several target architectures and big-endian word order: the model compiles for one audit architecture.
- Memory management: growth of the instruction buffer, allocation failures and size overflows.
- Interpreter instructions the compiler never emits, and the interpreter's error texts.
- The bitwise or that joins an action's tag and its 16-bit value is an addition, as the bits are disjoint.
- The disassembler and the program that applies the policy: not part of this model.
- Compiler.CompilePolicy: the two errors are bounded from one side; a policy over a bound may still compile, because settled tests, shared returns and merged ranges save code. Beyond the limits on conditions, whether an offset is lost is told by the finished program only, as it depends on the exact length of the code of single rules; what a misled run returns instead is not told.
- RuleCode.CompileForArch: that a dead entry is reached is promised up to 256 instructions of conditions; beyond that the last return of KILL may be out of reach, and RuleCode.KillAtOnce says exactly when on the generator's state.
