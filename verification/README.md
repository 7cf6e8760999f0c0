# CarpVM: allocator, virtual machine and assembler

A Dafny model of the three parts of CarpVM in which correctness rests on more than one function at a
time, with proofs about whole trees, whole runs and whole texts.

* **The hierarchical allocator** (`deps/talloc/talloc.c`). `Forest.dfy` gives the three header words
  of a chunk a meaning: an ordered forest. `ForestMoves.dfy` says what each operation does to the
  forest and which words that changes; `NoForest.dfy` is about memories that no forest explains.
  `Talloc.dfy` holds the allocator itself, a class over chunks whose `child`, `next` and `prev` are
  rewritten in place, and `Sessions.dfy` is about any sequence of calls.
* **The virtual machine** (`src/instructions.c`, `src/machine.c`, `src/stack.c`, `src/registers.c`).
  `Vm.dfy` is one turn of the machine as a function on its whole state, and `Effects.dfy` says of each
  instruction what it does; `Stack.dfy` and `Machine.dfy` are the objects that change in place and
  refine it. `CallStack.dfy` is the same machine with an explicit call stack, and `Simulation.dfy`,
  `Calls.dfy` and `ExitCodes.dfy` say what the one owes the other; `Discipline.dfy` says of the
  machine's own registers and buffer when a run is disciplined, and what that gives. `Gcd.dfy`,
  `Fibonacci.dfy` and `Countdown.dfy` prove three of the example programs, using `Steps.dfy`;
  `Runs.dfy` has what any run of a step function satisfies.
* **The assembler** (`src/tokenizer.c`, `src/lexer.c`, `src/hashtable.c`). `Chains.dfy` and
  `Tables.dfy` say what the label table does as a value, `HashTable.dfy` is the table in memory, and
  `Mended.dfy` the table with its slips corrected. `Tokenizer.dfy` and `Lexer.dfy` are the loops,
  `Assembler.dfy` what they compute and what it means, with the table as written and mended,
  `Collisions.dfy` has runs and texts that go wrong, and `CallTargets.dfy` where the assembled calls
  lead. `Djb2.dfy` gives the hash in closed form; `Decimals.dfy` and `WordClasses.dfy` say which words
  are numbers, which numbers they are, and what the other words are. `Program.dfy` is the way from
  words to a finished run, `GcdText.dfy` and `LoopTexts.dfy` are that way for the three programs, using
  `Names.dfy`, `ExampleFiles.dfy` is for the files as they stand, and `Opcodes.dfy` is the agreement of
  the tables that number instructions and registers.

A result of `None` in `Vm.dfy` stands for C's undefined behaviour: signed overflow, an index outside
an array, an unknown opcode, a shift by 64 or more. Memory that is refused, uninitialised words and
the bit-level operators come from an `Env`, about which nothing is assumed; so most results about runs
read "unless the machine was refused memory and switched itself off with code 1" (`Stopped`).

## Where the code does not do what it is meant to

The model follows the code. Each deviation is stated as the exact condition under which the code is
right, and the conditions are ones that a caller could check.

* `deps/talloc/talloc.c:218`: the second `is_first` test of `talloc_set_parent` runs after line 216
  has changed what it looks at, so for a chunk that is not first it is true as well, and the left
  sibling's `child` is overwritten. What is left is a forest exactly for roots, for first children,
  and for last children whose left sibling has no children (`Tallocs.MoveIsForestIff`);
  `Tallocs.SiblingLosesChild` is the smallest case that fails, and
  `Sessions.FamilyFromNothing` a session that gets there. With line 218 as an `else` every chunk
  detaches (`NoForest.ExclusiveUnlinkDetaches`), and `Sessions` is proved for both readings.
* `deps/talloc/talloc.c:274`: handing the children of a chunk to nobody clears the `prev` of the first
  one only, so it makes proper roots exactly when there is at most one (`Tallocs.StealIsForestIff`,
  `Tallocs.SecondChildHangs`).
* `src/hashtable.c:115` compares keys with the sense inverted and never looks at the first entry;
  lines 72 and 73 assume that the entry found is the first one, which makes lines 77 to 89
  unreachable. So, resizes aside, setting a key that answers something never changes the answer
  (`Chains.UpdateNeverSeen`), a third key of a bucket is not stored and its value is answered for
  the second one (`Collisions.ThirdKeyIsLost`), a deletion takes every entry before the one deleted
  with it (`Collisions.DeletionTakesTheFirst`), and a key that was set twice survives its deletion
  (`Collisions.SecondSetSurvives`). `Tables.FreshRunAgreesIff` says exactly for which runs from an empty
  table, with repeated sets and resizes among them, the table agrees with a finite map nevertheless,
  and `Mended.MendedAgrees` that with the three slips corrected it always does.
* For assembled texts this means: three distinct labels can be enough. `a: k: u: call u` does not
  assemble, and `a: k: u: call k` becomes a call of u (`Collisions.CallIsNotFound`,
  `Collisions.CallGoesElsewhere`). `Assembler.LabelsFitIff` says exactly for which texts the table
  knows all labels all the time, `Assembler.AsMeantIff` exactly which texts assemble to what they
  should; with the mended table all do (`Assembler.AssemblyMeans`).
* `src/lexer.c:27` counts from -1, so the last word of a text is assembled and not loaded.
* `src/instructions.c:129`: HALT ignores its operand and keeps `ext` as it is. `src/instructions.c:319`:
  RET does not touch `ax`. Absolute jumps set IP to the address, and IP is incremented before the
  fetch, so they resume one past it (`src/instructions.c:253-303`). The repository's own README says
  otherwise of all three.

## Model

| member | source | states |
|---|---|---|
| `Forests.PointerDiscipline` | deps/talloc/talloc.c:184-236 | in a memory that stands for a forest, `next` and `prev` are inverse along siblings, a first child's `prev` is its parent, exactly the roots have a null `prev`, and roots have no `next`; so `is_first` and `is_root` read the position correctly |
| `Forests.ShapeIsUnique` | deps/talloc/talloc.c:184-193 | the header words determine the forest: two forests with the same words have the same child lists and parents |
| `Forests.TailSplits` | deps/talloc/talloc.c:142-156 | a list of subtrees is its first chunk, what hangs below that, and the rest of the list, without overlap: what the recursion of `__tfree` visits, once each |
| `ForestMoves.DetachedHeader` | deps/talloc/talloc.c:203-220 | which header words differ between a forest and the same forest with one subtree taken out of its list |
| `ForestMoves.DetachedKids` | deps/talloc/talloc.c:203-220 | taking a subtree out removes its chunk from the one list it was in and keeps the order of the others |
| `ForestMoves.DetachedBelow` | deps/talloc/talloc.c:203-220 | a subtree that is taken out takes exactly its own descendants along |
| `ForestMoves.PushedHeader` | deps/talloc/talloc.c:222-235 | which header words differ when a root is put in front of the children of a chunk outside its subtree |
| `ForestMoves.AdoptedHeader` | deps/talloc/talloc.c:253-275 | which header words differ when all children of a root are put in front of those of another chunk |
| `ForestMoves.RenamedHeader` | deps/talloc/talloc.c:112-132 | which header words differ when a chunk has moved: those that named it name the new one |
| `NoForest.BrokenIsNoForest` | deps/talloc/talloc.c:203-220 | a memory with a right sibling that does not point back, or a root that has one, or a child that points elsewhere, stands for no forest at all |
| `NoForest.UnlinkedIsClobbered` | deps/talloc/talloc.c:203-222 | the detaching half as written yields the detached forest's words, but with the left sibling's `child` overwritten whenever there is a left sibling |
| `NoForest.ExclusiveUnlinkDetaches` | deps/talloc/talloc.c:203-222 | with line 218 as the `else` of line 215, detaching any chunk yields exactly the words of the forest without that link |
| `NoForest.CleanDetach` | deps/talloc/talloc.c:203-222 | for a root, a first child, or a last child whose left sibling is childless the code as written detaches properly |
| `NoForest.DirtyDetach` | deps/talloc/talloc.c:203-222 | for every other chunk it leaves two chunks behind whose words contradict each other |
| `NoForest.LinkedCycle` | deps/talloc/talloc.c:222-235 | putting a chunk below itself leaves a memory that no forest explains |
| `NoForest.SplicedCycle` | deps/talloc/talloc.c:253-275 | handing the children of a chunk to one of its own descendants leaves a memory that no forest explains |
| `NoForest.BrokenWhenLoosened` | deps/talloc/talloc.c:274 | handing two or more children to nobody leaves the second one pointing at a root as its left sibling |
| `Tallocs.MoveIsForestIff` | deps/talloc/talloc.c:203-236 | `talloc_set_parent` leaves a forest behind if and only if its chunk detaches cleanly and the new parent is not inside the moved subtree |
| `Tallocs.MoveShape` | deps/talloc/talloc.c:203-236 | then the chunk leads the new parent's children, in front of those that were there, is gone from where it was, and every other list and parent is unchanged |
| `Tallocs.SiblingLosesChild` | deps/talloc/talloc.c:215-219 | a forest of four chunks in which making a second child a root leaves no forest, because its left sibling has a child |
| `Tallocs.StealIsForestIff` | deps/talloc/talloc.c:246-276 | `talloc_steal` leaves a forest behind if and only if its chunk detaches cleanly and has no children, or one and no new parent, or a new parent that is not inside its subtree |
| `Tallocs.StealShape` | deps/talloc/talloc.c:246-276 | then the new parent's children are those of the chunk in their order, followed by its own former ones without the chunk; the chunk is a childless root; all else is unchanged |
| `Tallocs.SecondChildHangs` | deps/talloc/talloc.c:274 | in the same forest, handing the two children of the root to nobody leaves no forest: the second still points at the first, now a root, as its left sibling |
| `Tallocs.FellIsForestIff` | deps/talloc/talloc.c:164-175 | `tfree` leaves a forest behind if and only if its chunk detaches cleanly |
| `Tallocs.FellShape` | deps/talloc/talloc.c:164-175 | what is left after `tfree` is every chunk outside the subtree, with its parent and its children but for the one freed |
| `Tallocs.PatchedIsRenamed` | deps/talloc/talloc.c:112-132 | the words rewritten after a block has moved make exactly the old forest with the old chunk renamed everywhere |
| `Tallocs.Talloc.Unlink` | deps/talloc/talloc.c:208-222 | lines 208 to 222 on the chunks themselves: all words afterwards, both `is_first` tests included |
| `Tallocs.Talloc.LinkFront` | deps/talloc/talloc.c:224-235 | lines 224 to 235 on the chunks themselves: all words afterwards |
| `Tallocs.Talloc.SetParent` | deps/talloc/talloc.c:203-236 | all words afterwards, for any arguments; the chunks are a forest again with the chunk moved whenever `CanMove` held, and null does nothing |
| `Tallocs.Talloc.GetParent` | deps/talloc/talloc.c:184-193 | terminates with the parent in the forest, for a chunk at any position among its siblings, and with null exactly for a root |
| `Tallocs.Talloc.LastSibling` | deps/talloc/talloc.c:262-265 | the walk along `next` terminates at the last child |
| `Tallocs.Talloc.HandOver` | deps/talloc/talloc.c:253-275 | from line 253 on: all words afterwards, for any parent |
| `Tallocs.Talloc.Steal` | deps/talloc/talloc.c:246-276 | all words afterwards, for any arguments; the chunks are a forest again with the children handed over whenever `CanSteal` held |
| `Tallocs.Talloc.FreeBelow` | deps/talloc/talloc.c:142-155 | frees exactly the chunk, its right siblings and all below them, and in the order of the code: every header that is looked at, the assert on `prev` included, is a live chunk's, and what is logged is `Trace` |
| `Tallocs.TraceFrees` | deps/talloc/talloc.c:142-155 | in that log every chunk of the subtrees is freed once, no other chunk is looked at, and none is looked at or freed after it was freed |
| `Tallocs.TraceFreesAll` | deps/talloc/talloc.c:171-172 | the same for `tfree`'s chunk and all below it |
| `Tallocs.Talloc.TFree` | deps/talloc/talloc.c:164-175 | frees exactly the subtree, for any chunk, each chunk once and none touched afterwards; what is left is a forest without it whenever the chunk detached cleanly |
| `Tallocs.Talloc.Init` | deps/talloc/talloc.c:57-67 | a raw block becomes the parent's new first child or a new root and nothing else changes; null changes nothing |
| `Tallocs.Talloc.TAlloc` | deps/talloc/talloc.c:78-81 | null exactly when the allocation failed, and then nothing changed; otherwise a new chunk, childless and first under its parent |
| `Tallocs.Talloc.Patch` | deps/talloc/talloc.c:116-132 | lines 116 to 132 on the chunks themselves: all words afterwards |
| `Tallocs.Talloc.TRealloc` | deps/talloc/talloc.c:105-135 | a failed or unmoved resize leaves the forest as it was; a moved one renames the chunk; with a null pointer it is an allocation |
| `Sessions.CallMeans` | deps/talloc/talloc.c:57-276 | what each call means for child lists, parents and the set of live chunks |
| `Sessions.CallIsForestIff` | deps/talloc/talloc.c:57-276 | for every call on a forest, in either reading of line 218: the words afterwards are those of some forest if and only if `Can` holds, and then of the forest meant |
| `Sessions.SessionIsForestIff` | deps/talloc/talloc.c:57-276 | any sequence of allocations, moves, steals, frees and resizes stays with forests throughout if and only if every call in it is one that `Can` describes; in the exclusive reading that only rules out putting a chunk below itself and making several children roots |
| `Sessions.FamilyFromNothing` | deps/talloc/talloc.c:57-81 | four allocations from nothing build a forest at which line 218 and line 274 both go wrong |
| `Simulation.PutFlat` | src/instructions.c:149-154 | a STORE that hits no saved word changes one operand of one frame and leaves the layout as it was |
| `Simulation.FollowsCall` | src/instructions.c:309-317 | CALL: two saved words on the operand stack are a new frame above the caller's |
| `Simulation.FollowsRet` | src/instructions.c:319-329 | RET: cutting the stack at FP and popping twice is going back to the caller's frame and return position |
| `Simulation.JumpFollows` | src/instructions.c:253-307 | jumps: IP as the machine leaves it is one before the next position of the call-stack machine, absolute and relative, taken or not |
| `Simulation.StepFollows` | src/machine.c:113-125 | every step of the call-stack machine is a turn of the machine that keeps them related, or one that is refused memory and switches off |
| `Simulation.RunFollows` | src/machine.c:128-140 | the same for runs of any length, with the same number of turns; `Discipline.RunIsDisciplined` says which runs of the machine these are |
| `Runs.RunSimulates` | src/machine.c:128-140 | a relation kept by every step is kept by every run |
| `Runs.RunAdd` | src/machine.c:128-140 | m + n turns are m turns followed by n turns |
| `Calls.FlatChain` | src/instructions.c:309-317 | in the layout of a call stack, following the saved frame pointers takes one strictly decreasing hop for every open call and ends at 0 |
| `Calls.ReachableFrames` | src/instructions.c:309-329 | in every state such a run reaches, 0 <= FP <= SP <= the capacity, and the saved frame pointers form such a chain, as long as the number of open calls |
| `Calls.StepKeepsOuter` | src/instructions.c:109-342 | one instruction inside a call leaves the frames of all callers and their return positions as they are, but for the word a STORE names |
| `Calls.ReturnKeepsOuter` | src/instructions.c:309-329 | from anywhere inside a call to its matching RET, through nested calls of any depth: control arrives at the saved position with the caller's frame base, and the caller's words are unchanged but for those STOREs named |
| `Calls.CallReturns` | src/instructions.c:309-329 | on the machine: from a CALL to its matching RET, IP ends just after the operand, FP and SP have their values from before, and stack words below SP changed only where a STORE named them |
| `Discipline.StepIsDisciplined` | src/instructions.c:109-342 | a turn of the machine is a step of the call-stack machine if and only if it is defined, pops no more than the current call has pushed, names none of ip, sp, fp, run and ext as destination, loads and stores below SP, stores into no saved word of the chain, and returns only from a call |
| `Discipline.RunIsDisciplined` | src/machine.c:128-140 | the call-stack machine has a run of n steps if and only if n turns of the machine, as long as it is on, are of that kind; or the machine was refused memory |
| `Discipline.FramedIsRelated` | src/instructions.c:309-317 | every machine state whose saved frame pointers lead to 0 is one the call-stack machine can be in |
| `Discipline.FramesStay` | src/instructions.c:309-329 | on the machine alone: after n disciplined turns from the start, or from any such state, 0 <= FP <= SP <= the capacity and the saved frame pointers lead to 0, or memory was refused |
| `Discipline.BalancedCall` | src/instructions.c:309-329 | on the machine alone: a CALL and the first disciplined turn after it that brings the number of open calls back leave IP just after the operand, FP and SP as they were, and the words below SP unchanged but for those a STORE named; or memory was refused |
| `Discipline.ShortestCall` | src/instructions.c:309-329 | such a call exists: a CALL of a lone RET at the start of the machine, given memory |
| `Steps.FollowLeads` | src/machine.c:128-140 | where the call-stack machine gets in m steps the machine gets in m turns, or it was refused memory |
| `ExitCodes.StepOutcome` | src/instructions.c:109-131 | one turn of a running machine that does not name run: it goes on, ext as it was unless named; or it was HALT, and ext is the int that ext held; or it popped or peeked an empty stack or was refused memory, and ends with 1, unless it was a `pop ext` |
| `ExitCodes.RunOutcome` | src/machine.c:128-172 | a run that has ended, of a program that may write ext, did so in a turn k with one of these reasons and that code, and no instruction was fetched afterwards |
| `ExitCodes.CleanOutcome` | src/machine.c:128-172 | if ext is not written either, the code is 0 after HALT and 1 after a fault |
| `Opcodes.CmpIsDifference` | src/instructions.c:238-243 | `cmp` pushes what `sub` would: where it is a word, the number that added to the upper operand gives the lower one |
| `Opcodes.ToIntIs` | src/machine.c:167-172 | the code is the only int that differs from the word by a multiple of 2^32 |
| `Opcodes.OpcodesAgree` | src/carp/instructions.h:5-44 | the number a mnemonic is assembled to is the one the machine decodes to that instruction, and no other number decodes |
| `Opcodes.RegistersAgree` | src/registers.c:7-30 | each of the 21 registers has the number its name is assembled to |
| `Opcodes.RemainderIs` | src/instructions.c:77-79 | the modelled `%` is C's, section 6.5.5 of ISO/IEC 9899:2011: the only number that differs from a by a multiple of b, is smaller than b in size, and has the sign of a or is 0 |
| `Stacks.CapacityClosed` | src/stack.c:50-53 | k growths from capacity c lead to (c + 1) * 2^k - 1 |
| `Stacks.CopiedClosed` | src/stack.c:50-63 | the words copied by all growths together, in closed form |
| `Stacks.Stack.CopyingIsCheap` | src/stack.c:44-72 | at any time, the words copied are at most twice the pushes, and the capacity is (c + 1) * 2^k - 1 |
| `Stacks.Stack.constructor` | src/stack.c:8-27 | an empty stack of the given capacity, all words 0, whose height is the caller's cell |
| `Stacks.Stack.Push` | src/stack.c:44-72 | the list of items gets one more at the end, growing to 2n + 1 words if it was full and keeping the old ones; nothing changes if memory was refused |
| `Stacks.Stack.Pop` | src/stack.c:75-85 | the last item is removed and returned; an empty stack is reported and left alone |
| `Stacks.Stack.Peek` | src/stack.c:88-98 | the last item, or the report that there is none |
| `Machines.Machine.Make` | src/machine.c:79-97 | the machine is in the state that `Program.StartsAtMain` describes |
| `Machines.Machine.RegGet` | src/registers.c:33-41 | the register of that number, or none past the end |
| `Machines.Machine.RegSet` | src/registers.c:44-55 | writes one register; a number past the end is reported and nothing changes |
| `Machines.Machine.RegAdd` | src/registers.c:58-69 | adds to one register; a number past the end is reported and nothing changes |
| `Machines.Machine.StackPop` | src/instructions.c:109-113 | pops through the height kept in SP, or switches off with code 1 |
| `Machines.Machine.StackPush` | src/instructions.c:115-119 | pushes through the height kept in SP, growing the buffer, or switches off with code 1 |
| `Machines.Machine.InstrCall` | src/instructions.c:309-317 | the two pushes and two register writes in order have the effect of the step function's CALL, also if the first push switched the machine off |
| `Machines.Machine.InstrRet` | src/instructions.c:319-329 | the register write and two pops in order have the effect of the step function's RET |
| `Machines.Machine.Jump` | src/instructions.c:253-307 | what the six jumps share: taken or not, absolute or relative |
| `Machines.Machine.InstrPTop` | src/instructions.c:335-342 | prints the top; on an empty stack switches off and prints what the variable held |
| `Machines.Machine.Execute` | src/machine.c:6-43 | each opcode does what the step function says of it |
| `Effects.Halt` | src/instructions.c:129-131 | on the machine, at opcode 0: run is 0, ext the int it held; no operand is fetched |
| `Effects.Nop` | src/instructions.c:133-134 | on the machine, at opcode 1: only IP moves |
| `Effects.LoadR` | src/instructions.c:136-140 | on the machine, at opcode 2: the register is the operand; a number past the end is ignored |
| `Effects.Mov` | src/instructions.c:156-160 | on the machine, at opcode 5: the destination is the source as it stands after both operands, also if that is IP |
| `Effects.IncR` | src/instructions.c:204-206 | on the machine, at opcode 16: the register goes up by one |
| `Effects.DecR` | src/instructions.c:208-210 | on the machine, at opcode 17: the register goes down by one |
| `Effects.Load` | src/instructions.c:142-147 | on the machine, at opcode 3: the word at FP + operand goes on top |
| `Effects.Store` | src/instructions.c:149-154 | on the machine, at opcode 4: the word at FP + operand becomes the second operand, and nothing else changes |
| `Effects.PushR` | src/instructions.c:224-226 | on the machine, at opcode 20: the register, as it stands after the operand, goes on top |
| `Effects.Push` | src/instructions.c:228-230 | on the machine, at opcode 21: the operand goes on top |
| `Effects.Pop` | src/instructions.c:232-236 | on the machine, at opcode 22: the top goes into the register |
| `Effects.Add` | src/instructions.c:65-67 | on the machine, at opcode 6: lower plus upper replaces the two |
| `Effects.Sub` | src/instructions.c:69-71 | on the machine, at opcode 7: lower minus upper replaces the two |
| `Effects.Mul` | src/instructions.c:73-75 | on the machine, at opcode 8: their product replaces the two |
| `Effects.Mod` | src/instructions.c:77-79 | on the machine, at opcode 9: C's remainder of lower by upper replaces the two |
| `Effects.Shr` | src/instructions.c:81-83 | on the machine, at opcode 10: the shift of lower by upper replaces the two |
| `Effects.Shl` | src/instructions.c:85-87 | on the machine, at opcode 11: the shift of lower by upper replaces the two |
| `Effects.Xor` | src/instructions.c:89-91 | on the machine, at opcode 13: the bit-level result on lower and upper replaces the two |
| `Effects.Or` | src/instructions.c:93-95 | on the machine, at opcode 14: the bit-level result on lower and upper replaces the two |
| `Effects.And` | src/instructions.c:97-99 | on the machine, at opcode 15: the bit-level result on lower and upper replaces the two |
| `Effects.Cmp` | src/instructions.c:238-243 | on the machine, at opcode 23: lower minus upper replaces the two |
| `Effects.Lt` | src/instructions.c:101-103 | on the machine, at opcode 24: 1 replaces the two if lower is less than upper, otherwise 0 |
| `Effects.Gt` | src/instructions.c:105-107 | on the machine, at opcode 25: 1 replaces the two if lower is greater than upper, otherwise 0 |
| `Effects.Not` | src/instructions.c:186-190 | on the machine, at opcode 12: the inverted top replaces the top |
| `Effects.Inc` | src/instructions.c:212-216 | on the machine, at opcode 18: the top goes up by one |
| `Effects.Dec` | src/instructions.c:218-222 | on the machine, at opcode 19: the top goes down by one |
| `Effects.Jz` | src/instructions.c:253-263 | on the machine, at opcode 26: the top is popped; if it was 0, IP is the operand, otherwise just after it |
| `Effects.RJz` | src/instructions.c:265-275 | on the machine, at opcode 27: the top is popped; if it was 0, IP is the opcode's position plus the operand, otherwise just after it |
| `Effects.JNz` | src/instructions.c:277-287 | on the machine, at opcode 28: the top is popped; if it was not 0, IP is the operand, otherwise just after it |
| `Effects.RJNz` | src/instructions.c:289-299 | on the machine, at opcode 29: the top is popped; if it was not 0, IP is the opcode's position plus the operand, otherwise just after it |
| `Effects.Jmp` | src/instructions.c:301-303 | on the machine, at opcode 30: IP is the operand |
| `Effects.RJmp` | src/instructions.c:305-307 | on the machine, at opcode 31: IP is the opcode's position plus the operand |
| `Effects.Call` | src/instructions.c:309-317 | on the machine, at opcode 32: FP and the operand's position go on top, FP is the new height, and IP one before the operand's value |
| `Effects.Ret` | src/instructions.c:319-329 | on the machine, at opcode 33: from any height: IP and FP are the two words below FP, and SP is below them |
| `Effects.PReg` | src/instructions.c:331-333 | on the machine, at opcode 34: the register is printed |
| `Effects.PTop` | src/instructions.c:335-342 | on the machine, at opcode 35: the top is printed and stays |
| `Machines.Machine.Eval` | src/machine.c:113-125 | one turn of the object is one step of the step function, for registers, buffer, output and environment alike |
| `Machines.Machine.Loop` | src/machine.c:128-140 | the loop ends in the state the specification's run ends in, and returns its ext |
| `Gcd.GcdStep` | examples/carp/gcd.carp:5-11 | a greatest common divisor of y and x % y is one of x and y |
| `Gcd.GcdIsUnique` | examples/carp/gcd.carp:1-20 | two numbers have only one greatest common divisor |
| `Gcd.Round` | examples/carp/gcd.carp:5-11 | one turn of the loop replaces (x, r1) by (r1, x % r1) and leaves the loop when the remainder is 0; the jump back lands on the operand word r1, which is the NOP opcode |
| `Gcd.Loop` | examples/carp/gcd.carp:5-11 | the loop ends after finitely many steps, with r1 as measure, with a greatest common divisor on the stack |
| `Gcd.GcdProgram` | examples/carp/gcd.carp:1-20 | for all a >= 0 and b >= 1 the program halts with exit code 0, having printed gcd(a, b) and left it in ax, with FP and SP as before the call; or it was refused memory |
| `Fibonacci.Rounds` | examples/carp/fibonacci.carp:5-12 | after k turns r0 and r1 are Fib(k) and Fib(k + 1) and the first k numbers are printed |
| `Fibonacci.FibonacciProgram` | examples/carp/fibonacci.carp:1-13 | for all n >= 1 with Fib(n + 1) a word, the program halts having printed Fib(0) to Fib(n - 1), with r0 = Fib(n), r1 = Fib(n + 1), r2 = 0 and SP = 0; or it was refused memory |
| `Fibonacci.FibonacciOverflow` | examples/carp/fibonacci.carp:1-13 | for all other n >= 1 a run has no defined outcome, because a sum overflows, unless it was refused memory before |
| `Countdown.CountdownProgram` | examples/carp/countdown.carp:1-7 | for all n >= 0 the program halts having printed n down to 0, with r0 = -1 and SP = 0; or it was refused memory |
| `Chains.SetIsRightIff` | src/hashtable.c:106-131 | as written, setting a key changes the answers of its bucket as a map would if and only if `SetFits`: the bucket is empty, or nothing is overwritten and the key is new or has the value already, or the key has the value already and the overwritten entry has it too or is hidden |
| `Chains.NewKeyFits` | src/hashtable.c:106-131 | a new key is stored properly if and only if its bucket has at most one entry |
| `Chains.UpdateNeverSeen` | src/hashtable.c:106-131 | without a resize, setting a key that is present never changes what that key answers |
| `Chains.StaysAbsent` | src/hashtable.c:106-131 | setting one key makes no other key appear, and not even that one if there are two entries before it |
| `Chains.DeleteIsRightIff` | src/hashtable.c:59-92 | as written, on any chain, deleting is right if and only if the key is absent; or it does not occur again behind the entry found and what is left answers as before for the keys in front of that entry |
| `Chains.DeleteTailedIff` | src/hashtable.c:59-92 | in the chains that come about that says: the key is absent, or first and not there again |
| `Collisions.ThirdKeyIsLost` | src/hashtable.c:113-121 | labels `a`, `k` and `u` set one after the other in a table of ten buckets: u is not stored, and k answers with u's value |
| `Collisions.DeletionTakesTheFirst` | src/hashtable.c:72-75 | setting `a` and `k` and deleting k loses a as well |
| `Collisions.UpdateIsNotSeen` | src/hashtable.c:113-124 | setting `k` twice, the first value is answered |
| `Collisions.SecondSetSurvives` | src/hashtable.c:72-75 | setting `k` twice to the same value agrees with a map, and then k survives its deletion |
| `Tables.HotIff` | src/hashtable.c:102 | the test for a resize, freed of its division: 100 * entries >= 61 * size |
| `Tables.UsedFitsShort` | src/hashtable.c:27-40 | within the load bound the percentage is between 0 and 160, so it fits its short |
| `Tables.PutIsRightIff` | src/hashtable.c:106-131 | without a resize, and with keys repeated or not, setting a key agrees with a map on all keys if and only if its bucket fits |
| `Tables.ResizeStaysCool` | src/hashtable.c:150-179 | while a table within its load is copied, the new one never asks for a resize: the recursion of set and resize is one deep |
| `Tables.SetKeepsLoad` | src/hashtable.c:94-132 | 100 * entries < 61 * size + 100 is kept by every set, as written, with its resize |
| `Tables.RunKeepsLoad` | src/hashtable.c:59-132 | and by every sequence of sets and deletions |
| `Tables.RunKeepsShape` | src/hashtable.c:42-179 | every sequence of sets and deletions, right or wrong, leaves every entry in the bucket of its hash, and in every chain the same key from the second entry on |
| `Tables.NextSet` | src/hashtable.c:163-172 | each set made inside a resize does exactly what the copying needs, its own test for a resize included |
| `Tables.AllArrive` | src/hashtable.c:163-172 | if the entries due in one bucket of the new table all have the same key, the first one aside, all of them are stored as they are |
| `Tables.OneIsLost` | src/hashtable.c:163-172 | if not, some key that is due there is not stored |
| `Tables.ResizeKeepsIff` | src/hashtable.c:150-179 | a resize of any table that can come about gives the same answers as before if and only if in every new bucket the entries due all have the same key, the first one aside |
| `Tables.SetIsRightIffFits` | src/hashtable.c:94-132 | a set on any table that can come about, of a new key or an old one, with a resize or without, agrees with a map on all keys if and only if a resize, if due, loses nothing, and the bucket fits |
| `Tables.DelIsRightIffFits` | src/hashtable.c:59-92 | a deletion on any table that can come about agrees with a map on all keys if and only if the key is absent, or first in its bucket and not there again |
| `Tables.RunAgrees` | src/hashtable.c:42-179 | a table that agrees with a finite map still does after any calls that fit |
| `Tables.RunAgreesIff` | src/hashtable.c:42-179 | any run of sets and deletions agrees with the map at every point if and only if every call fits |
| `Tables.FreshRunAgreesIff` | src/hashtable.c:42-179 | the same for every run from an empty table of any size on; the load bound and the shape hold at the end in any case |
| `Mended.OverwriteIs` | src/hashtable.c:114-129 | one chain, key tests mended: the update of a map, keys staying distinct |
| `Mended.UnlinkIs` | src/hashtable.c:72-89 | one chain, deletion mended: the deletion of a map |
| `Mended.EnlargeKeeps` | src/hashtable.c:150-179 | mended, a resize keeps every answer and puts every entry into its new bucket, never asking for another resize |
| `Mended.SetIsRight` | src/hashtable.c:94-132 | mended, a set answers as the updated map would, with its resize, and keeps every entry in the bucket of its hash |
| `Mended.MendedAgrees` | src/hashtable.c:42-179 | mended, any sequence of sets, gets and deletions agrees with a finite map, resizes included |
| `HashTables.RawHashOf` | src/hashtable.c:9-20 | the loop computes the hash that `Djb2.HashIs` gives in closed form |
| `Djb2.HashIs` | src/hashtable.c:9-20 | the hash of any key is the seed times 33^n plus the sum of every character times 33 to the number of characters after it, modulo 2^64 |
| `Djb2.SomeBuckets` | src/hashtable.c:22-25 | three longer keys: `mul`, `mod` and `main` go into buckets 7, 1 and 2 of ten |
| `HashTables.HashTable.constructor` | src/hashtable.c:42-57 | an empty table of the given size |
| `HashTables.HashTable.HashOf` | src/hashtable.c:22-25 | the bucket of a key |
| `HashTables.HashTable.UsedPercent` | src/hashtable.c:27-40 | the two loops count all entries; the percentage is narrowed to a short, which changes nothing within the load bound |
| `HashTables.HashTable.Find` | src/hashtable.c:134-148 | the first entry with the key, as the value-level lookup says, or null |
| `HashTables.HashTable.Delete` | src/hashtable.c:59-92 | the linked buckets afterwards are those of the value-level deletion; 1 exactly when the key was absent, otherwise 0 |
| `HashTables.HashTable.Insert` | src/hashtable.c:106-131 | lines 106 to 131 on linked entries: the value-level set without its resize |
| `HashTables.HashTable.InsertInChain` | src/hashtable.c:113-129 | the chain loop overwrites the entry the model says, or appends |
| `HashTables.HashTable.Set` | src/hashtable.c:94-132 | the linked table afterwards is that of the value-level set; it fails exactly when a resize was due and refused, changing nothing; the load bound is kept, and the recursion through resize ends |
| `HashTables.HashTable.Grow` | src/hashtable.c:150-179 | the linked table afterwards is that of the value-level resize, on new entries, whether it was due or not; a refusal changes nothing |
| `HashTables.HashTable.CopyBucket` | src/hashtable.c:163-172 | the inner loop sets every entry of one bucket in the new table, in order |
| `Assembler.LabelsAnswer` | src/lexer.c:52-60 | the table answers every name with the position of the last label of that name: for every text when mended, and as written if the labels fit |
| `Assembler.LabelsFitIff` | src/lexer.c:52-60 | as written: every label fits the table when it is entered, if and only if after every token the table answers every name with the position of its last label |
| `Assembler.OnlyLabelsAnswer` | src/lexer.c:61-68 | as written, the table never answers for a name that is no label |
| `Assembler.ValuesMean` | src/lexer.c:38-83 | for every text without unknown words with the table mended, and as written if the labels fit: assembly has a value for every token if and only if every called name has a label before its call, and then the values are what the tokens mean |
| `Assembler.AssemblyMeans` | src/lexer.c:23-97 | the same for the loaded image: it agrees with the meaning of every token and is one word short of the text |
| `Assembler.AsMeantIff` | src/lexer.c:38-83 | a text assembles as written to what it should, or to nothing when it should not assemble, if and only if its calls, should they all resolve, are all known to the table as written; and what assembles as written resolves |
| `Collisions.CallIsNotFound` | src/lexer.c:61-65 | `a: k: u: call u` has distinct labels and its call resolves, and as written it does not assemble |
| `Collisions.CallGoesElsewhere` | src/lexer.c:61-68 | `a: k: u: call k` assembles as written to a call of u |
| `Assembler.CallTarget` | src/lexer.c:61-68 | with the table mended, or if the labels fit: the value of a call is the position of an earlier label of that name, which is loaded, as the opcode of NOP |
| `Assembler.LabelFound` | src/lexer.c:52-60 | with the table mended, or if the labels fit: a label that is found by name is loaded as a NOP unless it is the last word of the text |
| `Assembler.TwoLabelsFit` | src/lexer.c:36-60 | two distinct labels always fit, whatever they hash to, and cause no resize |
| `CallTargets.CallFetchesLabel` | src/instructions.c:309-317 | with the table mended, or if the labels fit: an assembled `call f`, when run, next fetches the NOP at the position of the label f before it |
| `CallTargets.StartFetchesMain` | src/machine.c:85-91 | with the table mended, or if the labels fit: the first word the machine fetches is the NOP at the label main, unless the label is the last word of the text |
| `Lexer.LookupName` | src/tokenizer.c:181-201 | the loops of the two lookups return the first index of the name, or -1 |
| `Assembler.IndexIs` | src/tokenizer.c:181-200 | -1 only for a name that is not there, otherwise the first index |
| `Lexer.Value` | src/lexer.c:39-74 | the value of one token, and its label entered, as the specification says, a `$` token keeping what its memory held; failure exactly when the specification has no value, or a label needs a resize and memory for it was refused; for numbers see `Decimals.AtoiIs` |
| `Lexer.GiveValues` | src/lexer.c:38-83 | the first loop gives every token its value and counts one less than there are |
| `Lexer.CopyOut` | src/lexer.c:85-92 | the second loop copies every value to its position |
| `Lexer.Lex` | src/lexer.c:23-97 | on a linked list of tokens: the code and the label table are those of the specification, or the specification has none or memory was refused |
| `Tokenizer.ScanSpelled` | src/tokenizer.c:81-122 | spelling out any text of well-formed lexemes and scanning it gives the text back |
| `Tokenizer.SpellScanned` | src/tokenizer.c:81-122 | scanning any words and spelling them out gives the words back if and only if every label ends in its colon and every variable starts with its dollar sign |
| `Tokenizer.NumTest` | src/tokenizer.c:140-154 | the loop tests for what `Decimals.NumIff` describes |
| `Decimals.NumIff` | src/tokenizer.c:135-154 | a number is an optional sign and then only the ten digits, of which there must be one if there is no sign |
| `Decimals.SpellingReads` | src/lexer.c:44-47 | every integer, spelled in decimal with or without a plus sign, is a number, and its value is that integer |
| `Decimals.DigitsByPlace` | src/lexer.c:44-47 | in any string of digits the first counts as many tens as there are digits after it |
| `Decimals.AtoiIs` | src/lexer.c:44-47 | the value of every number the tokenizer takes: what its digits say, with its sign |
| `WordClasses.ClassifyIs` | src/tokenizer.c:84-98 | which words are numbers, registers, labels, functions, variables and instructions, said of the word and of whether it follows `call` |
| `Tokenizer.Tokenize` | src/tokenizer.c:69-131 | the loop builds a linked list of tokens with positions from 0 on, classified as the specification says, by the word before where that matters |
| `Program.RunWords` | src/machine.c:175-186 | tokenizing, assembling, loading and running any words: the machine ends where the run of the assembled image ends that starts at main, wherever that is, and returns its ext; without main it returns 1 having done nothing; no machine, and 1, only if the text has no values or the label table was refused memory |
| `Program.StartsAtMain` | src/machine.c:79-97 | if the table has main at k, the run starts on, with k next to be fetched, all other registers 0, and an empty stack of one word; otherwise off with code 1 |
| `Program.FirstFetchesMain` | src/machine.c:85-91 | if the labels fit, the run starts at the last label main, and fetches its NOP unless that is the last word of the text |
| `Program.NoMainNoRun` | src/machine.c:85-88 | a text without a label main fetches nothing, prints nothing and returns 1 |
| `GcdText.TextAssembles` | examples/carp/gcd.carp:1-20 | the text, with any two numbers, assembles to the image that `Gcd.GcdProgram` is about, and main is at 24 |
| `GcdText.TextFitting` | examples/carp/gcd.carp:1-20 | every word of the text is scanned as what it is meant to be |
| `GcdText.RunText` | src/machine.c:175-186 | `carp_run_program` on the words of gcd.carp, with any numbers whose values are a >= 0 and b >= 1: it ends, and has printed gcd(a, b) and returns 0, or was refused stack memory and returns 1 |
| `GcdText.RunNumbers` | src/machine.c:175-186 | the same for any integers a >= 0 and b >= 1, spelled in decimal |
| `ExampleFiles.RunGcd` | examples/carp/gcd.carp:1-20 | the file as it stands: prints 57 and returns 0, or was refused stack memory |
| `LoopTexts.CountdownAssembles` | examples/carp/countdown.carp:1-7 | the text, with any number, assembles to the image that `Countdown.CountdownProgram` is about, and main is at 0 |
| `LoopTexts.FibonacciAssembles` | examples/carp/fibonacci.carp:1-13 | the text, with any number, assembles to the image that `Fibonacci.FibonacciProgram` is about, and main is at 0 |
| `LoopTexts.RunCountdown` | src/machine.c:175-186 | `carp_run_program` on the words of countdown.carp, with any number n >= 0: it ends, and has printed n down to 0 and returns 0, or was refused stack memory and returns 1 |
| `LoopTexts.RunFibonacci` | src/machine.c:175-186 | `carp_run_program` on the words of fibonacci.carp, with any n >= 1 for which Fib(n + 1) is a word: it ends, and has printed the first n numbers and returns 0, or was refused stack memory and returns 1 |
| `LoopTexts.RunCountdownFrom` | src/machine.c:175-186 | the same for countdown.carp with any integer n >= 0 that is a word, spelled in decimal |
| `LoopTexts.RunFibonacciFrom` | src/machine.c:175-186 | the same for fibonacci.carp with any such integer, spelled in decimal |
| `ExampleFiles.RunCountdown` | examples/carp/countdown.carp:1-7 | the file as it stands: prints 10 down to 0 and returns 0, or was refused stack memory |
| `ExampleFiles.RunFibonacci` | examples/carp/fibonacci.carp:1-13 | the file as it stands: prints 0, 1, 1, 2, 3, 5, 8, 13, 21, 34 and returns 0, or was refused stack memory |

## Left out

- Raw memory: headers are the fields of a chunk, not words in front of it, so `raw2usr` and payloads do not appear; `tzalloc` differs from `talloc` only in its payload.
- `Forests.PointerDiscipline` and everything built on it takes live chunks as arguments, as the code does; a dangling pointer is outside the model.
- `talloc_set_parent` and its kin on calls that leave no forest: the words afterwards are given, and that no forest explains them; what later calls do to such a memory is not.
- The command line, file reading, printing to terminals and cleaning up (`src/main.c`, `src/file.c`, `carp_vm_cleanup`, the print functions): output is a sequence of numbers.
- `carp_vm_init`: the run of a text goes through `carp_vm_make`, which is modelled; the other entry differs in the stack's initial capacity and in making its own label table.
- `Machines.Machine.Make`: the first stack, of one word, and the code buffer are granted; when they are refused the code reports it and then goes on with a null or uninitialised pointer.
- `Stacks.Stack.constructor`: the memory is granted, for the same reason.
- `HashTables.HashTable.constructor`: the memory is granted; `carp_lex_lex` ignores a refusal and goes on with a null pointer.
- Bit-level operators: xor, or, and, not and the shifts are arbitrary functions of their operands; only their stack effect matters.
- Register numbers and exit codes beyond 31 bits: the conversion to `int` is modelled where `carp_reg_get` and its kin are called, and a negative number counts as undefined.
- `$` variables: `src/lexer.c:69` gives them no value, so their word is whatever the token's memory held, which is a parameter; the `vars` table is not modelled.
- Fixed buffers: a lexeme and a key are strings of any length, where the code has arrays of a fixed size and asks for words shorter than 10 characters.
- The word at index `length` of the temporary code array is one past its end (`src/lexer.c:87-92`); the array of the model has that word.
- Characters: `strtok` is not modelled, a text is a sequence of words; a character is a non-negative number in the hash, where C's `char` may be signed; `atoi` is taken on numbers that fit.
- `calloc` of a single hash table entry or token is taken to succeed; that of a resize may fail.
- `HashTables.HashTable.Set`: asks for the load bound that every table has from `carp_ht_init` on and every call keeps.
- `Machines.Machine.Eval` and the other methods of the machine ask for a defined step; what C does beyond its definition is not modelled.
- Undisciplined runs, which overwrite saved words or name ip, sp, fp, run or ext as a destination: how they end is modelled (`ExitCodes.RunOutcome`), what they keep is not; an arbitrary jump is possible.
- The remaining example programs, which need nothing that the three proved ones do not, and `new-parser`, which is unfinished.
