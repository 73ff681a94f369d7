# A model of the SC32 processor simulators and of the Forth system built for them

The project models the parts of the repository where several mechanisms have to agree, and proves that they do.

**The processor with cache** (`chips/sim/fsim4c.c`). `CacheBus` is one cycle of the sub-block cache controller and
the bus unit with its write buffer; `Sc32` is phase a and phase b of each of the thirteen kinds of datapath cycle:
delayed write-back, the anticipated top of the return stack, branches predicted taken, interrupts, stack caches that
spill and fill. `CacheUnit`, `Sc32Unit` and `Processor` are the same machine as classes whose methods change registers,
buffers, tag RAM and memory in place. `Isa` is what a programmer sees: one step an instruction or an interrupt,
unbounded stacks, one flat memory. The chain of results is: cache, write buffer and memory are one flat memory; a stall
lasts exactly as long as the wait counts say; stalls only delay the datapath; the datapath over a flat memory executes
`Isa`; hence the clocked processor does, at a rate of at least one instruction in every six cycles, spills at the start
aside.

**Pipelined and unpipelined** (`chips/sim/fsim4a.c`, `chips/sim/fsim4.c`). The pipelined machine defers its register
write by a phase and anticipates the top of the return stack; the unpipelined one does neither. `PipelineEquivalence`
gives the exact condition under which a cycle, and a run, keeps them in step, spills and fills included. `FriscIsa` is
their instruction set with unbounded stacks and no cycles; the unpipelined machine refines it, and for the programs that
do, the pipelined one keeps in step and so does too.

**Steps of the ALU** (`chips/sim/aluopsc.c` and the STEP class of `fsim4c.c`). Booth multiply steps, non-restoring
divide steps and the comparison conditions, against exact integer arithmetic.

**The Forth system** (`ans/jhforthc.c`). Arithmetic words and number conversion as the threaded code has them, word by
word on two stacks; counted loops with their biased counter; `catch` and `throw` on one return stack with a chain of
frames.

**The meta-compiler** (`ans/meta/dirs.c`, `ans/meta/fc.c`). Back-patching control words against a structured language
with its own meaning, the inner interpreter in between; the names it gives to words; its symbol table.

**The serial driver** (`ans/hk68/iohk68v2f.c`) as a set of interleaved events, and **two cache simulators**
(`chips/measure/dmcache.c`, `chips/measure/dmsubcache.c`): what relates two of their runs, and what each reports.

## Model

| member | source | states |
|---|---|---|
| CacheRefinement.AccessCycle | chips/sim/fsim4c.c:407-645 | one bus cycle of any access in progress either stalls, one cycle nearer to completion, or completes with the answer and the effect of a flat memory |
| CacheRefinement.AccessCompletes | chips/sim/fsim4c.c:407-663 | every access completes, from every state in the middle of it |
| CacheRefinement.CacheRefinesMemory | chips/sim/fsim4c.c:407-770 | for every sequence of ordinary requests, every read answers as the flat memory would at that point, and memory with the buffered write carried out is the flat memory, despite buffered writes, late line updates and junk in a line being filled |
| CacheRefinement.FlatIsLatest | chips/sim/fsim4c.c:666-770 | the flat memory is independent of any cache: each cell holds the latest word stored there with the later byte stores merged in, or what it held at the start |
| CacheRefinement.BytesAreLatest | chips/sim/fsim4c.c:666-770 | and each byte is the latest stored there, alone or in its word |
| CacheRefinement.StallTime | chips/sim/fsim4c.c:407-645 | the stall of an access is exactly the buffered write's remaining count plus the access's own wait, at least one cycle for a cache miss or a write that hits, none for a read hit |
| CacheRefinement.StallBound | chips/sim/fsim4c.c:566-645 | between accesses that stall is bounded by the buffered write's count and the page's wait count; a read hit never stalls |
| CacheRefinement.PageStalls | chips/sim/fsim4c.c:185-188 | the exact stall of an access, from the attribute word of its page: bit 6 makes the page cachable, the low six bits and one are its wait, 63 is none |
| CacheRefinement.UncachedPage | chips/sim/fsim4c.c:407-645 | an access of a page that is not cached, or with the cache off, leaves tag RAM and data RAM as they were; a write leaves the wait of its page to the next access |
| CacheRefinement.SecondRead | chips/sim/fsim4c.c:407-563 | once a cell of a cached page has been read, reading it again does not stall |
| CacheRefinement.BackdoorInvalidates | chips/sim/fsim4c.c:407-563 | an access from 0x28000000 up empties exactly one line of the tag RAM and changes no memory, after one stall |
| CacheRefinement.EmptyIsQuiescent | chips/sim/fsim4c.c:139-159 | with an empty tag RAM and an idle bus the cache is coherent whatever the data RAM holds |
| CacheRefinement.SetUp | chips/sim/fsim4c.c:803-829 | page attributes and the cache enable may change while no sub-block is marked present |
| CacheRefinement.CacheTurnsOn | chips/sim/fsim4c.c:407-470 | from power-up with the cache off, after any accesses, the cache can be turned on and is coherent |
| CacheRefinement.CellOf | chips/sim/fsim4c.c:139-159 | two addresses share block, tag and sub-block exactly if they lie in one cell, and a place in the data RAM exactly if they share block and sub-block |
| MainMemory.FetchStore | chips/sim/fsim4c.c:666-770 | a store is seen by every later fetch of that cell, in low or high memory, and by no other |
| MainMemory.BigEndian | chips/sim/fsim4c.c:1241-1256 | the bytes of a cell weigh 2^24, 2^16, 2^8 and 1 in the order of their addresses |
| CacheUnit.MemorySystem.Iodecode | chips/sim/fsim4c.c:407-563 | the method on tag RAM, data RAM and memory arrays makes exactly the cycle that the theorems are about, the bus unit driven once |
| CacheUnit.MemorySystem.Biu | chips/sim/fsim4c.c:566-663 | one cycle of the bus unit on the memory arrays |
| CacheUnit.MemorySystem.Access | chips/sim/fsim4c.c:407-645 | a whole access, repeated while stalled: the flat memory's answer and effect, after exactly the stall that the state foretells |
| StackCache.PushIsLogical | chips/sim/fsim4c.c:1646-1680 | moving the top up is a push on the unbounded stack that the buffer and its memory stand for |
| StackCache.PopIsLogical | chips/sim/fsim4c.c:1646-1680 | moving it down is a pop |
| StackCache.ReadIsLogical | chips/sim/fsim4c.c:1683-1717 | the top four entries of the buffer are the top four of the unbounded stack |
| StackCache.WriteIsLogical | chips/sim/fsim4c.c:2088-2113 | writing one of them writes that entry and no other |
| StackCache.SpillKeepsLogical | chips/sim/fsim4c.c:1378-1414 | storing the oldest entry below the external pointer leaves the unbounded stack as it is |
| StackCache.FillKeepsLogical | chips/sim/fsim4c.c:1417-1458 | so does bringing an entry back |
| StackBuffers.StackBuffer.Move | chips/sim/fsim4c.c:1646-1680 | the circular buffer changed in place moves its top as the stack does |
| Isa.LoadMeans | chips/sim/fsim4c.c:1720-1744 | a load writes its second register with the cell at its first register plus its offset, modulo 2^32 |
| Isa.LoadByteMeans | chips/sim/fsim4c.c:1233-1268 | a load of a byte writes that byte of the cell there, the most significant one at the lowest address |
| Isa.StoreMeans | chips/sim/fsim4c.c:1271-1298 | a store changes the cell at that sum, and no other, to its second register as the moved stacks give it |
| Isa.StoreByteMeans | chips/sim/fsim4c.c:1271-1298 | a store of a byte changes that byte of memory, and no other |
| Isa.LiteralMeans | chips/sim/fsim4c.c:1720-1744 | literals are that sum, high literals with the offset times 2^16 |
| Isa.AdvanceMeans | chips/sim/fsim4c.c:1549-1680 | apart from its result, an instruction goes to the next cell or to the top of the return stack, and moves the two stacks by its two fields |
| Isa.FlowMeans | chips/sim/fsim4c.c:1549-1680 | calls push the address after their own on the return stack, `does` on the parameter stack, conditional branches go on if the flag is set |
| Isa.InterruptMeans | chips/sim/fsim4c.c:1351-1375 | an interrupt pushes the address of the instruction not executed, clears bit 4 of the status word and goes to the cell of its line |
| Sc32Refinement.AluIsOperands | chips/sim/fsim4c.c:1720-1744 | what the datapath puts through its ALU is what `Isa` asks for |
| Sc32Latches.TopAlwaysAnticipated | chips/sim/fsim4c.c:1118-1165 | in every run, stack caches on or off, whatever memory answers and whatever the stack registers are set to, at every execute cycle the latch that stands for the top of the return stack holds it once the pending write-back is made |
| Sc32Latches.PhibAnticipates | chips/sim/fsim4c.c:1233-1541 | every kind of cycle but the first of a fill leaves that latch right |
| Sc32Latches.CleanupAnticipates | chips/sim/fsim4c.c:2116-2191 | the write-back that an instruction leaves writes its destination with its result, and the latch it leaves selected holds that result exactly if the destination is the top of the return stack |
| Sc32Latches.FetchLatches | chips/sim/fsim4c.c:1301-1375 | the cycles that take an instruction latch the word at the address on the bus and move the program counter past it; all others leave both alone |
| Sc32Latches.IrIsFetched | chips/sim/fsim4c.c:1301-1375 | in every run the instruction register holds the word last taken, and it was taken from four below the program counter |
| Sc32Latches.ExecIsFetch | chips/sim/fsim4c.c:1301-1328 | from the first execute cycle on there is such a word |
| Sc32Latches.BranchGoes | chips/sim/fsim4c.c:1330-1348 | a conditional branch, predicted taken and squashed if not, ends with the instruction at the target of the plain branch, registers untouched, falling through to the address after its own |
| Sc32Latches.InterruptReturns | chips/sim/fsim4c.c:1351-1375 | an interrupt pushes the address from which the first unexecuted instruction was fetched, and disables interrupts |
| Sc32Refinement.InstructionStep | chips/sim/fsim4c.c:1301-1328 | an instruction without a data access is one cycle, and the state after the pending write-back is the `Isa` state |
| Sc32Refinement.LoadStep | chips/sim/fsim4c.c:1233-1268 | a load of a word or byte is two cycles |
| Sc32Refinement.StoreStep | chips/sim/fsim4c.c:1271-1298 | a store of a word or byte is two cycles, with the `Isa` step's effect on memory; outside reserved memory the state after it is in order |
| Sc32Refinement.SquashStep | chips/sim/fsim4c.c:1330-1348 | a branch that falls through is two cycles and one `Isa` step |
| Sc32Refinement.InterruptStep | chips/sim/fsim4c.c:1351-1375 | an interrupt happens only while the program has interrupts on, and is a call of its vector |
| Sc32Refinement.RSpill | chips/sim/fsim4c.c:1378-1414 | two cycles spill the return stack: one reserved word changes, nothing that a program sees |
| Sc32Refinement.PSpill | chips/sim/fsim4c.c:1461-1497 | the same for the parameter stack |
| Sc32Refinement.RFill | chips/sim/fsim4c.c:1417-1458 | two cycles and the write-back after them fill the return stack: nothing that a program sees changes |
| Sc32Refinement.PFill | chips/sim/fsim4c.c:1500-1541 | the same for the parameter stack |
| Sc32Refinement.BoundaryInv | chips/sim/fsim4c.c:1031-1097 | the next cycle chosen, return stack before parameter stack before interrupts, leads to a state with five to fifteen cached entries wherever an instruction starts |
| Sc32Interrupts.InterruptsAnswered | chips/sim/fsim4c.c:996-1097 | after every step of a disciplined program an interrupt comes next only if one is requested and interrupts are on; and if one is requested an instruction comes next only if they are off or the step was an instruction that wrote the status word |
| Sc32Progress.StackWorkFalls | chips/sim/fsim4c.c:1031-1097 | every spill or fill leaves less stack work, so instructions are not starved |
| Sc32Runs.ChipRefinesIsa | chips/sim/fsim4c.c:1031-1541 | every run of the datapath over a flat memory, under any interrupts on the 32 lines, executes a disciplined program: after all its cycles or all but the last, registers, stacks and memory are those of a run of `Isa`, with at least one instruction or interrupt in six cycles, four at the start aside |
| Sc32Start.CachesTurnOn | chips/sim/fsim4c.c:803-829 | the store that turns both stack caches on, with five to fifteen entries each, brings the datapath from caches off into the state that the refinement starts from |
| Sc32Start.DisciplineExists | chips/sim/fsim4c.c:1006-1024 | under every encoding that has four given instructions, whatever the others, there is a state in order with interrupts on whose program, which pushes, pops, stores, jumps and handles all 32 interrupts, is disciplined; the datapath takes any of them there |
| Sc32Start.InterruptComesBack | chips/sim/fsim4c.c:1351-1375 | in the loop of that program an interrupt and its one-instruction handler leave machine and memory exactly as they were |
| Sc32Start.BusyStays | chips/sim/fsim4c.c:1351-1375 | no instruction, interrupt or spill takes that program out of its loop and handler |
| Sc32System.StallTransparency | chips/sim/fsim4c.c:1100-1230 | the datapath driven by cache, write buffer and wait counts ends where it would over a flat memory |
| Sc32System.EnableBit | chips/sim/fsim4c.c:420-455 | the cache is enabled by bit 3 of the status word |
| Sc32System.SystemRefinesIsa | chips/sim/fsim4c.c:407-1541 | so the whole chip executes a disciplined program as its programmer sees it |
| Sc32Clock.CycleClocks | chips/sim/fsim4c.c:1100-1115 | clock by clock, a cycle takes one clock and its access's exact stall; until the last of them the datapath stands still after phase a |
| Sc32Clock.StallsOnlyDelay | chips/sim/fsim4c.c:1100-1115 | after any number of clocks the processor is where whole cycles leave it, or in the middle of the next; phases a and b alternate, and the clocks are exactly those of the cycles |
| Sc32Clock.DeviceIgnored | chips/sim/fsim4c.c:407-563 | what a device would answer makes no difference to an access of memory |
| Sc32Unit.Datapath.PhaseA | chips/sim/fsim4c.c:1118-1165 | phase a on registers and buffers changed in place: write-back, the cycle's own work, the next state |
| Sc32Unit.Datapath.PhaseB | chips/sim/fsim4c.c:1168-1230 | phase b likewise |
| Processor.System.Tick | chips/sim/fsim4c.c:1100-1115 | one clock of the composed processor, the datapath guarded by the stall signals |
| Processor.System.Run | chips/sim/fsim4c.c:843-884 | a number of clocks |
| Processor.System.Execute | chips/sim/fsim4c.c:843-1541 | after any number of clocks from a state in order, all whole cycles of the datapath or all but the last make a run of `Isa` of a disciplined program, with the registers, stacks and memory of that run; the processor is in that state, or one cycle further in the middle of an instruction, or waits in the next cycle for its access |
| PipelineEquivalence.CycleRelated | chips/sim/fsim4a.c:551-1109 | one cycle of both machines, of whichever kind, keeps them in step exactly if the register write of that cycle is harmless: it changes neither the choice of the next cycle nor the unanticipated top of the return stack, and leaves interrupts off |
| PipelineEquivalence.InStepExactly | chips/sim/fsim4a.c:551-1109 | a whole run keeps them in step exactly if all its writes are harmless |
| PipelineEquivalence.PipelineEquivalent | chips/sim/fsim4.c:530-1026 | from any two aligned states, stack caches on or off, over any number of cycles of execution, spills, fills, loads, stores and DMA, for any encoding, ALU and shifter: same kind of cycle, same memory and cycle count throughout, and at every execute cycle the same registers and stacks |
| PipelineEquivalence.ResetAligns | chips/sim/fsim4a.c:437-466 | a reset aligns the machines |
| PipelineEquivalence.CachesTurnOn | chips/sim/fsim4a.c:1655-1710 | a status write that turns both stack caches on is harmless if it keeps the top where it is and neither cache is at a limit, so states with caches on are reached |
| PipelineEquivalence.SelectingIsHarmless | chips/sim/fsim4a.c:1655-1710 | a write of the processor status word is harmless exactly if it leaves interrupts off |
| PipelineEquivalence.TameIsHarmless | chips/sim/fsim4.c:1612-1667 | every write to another register is harmless |
| PipelineEquivalence.StatusWriteDiffers | chips/sim/fsim4a.c:551-620 | a concrete status write, one LAH of a 16-bit offset, after which one machine spills and the other executes |
| FriscUnits.UnpipelinedUnit.Run | chips/sim/fsim4.c:371-402 | the unpipelined machine on registers and buffers changed in place |
| FriscUnits.PipelinedUnit.Run | chips/sim/fsim4a.c:389-420 | the pipelined machine likewise |
| FriscUnits.RunBoth | chips/sim/fsim4a.c:389-420 | the two objects, run side by side from aligned states, agree on memory, cycle count and kind of cycle, and are aligned at every execute cycle |
| FriscRefinement.InstructionStep | chips/sim/fsim4.c:788-820 | one cycle of the unpipelined machine is one instruction of `FriscIsa`, which moves the parameter stack by `pop` and the return stack by `rop`, writes `reg2` with the sum or the ALU, test or shifter result, and goes to `dest`, the top of the return stack or the next cell |
| FriscRefinement.LoadStep | chips/sim/fsim4.c:740-763 | a load is two cycles |
| FriscRefinement.StoreStep | chips/sim/fsim4.c:765-786 | a store outside the reserved memory is two cycles, with its effect on memory |
| FriscRefinement.RSpill | chips/sim/fsim4.c:864-903 | two cycles spill the return stack: one reserved cell changes, nothing that a program sees |
| FriscRefinement.PSpill | chips/sim/fsim4.c:946-985 | the same for the parameter stack |
| FriscRefinement.RFill | chips/sim/fsim4.c:905-944 | two cycles fill the return stack: nothing that a program sees changes |
| FriscRefinement.PFill | chips/sim/fsim4.c:987-1026 | the same for the parameter stack |
| FriscRefinement.GrantStep | chips/sim/fsim4.c:844-862 | nothing happens while the buses are granted |
| FriscProgress.WorkFalls | chips/sim/fsim4.c:529-601 | every spill or fill leaves less stack work |
| FriscProgress.GrantsExactly | chips/sim/fsim4.c:529-601 | the buses are granted only on request, and no instruction follows a cycle that ends with a request |
| FriscRuns.PlainRefinesIsa | chips/sim/fsim4.c:530-1026 | every run of the unpipelined machine executes a disciplined program: after all its cycles or all but the last, registers, stacks and memory are those of a run of `FriscIsa`, with at least one instruction in six cycles, DMA and four cycles at the start aside |
| FriscRuns.DisciplinedInStep | chips/sim/fsim4a.c:551-1109 | all register writes of a disciplined program are harmless, so the two machines stay in step |
| FriscRuns.PipedRefinesIsa | chips/sim/fsim4a.c:551-1109 | hence the pipelined machine executes it too: same memory, and at every execute cycle, its pending write made, the registers and stacks of that run |
| FriscUnits.ExecuteBoth | chips/sim/fsim4a.c:389-420 | both objects, side by side, execute a disciplined program |
| FriscStart.StatusWriteStarts | chips/sim/fsim4.c:1612-1667 | the stack status write that leaves both caches on, with five to fifteen entries each, brings the unpipelined machine into order |
| FriscStart.FieldsAre | chips/sim/fsim4.c:1612-1667 | the fields of that word: overflow markers and tops of four bits, and the bits of 2^16 and 2^17 for the two caches |
| FriscStart.StatusReadBack | chips/sim/fsim4.c:1569-1667 | writing back the stack status that was read changes neither stack |
| FriscStart.DisciplineExists | chips/sim/fsim4.c:530-1026 | under every encoding that has three given instructions there are aligned states in order whose program, which pushes, pops, stores and jumps, is disciplined |
| Stepper.AddopExact | chips/sim/aluopsc.c:5-20 | carry is the 33rd bit, overflow says that the signed sum left the cell, N exclusive-or V is the sign of the exact sum |
| Stepper.ConditionsCompare | chips/sim/fsim4c.c:1907-1934 | after a subtraction the conditions are the signed and unsigned comparisons |
| Stepper.ConditionsOfSigns | chips/sim/fsim4c.c:1907-1934 | the other conditions are the sign of the difference, its signed overflow, false and true |
| Stepper.AddingStep | chips/sim/fsim4c.c:1747-1905 | the steps that only add: bus B, doubled with the top bit of y below if shifted, plus bus T if asked to |
| Stepper.StepOutputs | chips/sim/fsim4c.c:1747-1905 | what a step leaves in y and at the flag input, in numbers |
| Stepper.MulStepExact | chips/sim/fsim4c.c:1937-1997 | a multiply step is exact: accumulator plus Booth digit times multiplicand, divided by four |
| Stepper.MultiplyExact | chips/sim/fsim4c.c:1849-1887 | sixteen steps from a clear accumulator and flag leave the signed 64-bit product, for all operands |
| Stepper.DivStepExact | chips/sim/fsim4c.c:1819-1848 | a divide step is exact, and the flag is the sign of the 33-bit partial remainder |
| Stepper.DivideExact | chips/sim/fsim4c.c:1819-1882 | with the high dividend word below the divisor, 32 steps and the fixing step leave exact quotient and remainder |
| Stepper.StepUnit.Microstep | chips/sim/fsim4c.c:1747-1905 | the step instruction as the simulator performs it on y and the flag |
| ForthWords.Words.UmStar | ans/jhforthc.c:4366-4381 | the exact 64-bit product, from products of half cells |
| ForthWords.Words.UmSlashMod | ans/jhforthc.c:4382-4405 | exact quotient and remainder whenever the high cell is below the divisor |
| ForthWords.Words.UmStarM | ans/jhforthc.c:1145-1157 | a double cell times a cell, modulo 2^64 |
| ForthWords.Words.MSlashMMod | ans/jhforthc.c:1158-1170 | a double cell divided by any non-zero cell, the double quotient exact |
| ForthWords.Words.DNegate | ans/jhforthc.c:4274-4281 | negation modulo 2^64 |
| ForthWords.Words.SmSlashRem | ans/jhforthc.c:1184-1203 | symmetric division, section 6.1.2214 of ANSI X3.215-1994: exact whenever the quotient fits a cell, modulo 2^32 whenever the division of the sizes is defined |
| ForthWords.Words.FmSlashMod | ans/jhforthc.c:1204-1239 | floored division, section 6.1.1561, under the same conditions |
| ForthArithmetic.DivisionsDefined | ans/jhforthc.c:1184-1239 | what the two divisions mean: the remainder has the sign of the divisor, or of the dividend, and is smaller than the divisor |
| ForthArithmetic.SymmetricOfSizes | ans/jhforthc.c:1184-1203 | dividing the sizes and putting the signs back is symmetric division |
| ForthArithmetic.FlooredOfSizes | ans/jhforthc.c:1204-1239 | with the adjustment of the last words it is floored division |
| ForthArithmetic.FittingFloor | ans/jhforthc.c:1204-1239 | if the floored quotient fits a cell then the size division that the word makes is defined |
| ForthArithmetic.FittingTruncated | ans/jhforthc.c:1184-1203 | the same for the symmetric quotient |
| ForthNumbers.RoundTrip | ans/jhforthc.c:2604-2612 | the digits of every unsigned double number in every base 2 to 36 read back as that number, every character consumed |
| ForthNumbers.SixtyFourDigits | ans/jhforthc.c:2583-2612 | there are at most 64 of them |
| ForthNumbers.DigitsInjective | ans/jhforthc.c:2583-2612 | different numbers have different digits |
| ForthNumbers.NumberWords.SharpS | ans/jhforthc.c:2546-2612 | `#s` as threaded code ends and holds exactly those digits |
| ForthNumbers.NumberWords.ToNumber | ans/jhforthc.c:2966-2994 | `>number` as threaded code takes the leading digits in, either case of letter, and stops at the first character that is none |
| ForthNumbers.NumberWords.Digit | ans/jhforthc.c:2892-2942 | `digit` as threaded code, for every cell |
| ForthNumbers.DigitsOnly | ans/jhforthc.c:2892-2942 | what it takes for digits are exactly 0-9 and the letters of either case, below the base |
| ForthNumbers.DigitCharacters | ans/jhforthc.c:2546-2612 | digits from ten up are written as small letters |
| ForthLoops.DoLoopIndices | ans/jhforthc.c:4007-4020 | `do ... loop` runs its body with start, start+1, ... modulo 2^32, exactly limit-start times modulo 2^32, 2^32 times if they are equal |
| ForthLoops.PlusLoopCrosses | ans/jhforthc.c:4021-4030 | `+loop` leaves exactly if the signed step, taken one by one, crosses between limit-1 and limit in either direction |
| ForthLoops.LeavingRestores | ans/jhforthc.c:4013-4043 | leaving a loop brings the outer loop's index and limit back |
| ForthLoops.LoopTakesTwo | ans/jhforthc.c:4007-4030 | of the data stack a loop takes its limit and start, and `+loop` one step in each iteration, and memory it leaves alone |
| ForthLoops.JIsOuterIndex | ans/jhforthc.c:4034-4036 | in an inner loop `j` is the outer loop's index |
| CatchThrow.RunLinked | ans/jhforthc.c:4047-4073 | in every run the frames of the live catches form a chain from the frame pointer down |
| CatchThrow.CaughtThrow | ans/jhforthc.c:4054-4073 | after a catch and any well-nested run that does not leave it, a non-zero throw restores the data stack depth, the return stack and all pointers of the catch, and leaves the code |
| CatchThrow.CaughtWord | ans/jhforthc.c:3947-4062 | a caught threaded word, entered and left on the return stack, with a balanced body that may call, catch and throw in between, always comes back to the default catcher, which restores return stack and pointers and pushes zero |
| CatchThrow.CaughtPrimitive | ans/jhforthc.c:4047-4062 | a caught primitive comes back at once |
| CatchThrow.CaughtReturn | ans/jhforthc.c:4047-4062 | after any run that ends with the interpreter at the default catcher and its frame on top, coming back restores the same return stack and pointers and pushes zero |
| CatchThrow.ZeroThrow | ans/jhforthc.c:4063-4073 | a zero throw changes nothing: its zero stays |
| CatchThrow.Exceptions.DoThrow | ans/jhforthc.c:4063-4073 | the primitive on the stack array |
| ControlFlow.CompiledMeaning | ans/jhforthc.c:3992-4046 | for every structured program, state, meaning of the other words and budget of steps, the inner interpreter on its cells reaches their end exactly if the program is done, with exactly its stacks, and is stuck exactly if it is |
| ControlFlow.MoreBudget | ans/jhforthc.c:3992-4046 | more steps never change the outcome of a program that is done |
| ControlFlow.CaseMeans | ans/jhforthc.c:4174-4180 | a case by value runs its body without the selector exactly if they are equal, and otherwise leaves it for the rest |
| MetaCompiler.CompilerCorrect | ans/meta/dirs.c:146-189 | compiling the text of a program of if, begin, do and sel structures with back-patched marks and the threaded chain of leaves gives exactly its cells, with the compile-time stack and the chain as they were |
| MetaCompiler.CompilingPreservesMeaning | ans/meta/dirs.c:625-766 | hence the cells that the compiler leaves mean what the structured program means |
| MetaCompiler.TargetsInside | ans/meta/dirs.c:146-189 | every branch cell is resolved to a cell of the definition or its end |
| MetaCompilerUnit.Compiler.Define | ans/meta/dirs.c:146-189 | the compiler as it works on its arrays, from a text to a definition with that meaning |
| MetaCompilerUnit.Compiler.Interpret | ans/meta/dirs.c:625-766 | one word of the text changes tables and stack as modelled |
| Names.MangleInverse | ans/meta/dirs.c:931-956 | the visible characters of a name can be read back from its mangled form |
| Names.MangledSame | ans/meta/dirs.c:931-956 | two names are mangled alike exactly if their visible characters are the same |
| Names.MangledLength | ans/meta/dirs.c:931-956 | the exact length of a mangled name: two for each visible character, one for each letter |
| Names.EscapesInOrder | ans/meta/dirs.c:931-956 | the pairs for characters that are no letters, in order from `_A` for the exclamation mark |
| Names.EscapeLetters | ans/meta/dirs.c:931-956 | the second character of a pair is a letter |
| Names.ReservedReads | ans/meta/fc.c:376-381 | a reserved identifier is an R and the number in decimal |
| Names.ReservedApart | ans/meta/fc.c:369-393 | reserved identifiers differ from each other and from every mangled name |
| Names.DistinctIdentifiers | ans/meta/fc.c:369-393 | in every history of installations two words share an identifier exactly if neither is reserved and their visible characters are the same |
| Names.DistinctNames | ans/meta/fc.c:369-393 | with names of visible characters, distinct names have distinct identifiers |
| SymbolTable.Dictionary.Install | ans/meta/fc.c:369-393 | the new word is the latest of its name and has the identifier of its place in the history; null exactly where the original would write past its buffer |
| SymbolTable.Dictionary.Find | ans/meta/fc.c:400-411 | the latest word installed under that name, or none |
| SymbolTable.Dictionary.Mangle | ans/meta/dirs.c:931-956 | the mangled name in the static buffer, ended by a zero; `fits` is false exactly if the original would write past the buffer |
| SymbolTable.BucketFindsLatest | ans/meta/fc.c:345-411 | searching one hash chain finds what searching the whole history would |
| Serial.EveryInterleaving | ans/hk68/iohk68v2f.c:101-233 | in every interleaving of output, input, transmit interrupts and received bytes, XON and XOFF among them: bytes sent, then the output FIFO, are the bytes given, in order; bytes read, then the input FIFO, are the bytes it accepted, in order; QUIET means that the output FIFO is empty; if that is neither empty nor throttled the channel is transmitting |
| Serial.WaitHolds | ans/hk68/iohk68v2f.c:115-204 | what the program waited for still holds when it goes on |
| Serial.SendsExactly | ans/hk68/iohk68v2f.c:101-233 | exactly the write to a quiet channel, the transmit interrupt and the XON that find a byte waiting send one, and it is the oldest not yet sent |
| Serial.ThrottlesAndHolds | ans/hk68/iohk68v2f.c:206-233 | from a received 0x13 on, in every run without a received 0x11, the channel stays throttled and sends nothing |
| Serial.Resumes | ans/hk68/iohk68v2f.c:206-233 | a received 0x11 then sends exactly the oldest byte, or leaves the channel quiet if there is none, and does nothing to one that is not throttled |
| Serial.ReceivesExactly | ans/hk68/iohk68v2f.c:206-233 | every other byte joins the input FIFO exactly if that is not full |
| Serial.Drains | ans/hk68/iohk68v2f.c:146-168 | transmit interrupts alone empty the FIFO, in order, and then quieten the channel |
| Serial.NoOverrunsExactly | ans/hk68/iohk68v2f.c:101-233 | no write finds the UART still transmitting exactly if no event of the run is hurried |
| Serial.NoOverruns | ans/hk68/iohk68v2f.c:206-233 | with a partner that spaces its XOFF and XON none is |
| Serial.OverrunHappens | ans/hk68/iohk68v2f.c:206-233 | a run in which a byte is written while the UART is transmitting |
| Serial.Channel.RecInt | ans/hk68/iohk68v2f.c:206-233 | the receive interrupt on the channel's FIFOs |
| CacheGeometry.Masked | chips/measure/dmcache.c:44-51 | the masks and shifts of the programs are quotients and remainders |
| DmCache.DoublingNeverAddsMisses | chips/measure/dmcache.c:122-278 | under every policy, after every cold run, on every trace, whatever junk either tag RAM holds, twice the lines never miss more |
| SubCache.SubBlocksNeverMissLess | chips/measure/dmsubcache.c:181-395 | sub-blocks never miss less than whole lines of the same geometry, under all policies but one |
| SubCache.NeverAllocExactly | chips/measure/dmsubcache.c:323-358 | under that one they never miss less, on all traces, exactly if no junk tag is one that an address can have |
| SubCache.StrayTagMissesLess | chips/measure/dmsubcache.c:323-358 | a trace of two accesses on which a junk tag makes them miss less |
| CacheCounts.WholeLinesExactly | chips/measure/dmcache.c:122-278 | all five numbers that the program reports, told from the trace alone by what was last brought to each place, under every policy |
| CacheCounts.SubBlocksExactly | chips/measure/dmsubcache.c:131-395 | the same for sub-blocks, cells and lines told apart; under the policy that never allocates, where no junk tag is one that an address can have |
| CacheSimulators.WholeLines.Measure | chips/measure/dmcache.c:70-192 | the program, cold run and measured run on one file, counts what the theorem compares |
| CacheSimulators.SubBlocks.Measure | chips/measure/dmsubcache.c:79-209 | the same for the sub-block program |

## Findings

What the proofs show of the code, where it differs from what one would expect of it.

| subject | source | what holds |
|---|---|---|
| status writes on the pipelined machine | chips/sim/fsim4a.c:551-620 | the choice of the next cycle is made before the write-back, so a status write can put the two machines out of step (`PipelineEquivalence.StatusWriteDiffers`); they stay in step exactly if the write does not change that choice, nor the top of the return stack, nor turns interrupts on (`PipelineEquivalence.InStepExactly`) |
| never-allocate with sub-blocks | chips/measure/dmsubcache.c:323-358 | a line whose invalid tag happens to match is filled without a line miss; sub-blocks can then miss less than whole lines, exactly if such a tag exists (`SubCache.NeverAllocExactly`, `SubCache.StrayTagMissesLess`) |
| the buffer of `Mangle` | ans/meta/dirs.c:931-956 | the static buffer has 80 bytes and no check; by `Names.MangledLength` it is overrun exactly if twice the visible characters less the letters is 80 or more (`SymbolTable.Dictionary.Mangle`) |
| a zero `throw` | ans/jhforthc.c:4063-4073 | its zero stays on the stack, where section 9.6.1.2275 of ANSI X3.215-1994 removes it (`CatchThrow.ZeroThrow`) |
| `leave` in the meta-compiler | ans/meta/dirs.c:763-766 | only the cell of the chain is emitted and no word in front of it, so the cell is not executable; the structured language has leaves whose meaning is to be stuck in that cell |
| overruns of the UART | ans/hk68/iohk68v2f.c:206-233 | XOFF and XON within one transmitted byte make the driver write to a busy UART (`Serial.OverrunHappens`); exactly the hurried events do (`Serial.NoOverrunsExactly`) |
| names beyond visible characters | ans/meta/dirs.c:931-956 | characters that are not visible are skipped, so names that differ only in them share an identifier (`Names.DistinctIdentifiers`) |

## Assumptions

The processor with cache:

- A program is `Disciplined` if along its own run, as `Isa` gives it, the stacks fit the memory reserved for them; no
  store goes into that memory, to the external stack pointers, the stack cache controller or the page attributes (the
  run keeps them as they are); and no read is one of the two simulator traps that put text into memory. All of this can
  be checked on the reference run without knowing the cache.
- The cache enable bit of the processor status word agrees with the configuration throughout (`OrdinaryRun`). It and the
  page attributes may be set up while nothing is cached (`SetUp`, `CacheTurnsOn`).
- Reads through the tag backdoor are not made by the program; stores through it, which invalidate, may be.
- The `ibrenable` bit only selects what is answered outside external memory; that answer is an input, and the boot ROM
  does not lie over high memory.
- High memory begins on a cell boundary at 0x30000000 or above, and above low memory. External stack pointers are
  aligned to cells.
- An interrupt is one of the 32 lines, and its vector the number of the line. `Isa` lets an interrupt happen wherever
  interrupts are on. The chip holds one off right after the instruction that turns them on, but takes it there if a
  spill or fill comes in between.
- The decoder and the ALU are arbitrary functions, with offsets of 16 bits. The spare encoding of a stack move moves nothing.
- Interrupt requests and what devices answer are inputs of each cycle.

The pipelined and unpipelined machines: interrupts are off, DMA requests are arbitrary, coprocessor registers that do
not exist read as zero, memory is a map with a function for ROM and I/O. For `FriscIsa` a program is `Disciplined` if along
its own run the stacks fit their reserved memory, interrupts stay off, no instruction writes the registers of the stack
caches, and no store goes into the reserved memory. Which encoding, ALU and shifter the chip has does not matter.

The Forth system: cells have 32 bits; stack underflow and words that do not come back are an outcome of their own
(`Stuck`); words other than those modelled are arbitrary functions of the stacks; bases are 2 to 36. The compiler
theorems need room for the definition in its memory. The return address `BOGUS` of a caught word is the catcher's cell,
which no other code occupies. At most 2^31 words are installed, so that the counter of reserved
identifiers does not wrap.

The serial driver: the UART has a transmit-busy state, which the driver does not look at. The cache simulators: lines
of sub-block caches have at most 32 cells, counters do not wrap.

## Left out

- SymbolTable.Dictionary.Install: returns null, with nothing installed, where the original writes past its buffer; what that write destroys is not modelled.
- SymbolTable.Dictionary.Mangle: stops there, for the same reason.
- Sc32Runs.ChipRefinesIsa: does not cover runs in which both stack caches are off or are reconfigured; `Sc32Latches` covers those for the latches, `Sc32Start.CachesTurnOn` the way out of them.
- PipelineEquivalence.PipelineEquivalent: does not cover interrupts, whose acceptance depends on when the status word is written.
- FriscRuns.PlainRefinesIsa: does not cover interrupts, nor programs that reconfigure their stack caches on the way.
- Serial.EveryInterleaving: does not bound how long bytes wait, because interrupts may be arbitrarily late.
- What a read through the tag backdoor answers, and the layout of a tag entry in one word: an entry is a record.
- Interrupt edge latches and the DMA acknowledge lines: the pending vector and the request are inputs.
- Console commands, traps for statistics, trace, vector and screen output, option parsing and object loading.
- `chips/sim/fsim3.c` and `chips/sim/fsim4b.c`: close variants of the modelled machines.
- `chips/measure/isacache.c` and the other cache simulators: random replacement, or easy variants.
- The shared storage of the union in the simulators' memory: its uses are separate fields.
- The outer interpreter, locals, file words, foreign calls and allocation of the Forth system.
- The dictionary headers and other output of the meta-compiler, and its words for data structures.
- The second copies of these programs elsewhere in the repository.
