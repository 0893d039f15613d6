# FourDO core, modelled in Dafny

This project models three parts of the FourDO 3DO emulator:

- **The rolling frame-speed sampler** (`FrameSpeedCalculator`, module `FrameSpeed`). It is a ring of N samples with a write cursor that starts at -1, a "filled" flag, and the average returned by the last `AddSample`. The class keeps the source's array and fields and updates them in place. Each method is proved against the value-level functions `Fresh`, `Cleared` and `Add`. The lemmas then state what the sequence of returned averages is.
- **The console front end** (`GameConsole`, modules `Console` and `Pacing`):
  - the lifecycle: `Start`, `Stop`, `SaveState`, `LoadState`, and the worker that `InternalStart` and `InternalStop` create and forget;
  - the media callbacks the native core calls;
  - the worker loop. Each iteration decides its sleep from the performance-counter reading and feeds the speed sampler. It then runs the core step by step until a frame swap, at most 100 steps.

  The worker loop is an imperative method. It is proved to produce the sleeps and the samples of the function `Pacing.Schedule`.
- **The ARM60 interpreter** (`ARM60CPU`, modules `ArmWord`, `ArmAlu`, `ArmDecode`, `ArmSpec`, `ArmCpu` and `ArmProperties`). The class holds R0-R15, the CPSR and SPSR, the memory it reaches through the DMA, and the cycle counter. Each handler method updates them in place and is proved to reach exactly the state that an `ArmSpec` function gives. The lemmas in `ArmAlu` and `ArmProperties` state what those functions mean on the ARM's terms: the condition table, `DoAdd`, the barrel shifter, loads and stores, write-back and cycle counts.

Words are integers in [0, 2^32), and C's wrap-around is written out as `Wrap`. Where a handler does something other than the ARM60 data sheet describes, the model follows the code. The contracts state the behaviour as written, for example:

- CMN computes the same as CMP, with the CPSR carry added in;
- RRX always yields 0;
- MRS writes R0 or R1;
- SWP uses Rm as base, source and destination;
- multiply and block transfers index registers with unshifted masks;
- a pre-indexed transfer with write-back adds the offset to the base twice.

The native core, the clock, the file system and the swap signals are inputs of the model. Cycle costs (S, N and I cycles), BIGEND and the user-mode number come from outside the CPU file, so they are parameters (`ArmSpec.Config`).

Two behaviours of the sampler that a reader might not expect:

- `AddSample` averages *before* it stores the new sample, and while the ring is filling it includes the stale value under the cursor. So each result lags one sample (`FrameSpeed.AverageLagsOneSample`, `FrameSpeed.WorkedExample`).
- `Clear` does not zero the slots, so a cleared sampler can return a different first average than a fresh one (`FrameSpeed.ClearKeepsStaleSamples`).

## Model

| member | source | states |
|---|---|---|
| FrameSpeed.Fresh | FourDO/Emulation/FPSCalculator.cs:20-28 | a new sampler has N zeroed slots, cursor -1, not filled, average 0 |
| FrameSpeed.FrameSpeedCalculator.constructor | FourDO/Emulation/FPSCalculator.cs:20-28 | for a positive capacity the new object's state is `Fresh(n)` and satisfies the ring invariant |
| FrameSpeed.FrameSpeedCalculator.Default | FourDO/Emulation/FPSCalculator.cs:15-18 | the parameterless constructor gives `Fresh(10)` |
| FrameSpeed.FrameSpeedCalculator.Create | FourDO/Emulation/FPSCalculator.cs:20-28 | fails with ArgumentOutOfRange("numberOfSamples") exactly when the capacity is not positive, otherwise gives a fresh sampler |
| FrameSpeed.FrameSpeedCalculator.Clear | FourDO/Emulation/FPSCalculator.cs:30-35 | cursor -1, not filled, average 0; the slots are kept |
| FrameSpeed.FrameSpeedCalculator.AddSample | FourDO/Emulation/FPSCalculator.cs:56-85 | the new state is `Add(old state, sample)`, which keeps the ring invariant, and the returned value is the new CurrentAverage; the two summing loops are proved to compute the sum of the slots they read |
| FrameSpeed.Advance | FourDO/Emulation/FPSCalculator.cs:58-63 | after a sample the cursor lies in [0, N); it becomes 0 exactly when it starts from -1 or reaches N, and otherwise moves on by one; filled never reverts, and becomes true exactly when the cursor reaches N |
| FrameSpeed.AdvanceWritesOneSlot | FourDO/Emulation/FPSCalculator.cs:73-82 | AddSample stores the sample under the new cursor and leaves every other slot unchanged |
| FrameSpeed.AverageWhileFilling | FourDO/Emulation/FPSCalculator.cs:65-74 | while not filled, the average is the slots 0..cursor, read before the store, over cursor+1 |
| FrameSpeed.AverageWhenFilled | FourDO/Emulation/FPSCalculator.cs:77-84 | once filled, the average is all N slots, read before the store, over N |
| FrameSpeed.RunRing | FourDO/Emulation/FPSCalculator.cs:56-85 | a run of AddSample moves the ring as the samples dictate, and the last average comes from the ring before the last sample |
| FrameSpeed.AveragesReturned | FourDO/Emulation/FPSCalculator.cs:56-85 | the k-th element of `Averages` is the value the k-th AddSample returns |
| FrameSpeed.RunLayout | FourDO/Emulation/FPSCalculator.cs:56-85 | after samples ys go into a cleared ring, each slot holds the last sample that went there (or its stale value); the cursor and filled flag follow the count |
| FrameSpeed.AverageLagsOneSample | FourDO/Emulation/FPSCalculator.cs:65-84 | after m samples into a cleared ring, the next average is (their sum + the stale slot m)/(m+1) before the ring fills, and the mean of the last N samples after; the new sample is never part of its own average |
| FrameSpeed.FreshAverages | FourDO/Emulation/FPSCalculator.cs:65-84 | for a fresh sampler the (m+1)-th average is sum(ys[..m])/(m+1) before the ring fills and the mean of ys[m-N..m] after |
| FrameSpeed.WorkedExample | FourDO/Emulation/FPSCalculator.cs:56-85 | capacity 3 fed 1, 2, 3, 4 returns 0, 0.5, 1, 2 |
| FrameSpeed.ClearKeepsStaleSamples | FourDO/Emulation/FPSCalculator.cs:30-35 | after 4, 4 into capacity 2 and a Clear, feeding 1 returns 4, while a fresh sampler returns 0 |
| Pacing.SpeedSample | FourDO/Emulation/GameConsole.cs:422 | the sample fed to the sampler, times the frame count and the frequency, is the tick delta |
| Pacing.Decide | FourDO/Emulation/GameConsole.cs:407-450 | first iteration: on target at now, sleep 0, no sample; later: the sample is now and the speed is fed; more than ten frames' worth behind re-baselines the target to now; otherwise the target is lastTarget + period * frames; behind means sleep 0, ahead means floor(remaining*1000/frequency); the sleep is never negative, never overshoots the target, and the clock never lags the target by more than the tolerance |
| Pacing.FramesRun | FourDO/Emulation/GameConsole.cs:463-469 | the inner loop runs 1 to 100 steps, no step before the last signals a swap, and below 100 the last one does |
| Pacing.Iterate | FourDO/Emulation/GameConsole.cs:403-469 | one worker iteration keeps the loop state settled (frame count 1-100 once a sample was taken), records the frames the inner loop ran, keeps the earlier sleeps and appends exactly one |
| Pacing.Schedule | FourDO/Emulation/GameConsole.cs:393-474 | the worker loop over the given ticks leaves a settled state and one sleep per iteration |
| Pacing.SleepsNonNegative | FourDO/Emulation/GameConsole.cs:453-457 | every sleep passed to Thread.Sleep is at least 0, and the first is 0 |
| Pacing.IterateFeeds | FourDO/Emulation/GameConsole.cs:416-422 | an iteration after the first records the reading and feeds exactly one sample: the time per frame since the previous reading |
| Pacing.SpeedsFollowTicks | FourDO/Emulation/GameConsole.cs:397-451 | with a counter that never reads 0, the k-th sample fed is (ticks[k+1]-ticks[k])/frames[k]/frequency, and there are |ticks|-1 of them |
| Console.WrapInt32 | FourDO/Emulation/GameConsole.cs:381 | the unchecked cast to int keeps the value modulo 2^32 and is the identity on the int range |
| Console.ReadAllBytes | FourDO/Emulation/GameConsole.cs:136 | succeeds exactly when the file exists, with its bytes |
| Console.SaveThenLoad | FourDO/Emulation/GameConsole.cs:207-258 | a state written to a writable file loads back as the same bytes; the write fails only on a read-only name and touches no other file |
| Console.LoadReadsPrefix | FourDO/Emulation/GameConsole.cs:248-249 | opening in FileMode.Open fails exactly when the file is missing or may not be written; otherwise ReadBytes returns the requested count, or the whole file when it is shorter, as a prefix of the file |
| Console.OpenMedia | FourDO/Emulation/GameConsole.cs:150-160 | opening the disc in FileMode.Open succeeds exactly when the file exists and may be written, giving a reader at position 0; otherwise BadGameRom |
| Console.DiscSizeCountsSectors | FourDO/Emulation/GameConsole.cs:377-382 | 0 with no disc; otherwise the number of whole 2048-byte sectors (for discs under 4 TiB); a closed reader throws |
| Console.SectorOffsetRange | FourDO/Emulation/GameConsole.cs:358 | the seek offset is 2048*sector for every sector below 2^20, and the int product wraps negative at 2^20 |
| Console.SectorsBelowDiscSizeReadWhole | FourDO/Emulation/GameConsole.cs:353-359 | every sector below the disc size reads as exactly its own 2048 bytes and leaves the stream after it |
| Console.GameConsole.constructor | FourDO/Emulation/GameConsole.cs:24-39 | no worker, not running, no BIOS or disc, sector 0, and a fresh speed sampler of capacity 4 |
| Console.GameConsole.Start | FourDO/Emulation/GameConsole.cs:126-176 | a no-op when a worker exists. A missing BIOS is BadBiosRom with nothing changed. A BIOS that is not 1 MiB is BadBiosRom, but the copy is kept. A disc that cannot be opened is BadGameRom. A 1 MiB BIOS with no media, or with a disc that opens, is Pass. On any failure the console stays stopped with its old disc. On success it runs a new worker over the chosen disc, or with no media for an empty name |
| Console.GameConsole.Stop | FourDO/Emulation/GameConsole.cs:178-198 | a no-op with no worker; otherwise the worker is gone with the stop signal set, the reader is closed, the core is destroyed and Running is false |
| Console.GameConsole.SaveState | FourDO/Emulation/GameConsole.cs:200-236 | Running is unchanged; a running console ends with a new worker whether or not the write failed; the file system gets the state, or the write's error is reported |
| Console.GameConsole.LoadState | FourDO/Emulation/GameConsole.cs:238-272 | Running is unchanged; a running console ends with a new worker whether or not the read failed; the loaded bytes are the file's prefix, or the error is reported |
| Console.GameConsole.InternalStart | FourDO/Emulation/GameConsole.cs:274-280 | a new worker with the stop signal clear; nothing else changes |
| Console.GameConsole.InternalStop | FourDO/Emulation/GameConsole.cs:282-288 | the stop signal is set and the worker is gone; nothing else changes |
| Console.GameConsole.SwapFrame | FourDO/Emulation/GameConsole.cs:318-322 | sets the swap flag and returns its argument; the lifecycle state is untouched |
| Console.GameConsole.OnSector | FourDO/Emulation/GameConsole.cs:384-387 | stores the sector number and changes nothing else |
| Console.GameConsole.Read2048 | FourDO/Emulation/GameConsole.cs:353-375 | nothing with no disc; otherwise the bytes and new position of the current sector's read, or the error of a closed reader or negative seek |
| Console.GameConsole.DoExecuteFrame | FourDO/Emulation/GameConsole.cs:467 | a core step sets the swap flag when it signals one and changes no lifecycle state |
| Console.GameConsole.ExecuteFrames | FourDO/Emulation/GameConsole.cs:463-469 | the inner do-while loop returns `FramesRun(swaps)` steps, with the flag of the last step |
| Console.GameConsole.Iteration | FourDO/Emulation/GameConsole.cs:403-469 | one pass of the worker body takes the loop state and the fed samples exactly as `Pacing.Iterate` does, and feeds the sampler accordingly |
| Console.GameConsole.WorkerThread | FourDO/Emulation/GameConsole.cs:393-475 | the sleeps are those of `Pacing.Schedule`, and the sampler ends as if fed the schedule's samples; the lifecycle state is untouched |
| ArmWord.Negate | trunk/code/ARM60CPU.cpp:337 | `~op + 1` is 2^32 - op (0 for 0), and adding it back wraps to 0 |
| ArmAlu.FlagsOf | trunk/code/ARM60CPU.cpp:100 | N, Z, C and V are bits 3, 2, 1 and 0 of `cpsr >> 28` |
| ArmAlu.SetFlagsReadBack | trunk/code/ARM60CPU.cpp:458-464 | each flag written reads back as written, and bits 27-0 of the CPSR are kept |
| ArmAlu.ConditionTableRow | trunk/code/ARM60CPU.cpp:28-49 | bit f of each table entry says whether its condition (EQ ... NV) holds for flags NZCV = f |
| ArmAlu.ConditionCheckMeaning | trunk/code/ARM60CPU.cpp:95-104 | an instruction passes its check exactly when its condition holds on the CPSR flags; AL always passes, NV never |
| ArmAlu.DoAdd | trunk/code/ARM60CPU.cpp:1355-1373 | carry out iff op1 + op2 + carry-in >= 2^32; the wrapped sum, except 0 whenever op1 + op2 wraps to 0 |
| ArmAlu.HalvesCarry | trunk/code/ARM60CPU.cpp:1360-1363 | adding the 16-bit halves carries out of the top exactly when the full sum reaches 2^32 |
| ArmAlu.DoAddWithoutCarryIsSum | trunk/code/ARM60CPU.cpp:1366-1372 | without a carry in, DoAdd is 32-bit addition; with one, 1 + 0xFFFFFFFF gives 0 where the true sum wraps to 1 |
| ArmAlu.ImmediateOperandRotatesBack | trunk/code/ARM60CPU.cpp:307-311 | rotating the immediate operand back by the rest of 32 gives the 8-bit constant |
| ArmAlu.LogicalLeftMeaning | trunk/code/ARM60CPU.cpp:1271-1276 | LSL by 1-31 is op * 2^shift modulo 2^32, with the carry the bit shifted out of bit 31 |
| ArmAlu.LogicalRightMeaning | trunk/code/ARM60CPU.cpp:1292-1297 | LSR by 1-31 is op divided by 2^shift, and the carry is the highest bit dropped |
| ArmAlu.ArithmeticRightMeaning | trunk/code/ARM60CPU.cpp:1309-1320 | ASR by 1-31 is the signed value divided by 2^shift rounding down, and the carry is the highest bit dropped |
| ArmAlu.RotateMeaning | trunk/code/ARM60CPU.cpp:1343-1348 | ROR by 1-31 is undone by rotating the rest of the way, and the carry is the new top bit |
| ArmAlu.ZeroShiftAmount | trunk/code/ARM60CPU.cpp:1251-1308 | LSL #0 passes the operand and the CPSR carry through; LSR and ASR by 0 act as by 32 |
| ArmAlu.LargeShiftAmount | trunk/code/ARM60CPU.cpp:1261-1341 | LSL and LSR beyond 32 give 0 with carry clear; RRX always yields 0 |
| ArmAlu.RotateAmountWraps | trunk/code/ARM60CPU.cpp:1326-1334 | ROR beyond 32 reduces the amount modulo 32, with 32 for a multiple of 32 |
| ArmAlu.Alu | trunk/code/ARM60CPU.cpp:322-416 | exactly the opcodes outside 8-11 write Rd; AND, EOR, TST, TEQ, ORR, MOV, BIC and MVN are the logic operations, and they take the shifter's carry |
| ArmAlu.AddMeaning | trunk/code/ARM60CPU.cpp:346-350 | ADD is the 32-bit sum, with the carry out of bit 31 |
| ArmAlu.SubMeaning | trunk/code/ARM60CPU.cpp:334-338 | SUB is the 32-bit difference, with carry exactly when op2 is non-zero and at most op1 |
| ArmAlu.CompareAddsCarry | trunk/code/ARM60CPU.cpp:382-394 | CMN computes the same as CMP; with C set, comparing 4 with 5 gives 0 and a carry |
| ArmAlu.DataProcessingFlags | trunk/code/ARM60CPU.cpp:458-493 | with S set, N and Z come from the result and C from the operation. Logic operations keep V; arithmetic ones clear V when the operands' signs differ and keep it otherwise. Bits 27-0 are kept |
| ArmAlu.BranchOffset | trunk/code/ARM60CPU.cpp:227-234 | the offset is the sign-extended 24-bit field times 4, plus 4, modulo 2^32 |
| ArmAlu.LoadValue | trunk/code/ARM60CPU.cpp:1075-1154 | a byte load is below 256 and is the addressed lane; a big-endian word load rotates right by 8*(a%4) |
| ArmAlu.AlignedWordLoad | trunk/code/ARM60CPU.cpp:1111-1138 | a word load from an aligned address returns the word unrotated |
| ArmDecode.Decode | trunk/code/ARM60CPU.cpp:125-196 | the if-else chain picks exactly one class. Branch is bits 27-25 = 101, block transfer 100, single transfer 01 and SWI 1111. Multiply is its pattern. Data processing is 00 without the multiply or PSR/swap pattern. The undefined class is never reached, because 011 is already taken by 01 |
| ArmSpec.AlignDown | trunk/code/ARM60CPU.cpp:430 | `v & 0xfffffffc` is a multiple of 4 at most 3 below v |
| ArmSpec.ShiftedRegisterOperand | trunk/code/ARM60CPU.cpp:1229-1249 | the shifter costs an I cycle exactly when the shift amount comes from a register |
| ArmSpec.DoBranch | trunk/code/ARM60CPU.cpp:247 | a branch costs 2S + N |
| ArmSpec.Store | trunk/code/ARM60CPU.cpp:779-787 | a store changes no register |
| ArmSpec.DoPsrTransfer | trunk/code/ARM60CPU.cpp:503-584 | a PSR transfer counts no cycles and leaves memory alone |
| ArmSpec.MultiplyIndices | trunk/code/ARM60CPU.cpp:611-614 | the unshifted Rd, Rn and Rs masks name a register in R0-R15 exactly when their field is 0; Rm always does |
| ArmSpec.DoMultiply | trunk/code/ARM60CPU.cpp:589-655 | when defined, a multiply counts no cycles |
| ArmSpec.BlockBaseIndex | trunk/code/ARM60CPU.cpp:852 | the unshifted base mask names a register exactly when the Rn field is 0 |
| ArmSpec.BlockTransfer | trunk/code/ARM60CPU.cpp:857-929 | the register loop counts no cycles |
| ArmSpec.DoBlockDataTransfer | trunk/code/ARM60CPU.cpp:799-930 | defined exactly when the Rn field is 0, and then counts no cycles |
| ArmSpec.Execute | trunk/code/ARM60CPU.cpp:91-197 | a failed condition costs 2S + N and changes nothing else; a handler never lowers the count |
| ArmSpec.Step | trunk/code/ARM60CPU.cpp:77-89 | one fetch-and-execute never lowers the cycle count |
| ArmSpec.RunFrom | trunk/code/ARM60CPU.cpp:56-75 | the loop stops with QuotaReached exactly when the count has reached the quota |
| ArmCpu.ARM60CPU.constructor | trunk/code/ARM60CPU.cpp:3-7 | zero registers and PSRs, empty memory, cycle count 0 |
| ArmCpu.ARM60CPU.DoSingleInstruction | trunk/code/ARM60CPU.cpp:77-89 | the new state is `Step` of the old one: fetch at the PC, move the PC on by 4, execute |
| ArmCpu.ARM60CPU.ExecuteCycles | trunk/code/ARM60CPU.cpp:56-75 | the count restarts at 0; the final state and stop reason are `ArmSpec.ExecuteCycles` of the old state |
| ArmCpu.ARM60CPU.RunOne | trunk/code/ARM60CPU.cpp:64-74 | one turn of the loop advances `RunFrom` by one instruction, or stops it at an unmodelled one |
| ArmCpu.ARM60CPU.ProcessInstruction | trunk/code/ARM60CPU.cpp:91-197 | the new state is `Execute` of the old one: the condition check, then the decoded handler |
| ArmCpu.ARM60CPU.ProcessBranch | trunk/code/ARM60CPU.cpp:202-251 | the new state is `DoBranch` of the old one |
| ArmCpu.ARM60CPU.ReadShiftedRegisterOperand | trunk/code/ARM60CPU.cpp:1192-1353 | returns the shifter's value and carry for Rm, and only the cycle count changes |
| ArmCpu.ARM60CPU.ProcessDataProcessing | trunk/code/ARM60CPU.cpp:256-317 | the new state is `DoDataProcessing` of the old one |
| ArmCpu.ARM60CPU.ProcessOperands | trunk/code/ARM60CPU.cpp:318-498 | once the operands are read, the new state is `Operate` of the old one |
| ArmCpu.ARM60CPU.ProcessSingleDataTransfer | trunk/code/ARM60CPU.cpp:660-712 | the new state is `DoSingleDataTransfer` of the old one |
| ArmCpu.ARM60CPU.TransferAtOffset | trunk/code/ARM60CPU.cpp:714-793 | once the offset is known, the new state is `TransferWith` of the old one |
| ArmCpu.ARM60CPU.LoadOrStore | trunk/code/ARM60CPU.cpp:746-787 | the new state is `Access` of the old one: a load or a store chosen by L |
| ArmCpu.ARM60CPU.LoadRegister | trunk/code/ARM60CPU.cpp:747-778 | the new state is `Load` of the old one |
| ArmCpu.ARM60CPU.DoSTR | trunk/code/ARM60CPU.cpp:1156-1190 | only memory changes, as `ArmSpec.DoSTR` says |
| ArmCpu.ARM60CPU.ProcessSingleDataSwap | trunk/code/ARM60CPU.cpp:935-980 | the new state is `DoSwap` of the old one |
| ArmCpu.ARM60CPU.ProcessPSRTransfer | trunk/code/ARM60CPU.cpp:503-584 | the new state is `DoPsrTransfer` of the old one |
| ArmCpu.ARM60CPU.ProcessMultiply | trunk/code/ARM60CPU.cpp:589-655 | the new state is `DoMultiply` of the old one, or unchanged when an index is out of range |
| ArmCpu.ARM60CPU.ProcessBlockDataTransfer | trunk/code/ARM60CPU.cpp:799-930 | the transfer loop reaches `DoBlockDataTransfer` of the old state, or the state is unchanged when the base index is out of range; the counting loop's invariant keeps its count equal to `RegisterCount` |
| ArmCpu.ARM60CPU.TransferRegister | trunk/code/ARM60CPU.cpp:857-928 | one listed register is transferred as `BlockRegister` says |
| ArmProperties.ByteStoreThenLoad | trunk/code/ARM60CPU.cpp:1167-1179 | for a DMA whose SetByte writes the lane a byte load reads, a byte stored at an address loads back from it |
| ArmProperties.ByteStoreKeepsOtherLanes | trunk/code/ARM60CPU.cpp:1167-1179 | for a DMA whose SetByte writes the lane a byte load reads, a byte store leaves the other three bytes of its word unchanged |
| ArmProperties.WordStoreThenLoad | trunk/code/ARM60CPU.cpp:1181-1184 | a word stored at an aligned address loads back unchanged |
| ArmProperties.StoreKeepsOtherWords | trunk/code/ARM60CPU.cpp:1156-1190 | a store changes only the word that holds its address |
| ArmProperties.SkippedInstruction | trunk/code/ARM60CPU.cpp:95-114 | a skipped instruction moves the PC on by 4, costs 2S + N and changes nothing else |
| ArmProperties.BranchTarget | trunk/code/ARM60CPU.cpp:217-250 | a branch at a goes to a + 8 + 4*offset; with L, R14 gets a + 8; R0-R13 are unchanged |
| ArmProperties.TestsNeverWrite | trunk/code/ARM60CPU.cpp:370-394 | TST, TEQ, CMP and CMN leave every register unchanged |
| ArmProperties.WriteToPcAligned | trunk/code/ARM60CPU.cpp:420-431 | a write to R15 is word-aligned, and the instruction costs the shifter's cycles plus 2S + N |
| ArmProperties.AddWritesSum | trunk/code/ARM60CPU.cpp:346-350 | ADD to a register other than R15 writes the wrapped sum of its operands and only that |
| ArmProperties.LogicOperationFlags | trunk/code/ARM60CPU.cpp:458-464 | a logic operation with S sets N and Z from the result and C from the shifter, and keeps V |
| ArmProperties.DataProcessingCost | trunk/code/ARM60CPU.cpp:496-497 | every data-processing instruction costs at least one S cycle and leaves memory alone |
| ArmProperties.LoadIntoPcAligned | trunk/code/ARM60CPU.cpp:760-765 | a load into R15 is word-aligned, unless write-back then moves R15 as the base |
| ArmProperties.PreIndexedWriteBackTwice | trunk/code/ARM60CPU.cpp:719-793 | a pre-indexed store with write-back stores at base + offset and leaves the base advanced by twice the offset |
| ArmProperties.PostIndexedStoreKeepsBase | trunk/code/ARM60CPU.cpp:731-744 | a post-indexed store without write-back stores at the base and changes no register |
| ArmProperties.SwapExchanges | trunk/code/ARM60CPU.cpp:959-974 | a word swap through an aligned Rm exchanges Rm with the word it points to |
| ArmProperties.MrsTargetsR0OrR1 | trunk/code/ARM60CPU.cpp:517-531 | MRS writes the chosen PSR into R1 when the Rd field is non-zero and into R0 otherwise, and nothing else |
| ArmProperties.MsrReplacesWholePsr | trunk/code/ARM60CPU.cpp:533-582 | MSR writes Rm, or in the flags-only form Rm or the rotated immediate, into the whole CPSR or SPSR (bit 22), control bits included; the other PSR and every register are unchanged |
| ArmProperties.MultiplyAsWritten | trunk/code/ARM60CPU.cpp:611-639 | a multiply is defined exactly when the Rd and Rs fields (and Rn under A) are 0; MUL then writes Rm * R0 into R0, or 0 when Rm is R0 |
| ArmProperties.BlockAddressAdvances | trunk/code/ARM60CPU.cpp:857-929 | after the loop the address has moved by 4 (or -4) once per listed register |
| ArmProperties.RegisterAdvancesAddress | trunk/code/ARM60CPU.cpp:863-927 | each listed register moves the address by one increment |
| ArmProperties.BlockBaseFollowsAddress | trunk/code/ARM60CPU.cpp:863-927 | with write-back, after a transferred register the base holds the current address, unless a load lists the base |
| ArmProperties.BlockWriteBack | trunk/code/ARM60CPU.cpp:852-929 | a block transfer with write-back through R0 leaves R0 moved by 4 (or -4) times the number of listed registers |
| ArmProperties.RunStops | trunk/code/ARM60CPU.cpp:56-75 | ExecuteCycles stops at the quota exactly when the count has reached it; a quota of 0 runs nothing |

## Left out

- Threads are not modelled: creation and priority, `Join`, `Thread.Sleep`, the `volatile` stop flag and the `FrameDone` event. The worker is an object that `InternalStart` creates and `InternalStop` forgets. The worker loop runs a given number of iterations, since the stop signal is only read between them. The sleeps it would pass to `Thread.Sleep` are returned.
- The native core is replaced by inputs:
  - `DoExecuteFrame` becomes one swap flag per step;
  - `DoSave` and `GetSaveSize` become the bytes to write and the count to read;
  - `Initialize` and `Destroy` become a flag;
  - `DoLoad` is not modelled beyond the bytes it is handed.
- The performance counter becomes one reading per iteration and a frequency.
- Unsafe copies and the pinned frame buffer are not modelled. The copy of the BIOS into the core (`ReadRom`) and the copy of a sector into the core's buffer are left out; `Read2048` returns the bytes instead. The frame buffer address is a constant.
- The audio plugin, `KPrint`, `Destroy`, the empty NVRAM and frame-trigger callbacks, the Pbus callbacks and the singleton are left out: they are I/O or empty.
- Floating point is not modelled. Sampler values and the speed sample are `real`, so rounding is not captured. The sleep is `remaining*1000/frequency` in integer arithmetic, where the source goes through a double. The source's `(int)` cast of that double is out of range once the quotient reaches 2^31. There .NET on x86 yields int.MinValue, which the clamp turns into a sleep of 0, while `Pacing.Decide` returns the quotient. This needs the counter to step back by about 25 days' worth of ticks. The 64-bit `long` arithmetic of the worker loop is unbounded here.
- `lastFrame` and `SampleNow` are commented out in the sampler's source, so they are not modelled.
- Pacing.SpeedSample: relates the sample to the tick delta exactly, which a double only approximates.
- Exceptions other than those named are not modelled: an exception from opening a state file is one `FileError`, and the file system's only permission is a set of names that may not be written, which makes both creating and opening them fail; sharing and locking are not modelled.
- The banked registers are not modelled. The register file holds only the current mode's R0-R15, so a block transfer with S set uses the same registers as without it; the source would use the user bank. The `ARM60Registers` and DMA classes are not part of this model: memory is a map of aligned words that reads 0 where nothing was written.
- ArmSpec.SetByte: assumes the DMA's byte store writes the lane of its word that a byte load from the same address reads (the last two address bits, reversed under BIGEND). The source hands only the address and the byte to the DMA, and a comment at its line 1177 leaves open whether BIGEND should affect this store. `ArmProperties.ByteStoreThenLoad` and `ArmProperties.ByteStoreKeepsOtherLanes` rest on this assumption.
- The LOCK flag of SWP and the debug logging under `__FOURDODEBUG__` are left out: neither affects the state.
- SWI, the coprocessor handlers and the undefined handler are empty in the source. They change nothing, and the model does the same.
- A multiply or block transfer whose unshifted register mask reaches past R15 indexes memory the source does not own. The model stops there: `DoMultiply` and `DoBlockDataTransfer` give None, and `ExecuteCycles` returns `Unmodelled`.
- ArmCpu.ARM60CPU.ExecuteCycles: takes a fuel bound. Multiply, PSR transfer and the empty handlers add no cycles, so the source's loop need not end. A run that uses up its fuel stops with `FuelSpent`. The cycle count is an unbounded `nat`, where the source's counter would wrap.
- Rotations by 0 or 32 in C++ (`x << 32`) are undefined behaviour. The model takes a rotation by 0 of an immediate as the value itself, and no lemma depends on that case.
- The `registerCount` the block-transfer handler computes is never used by the source; the method computes it, with a loop invariant tying it to `RegisterCount`, but no contract mentions it.
- The shift-type override for a zero register shift (line 1239) is dead in the source, because the `switch` reads the instruction's bits again. The model follows the switch, so a register shift of 0 with LSR or ASR acts as a shift by 32, and with ROR takes the RRX branch and yields 0.
- Some inline code of the source is split into helper methods, each proved against its specification function: `RunOne`, `ProcessOperands`, `TransferAtOffset`, `LoadOrStore`, `LoadRegister`, `TransferRegister` and `Iteration`.
