# A verified model of the FirePerf profiling simulator

The system runs a RISC-V guest in a functional simulator, profiles the kernel it boots by looking at every program
counter, and turns the result into flame graphs. It is fast because it does not do these things the obvious way: it
checkpoints memory in place, runs ahead blindly and rewinds, decompresses traces in parallel, and replaces an ordered
lookup by a dense array. This project models those fast forms next to the obvious ones and proves that they agree.

| module | what it models | main results |
|---|---|---|
| `SnapshotModel`, `Checkpoint` | copy-on-write checkpoint of guest DRAM shared by several MMUs, with their store TLBs | every run of the in-place mode and of the full-copy mode refines one model of memory and snapshots; a store changes exactly its bytes; buffers are conserved |
| `Guest`, `CallHistory`, `Hooking`, `Profiler`, `ProfilerCases`, `ProfiledSim` | run ahead, scan, rewind, replay, and the checkpoint under it | the chunked loop equals a loop that looks at each instruction, with a clock that moves only between segments, exactly when every round is clean, which is a condition on the machine that the run begins with: same call stacks, same dispatches in the same machine states, same trace; a call stack holds exactly the entries whose exit has not been passed; exactly when a round never ends; and all of it for the loop as it works in place on the checkpointed simulator, in either memory mode |
| `TraceReader`, `TraceBuffer` | trace files claimed and decoded by many threads, drained by one consumer | files are seen whole and in order; no buffer is shared; the ring is a bounded queue; the byte parser undoes the printer |
| `Unwinder`, `CallTree`, `Folder` | instruction stream to Start/End lines to collapsed stacks | the lines nest for every input; exactly when the labels are the active functions; the folder follows exactly when times do not go back; each stack is charged exactly the time it was open, and has its own key |
| `SymbolTable`, `SymbolIndex` | DWARF ranges, ELF symbols, the dense address index | the merged table is exactly the wanted one; the array answers every address of the image as the ordered lookup does, and as the DWARF entries and symbols say; exactly how far the image reaches |
| `Digits`, `TraceText` | the reformatter and the parser of trace lines | reading undoes printing exactly when the cause is not negative |
| `Regions` | page alignment and merging of memory regions in 64-bit arithmetic | the merged list is sorted, disjoint and covers exactly the same addresses |
| `ThreadPool`, `Logger` | the job queues, the workers, packet batches | each job is taken at most once, in order, with its own arguments; batches and pending packets are what was submitted; exactly when stopping loses jobs and when jobs finish in order |

`Common` and `Fields` hold what several modules share. A property that the code does not have is stated with an input
that shows it and with the exact condition under which it holds:

- A snapshot is good for one restore. Restoring in place is right whatever has been stored since exactly when
  `serialize_called` is up or every page of `ckpt_ppn` has an entry in `mm_ckpt`
  (`RestoresWhateverWasStoredExactlyWhen`); serialize, restore, store one byte, restore loses the snapshot
  (`SecondRestoreKeepsStore`).
- The single steps of the replay look at the program counter alone, so an interrupt taken just before a hooked
  instruction makes the hook be called there, for nothing, with the exits of the whole way popped, and all of that again
  in the next round (`InterruptedHookIsCalledTwice`). The replay lands on the instruction that the scan found exactly
  when no move that leaves nothing in the trace begins at a hooked address between the fast-forward and there
  (`CleanLands`; such a round is called clean). The dispatches of a run are those of the per-instruction loop exactly
  when all its rounds are clean (`Run`): `CleanRun` asks this of the machine that the run begins with, hooks aside. A
  guest in which no such move begins at a hooked address passes (`NoSilentHookIsClean`).
- A replay takes one single step for each move from the end of the fast-forward to its landing, and one more. That is at
  most min(fwd_steps, INTERLEAVE) + 1 when every move before the hook is an instruction; a silent move adds one, and a
  fast-forward that a silent move ends early leaves more to do (`ReplayLoop`, `StepsAreFew`).
- A restore leaves the host's exit code alone, so a guest that exits later in the run-ahead leaves the replay waiting
  for ever. A clean round ends exactly when nothing was hooked, or the very next move is the hooked instruction, or
  `target_running()` still holds after the run-ahead and the guest had not asked to stop before the hook; any round,
  when the fast-forward ends at a hooked address or the way from there to the next is free (`RoundEndsExactlyWhen`,
  `ExitAfterHookHangs`).
- A hook can be called while its instruction is not executed (`HookWithoutInstruction`). A clean round that ends does so
  exactly when the target has stopped in the run-ahead or the guest asks to stop just at the hooked instruction
  (`CleanRoundLeavesExactlyWhen`); the segment is then shorter by one, or empty, and it is the last one of the run
  (`Run`).
- The time a hook reads is the total length of the segments before its own; it is the hook's own index exactly when a
  segment starts with the hooked instruction (`TimeIsRightExactlyWhen`, `RoundTime`, `HookReadsStaleTime`).
- The trace reader is stuck for good exactly when the consumer has popped everything that was ever claimed
  (`StuckExactlyWhenCaughtUp`), and that is reachable for any files and any number of buffers (`StuckIsReachable`).
- The lines of the unwinder go forward in time for all streams at given cycles exactly when the cycles never go back
  (`OrderedExactlyWhenCyclesAre`), and for all streams over given function names exactly when USERSPACE_MISC is not one
  of them or is the only one (`OrderedExactlyWhenNamesAre`, `ReservedNameGoesBack`). The folder takes the lines of a
  stream without complaint exactly when their times do not go back (`FolderFollowsUnwinder`).
- The labels of the unwinder are the active functions after every instruction of a program exactly when no function
  calls one of its own name and none ends in a jump to the entry point of another: direct recursion shares one label,
  and after such a tail call there is one too many (`LabelsAreActiveExactlyWhen`).
- A text stands for one stack, as a key of the folder, exactly when it is not empty and has no semicolon
  (`OneKeyOneStackExactlyWhen`); such stacks have different keys (`KeysDiffer`).
- A negative cause is lost between the reformatter and the parser, but for the one int that the wrapped sum happens to
  hit, -2115098112 (`RoundTripExactlyWhen`, `NegativeCauseIsLost`).
- A page-aligned region contains the request exactly when its rounded size fits 64 bits; otherwise it can shrink to one
  page and still be accepted (`AlignmentHoldsExactlyWhenItFits`, `AlignmentCanShrink`).
- A symbol without a range at or past the end of the text ends the index: it and every later subroutine are left out.
  Every subroutine is in the index exactly when there is no such symbol (`AllPlacedExactlyWhen`, `LaterRangesAreLost`).
- Stopping the pool loses what still waits, even the batch that was flushed just before (`LastJobCanBeLost`); all jobs
  queued by then run exactly when none waits at the call, which is what `busy` answers
  (`StopRunsAllExactlyWhenNotBusy`).
- A pool that is asked for one thread has one only on machines with 1 to 31 hardware threads (`OneThreadExactlyWhen`).
  Jobs finish in the order of the queue exactly when the pool has at most one worker (`KeepsOrderExactlyWhen`,
  `TwoWorkersCanReorder`), and packets are printed in the order in which they were flushed exactly on machines with
  fewer than 32 hardware threads (`PacketsKeepOrderExactlyWhen`, `BatchesCanBeReordered`).

`dafny verify dfyconfig.toml` checks the whole project.

## Model

| member | source | states |
|---|---|---|
| `SnapshotModel.StepWellFormed` | src/spike-top/sim_lib.cc:474-519 | every operation keeps pages whole, and store TLB entries pointing at allocated pages |
| `SnapshotModel.ForwardKeepsSnapshot` | src/spike-top/mmu_lib.cc:33-72 | nothing that happens between a snapshot and its restore changes the snapshot |
| `SnapshotModel.RestoreGivesBack` | src/spike-top/sim_lib.cc:529-646 | a restore after any such run gives back the memory and the architectural state of before |
| `SnapshotModel.StoredByMiss` | src/spike-top/mmu_lib.cc:53-67 | a store that misses changes the memory and then at most its TLB entry |
| `SnapshotModel.StoredBytes` | src/spike-top/mmu_lib.cc:38-67 | byte by byte: a store changes exactly the bytes from its target on, in the page of the valid store-TLB entry or else at the translated address; a page allocated for it reads zero elsewhere; at most its own TLB slot changes, and only on a miss |
| `SnapshotModel.TouchedBytes` | src/spike-top/mmu_lib.cc:55 | an address that is touched gets a zero page if it has none; no other byte changes |
| `Checkpoint.RecoverableIsEnough` | src/spike-top/sim_lib.cc:591-609 | if every recorded page is unchanged or saved, undoing the saved ones and dropping the new ones gives the snapshot back |
| `Checkpoint.RestoresWhateverWasStoredExactlyWhen` | src/spike-top/sim_lib.cc:591-609 | the in-place restore is the snapshot after every sequence of stores if and only if the flag is up or every page recorded at the snapshot has a saved copy |
| `Checkpoint.StoresKeepRestorable` | src/spike-top/mmu_lib.cc:53-67 | under that condition no sequence of stores, to old or new pages, spoils the restore |
| `Checkpoint.StoreToUnsaved` | src/spike-top/sim_lib.cc:530 | with the flag down, one byte stored to an unsaved page survives the restore |
| `Checkpoint.SecondRestoreKeepsStore` | src/spike-top/sim_lib.cc:529-609 | a run of the simulator that does so: serialize, deserialize, store, deserialize |
| `Checkpoint.BuffersAreConserved` | src/spike-top/mmu_lib.cc:19-29 | pool and saved copies are pairwise distinct, apart from the pages, together with the pages all of the host blocks; at any point of any run they are as many as the epoch that saved most needed |
| `Checkpoint.SaveKeepsOk` | src/spike-top/mmu_lib.cc:16-31 | saving any address at all, page or not, leaves the logical machine as it is and keeps the invariant |
| `Checkpoint.AllocateKeepsOk` | src/spike-top/mmu_lib.cc:55 | a page allocated on first use adds exactly one zero page |
| `Checkpoint.WriteKeepsOk` | src/spike-top/mmu_lib.cc:63 | a write changes one logical page and no saved copy, provided the page has been saved while the in-place mode tracks |
| `Checkpoint.RefillKeepsOk` | src/spike-top/mmu_lib.cc:64-67 | a TLB entry for a saved page keeps the invariant that hits may skip the slow path |
| `Checkpoint.SaveKeepsPeak` | src/spike-top/mmu_lib.cc:20-29 | a save allocates a buffer only if its epoch then needs more than every epoch before, finished or not |
| `Checkpoint.EntriesNameSavedPages` | src/spike-top/mmu_lib.cc:53-67 | while the in-place mode tracks, the page behind every valid store-TLB entry of every MMU has been saved |
| `Checkpoint.RecycledBuffer` | src/spike-top/mmu_lib.cc:25-28 | a buffer taken from the pool is accounted for as the copy of its page |
| `Checkpoint.FreshBuffer` | src/spike-top/mmu_lib.cc:20-24 | and so is a new one, when the pool is empty |
| `Checkpoint.SimLib.TakeCheckpoint` | src/spike-top/mmu_lib.cc:16-31 | the block is saved, the logical machine is unchanged, and a buffer is allocated only if this epoch saves more than any before |
| `Checkpoint.SimLib.AddrToMem` | src/spike-top/mmu_lib.cc:55 | the host block behind a page, which exists from then on and reads zero if it is new; all other bytes stay |
| `Checkpoint.SimLib.StoreHit` | src/spike-top/mmu_lib.cc:41-50 | a slow-path hit does the logical store, whatever readable address it hands to take_checkpoint: exactly the stored bytes change, at the physical address of the entry |
| `Checkpoint.SimLib.StoreMiss` | src/spike-top/mmu_lib.cc:53-67 | a miss saves the page, stores exactly the bytes at the translated address, and refills the TLB only afterwards |
| `Checkpoint.SimLib.StoreSlowPathIntrapage` | src/spike-top/mmu_lib.cc:33-72 | the whole slow path is the logical store, byte by byte, and it faults exactly when the address is neither memory nor a device |
| `Checkpoint.SimLib.WriteHit` | src/spike-top/mmu_lib.cc:43-48 | a write through the host address of a TLB entry, with nothing saved, is still only the logical store, byte by byte |
| `Checkpoint.SimLib.Store` | src/spike-top/mmu_lib.cc:33-72 | the same for a store as the core issues it, inlined or through the slow path |
| `Checkpoint.SimLib.DrainIntoPool` | src/spike-top/sim_lib.cc:489-492 | all saved copies go back to the pool, none is lost |
| `Checkpoint.SimLib.Serialize` | src/spike-top/sim_lib.cc:474-519 | both modes take the logical snapshot and flush every store TLB; the full mode puts all pages into the message; the number of pages saved since the last snapshot becomes a finished epoch |
| `Checkpoint.CopyBack` | src/spike-top/sim_lib.cc:593-605 | the first restore loop: recorded pages get their saved bytes, unrecorded pages are collected |
| `Checkpoint.FreePages` | src/spike-top/sim_lib.cc:606-609 | the second: exactly the collected pages are freed |
| `Checkpoint.RestoreInPlace` | src/spike-top/sim_lib.cc:591-609 | together they compute the in-place restore of the logical memory |
| `Checkpoint.RestoreFull` | src/spike-top/sim_lib.cc:629-645 | the full restore makes the memory that of the message |
| `Checkpoint.SimLib.Deserialize` | src/spike-top/sim_lib.cc:529-646 | if the snapshot is still waiting, memory and architectural state are the snapshot's again, in both modes |
| `Checkpoint.SimLib.Execute` | src/spike-top/mmu_lib.cc:33-72 | one operation of either mode is one step of the model |
| `Checkpoint.SimLib.ExecuteAll` | src/spike-top/sim_lib.cc:529-646 | every run of either mode refines the model and keeps the invariants, the buffer count included; each of its snapshots ends one epoch |
| `Checkpoint.ModesAgree` | src/spike-top/sim_lib.cc:479-646 | from equal views, the two modes show the same memory, TLBs and snapshot after any run |
| `Checkpoint.RunAheadAndBack` | src/spike-top/sim_lib.cc:591-609 | snapshot, any run of stores, allocations, evictions and spurious checkpoints, restore: the model's restore, with exactly the old memory and architectural state |
| `ProfiledSim.SimIsLawful` | src/profiler/profiler.cc:197-242 | the simulator, with any guest whose moves do to the guest what the guest alone decides, obeys all the laws that the profiler supposes of its target, those of stepping, of host requests and of restores |
| `ProfiledSim.RestoreIsDeserialize` | src/profiler/profiler.cc:198-242 | serialize, any run ahead, deserialize is this target's restore |
| `ProfiledSim.Move` | src/spike-top/mmu_lib.cc:33-72 | one move of the guest, done by stores, evictions and allocations on the checkpointed memory, is the guest's move, whatever the store TLBs hold, and leaves the snapshot alone |
| `ProfiledSim.RunForOn` | src/spike-top/sim_lib.cc:318-347 | run_for in place leaves machine and trace as run_for of the target does |
| `ProfiledSim.Rewind` | src/profiler/profiler.cc:242 | deserialize_proto in place gives the saved guest back, keeps the exit code, and makes the simulator fit to go on |
| `ProfiledSim.ReplayOn` | src/profiler/profiler.cc:244-272 | fast-forward and single steps in place come to the outcome of the replay |
| `ProfiledSim.RoundOn` | src/profiler/profiler.cc:197-282 | a round in place, from serialize_proto to the end of the replay, comes to the outcome of the round |
| `ProfiledSim.Profile` | src/profiler/profiler.cc:170-300 | for every such guest and either memory mode, the loop in place gives the guest's own trace, cut into segments, and the dispatches of the per-instruction loop if and only if the rounds are clean, and then its call stacks, which are the entries whose exit has not been passed; the invariants of the checkpoint, the buffer count included, hold at the end |
| `ProfiledSim.WriterIsOk` | src/spike-top/mmu_lib.cc:33-72 | a guest that stores to memory through its TLB at each instruction is one |
| `ProfiledSim.ProfileWriter` | src/profiler/profiler.cc:170-300 | and on a new simulator, with any hooks, its trace is whole and its hooked instructions are dispatched in order |
| `Guest.RunFor` | src/spike-top/sim_lib.cc:318-347 | however it is chunked and whatever host requests, interrupts and stalls come between, the machine and the trace are those of the guest's moves |
| `Guest.RanMoves` | src/spike-top/sim_lib.cc:322-342 | the guest is where that many moves lead, with no more instructions than asked for among them; a target that runs afterwards ran before |
| `Guest.RanStops` | src/spike-top/sim_lib.cc:322-326 | a target that has stopped, or whose guest has asked for it, makes no move |
| `Guest.RanRuns` | src/spike-top/sim_lib.cc:322-326 | a target stops only where its guest has asked for it |
| `Guest.RanShort` | src/spike-top/sim_lib.cc:334-339 | fewer instructions than asked for are committed only if the target stops or the last move left nothing in the trace |
| `Guest.OneStep` | src/spike-top/sim_lib.cc:318-347 | run_for(1) makes exactly one move, silent or not, if and only if the target runs and the guest has not asked to stop |
| `Hooking.AddProfFunc` | src/profiler/profiler_state.cc:17-20 | a registered address has a hook, and the other hooks are kept |
| `Hooking.ProfileAtPc` | src/profiler/profiler.cc:124-130 | dispatch at one address, pops at the exits; all other addresses keep their functions |
| `Hooking.ProfileAtExit` | src/profiler/profiler.cc:115-122 | dispatch at every exit, no pops; all other addresses keep their functions |
| `Hooking.ReferenceReference` | src/profiler/profiler.cc:310-349 | the per-instruction loop may be cut at any move |
| `Hooking.QuietStretch` | src/profiler/profiler.cc:233-237 | where nothing is hooked, popping the counted exits afterwards is what the per-instruction loop does (a pop is what `PopMeans` says) |
| `Hooking.ReferenceCalls` | src/profiler/profiler.cc:337-347 | whatever hooks do, the dispatches are exactly the hooked instructions of the execution, in order, each once |
| `Hooking.CallsReadTheClock` | src/profiler/profiler.cc:337-347 | each in the state before its instruction, and with the clock's time at its index |
| `Hooking.DispatchMeans` | src/profiler/profiler.cc:337-344 | a dispatch leaves the state that the hook returns, with the hook's entry as the last one of the then current pid, and no other stack changed |
| `Hooking.PopMeans` | src/profiler/profiler_state.cc:75-77 | an exit takes the last entry of the current pid, and nothing else; popping an empty stack is recorded |
| `CallHistory.StandingNext` | src/profiler/profiler_state.cc:75-81 | the entries of a history that have not been left, defined by counting entries and exits: an entry joins at the end, an exit removes the last |
| `Hooking.StacksStand` | src/profiler/profiler.cc:337-347 | after any number of instructions the call stack of every pid is the list of entries in its history whose exit has not been passed, in order, whatever hooks do |
| `Hooking.UnderflowExactlyWhen` | src/profiler/profiler_state.cc:75-77 | an empty stack is popped if and only if some exit is passed with nothing standing in the current pid's history |
| `Profiler.Found` | src/profiler/profiler_state.cc:83-95 | the linear search finds the address if and only if it is listed |
| `Profiler.Scan` | src/profiler/profiler.cc:217-229 | the first hooked entry of the trace, and the number of exits before it, none after |
| `Profiler.ScanMeans` | src/profiler/profiler.cc:217-229 | that entry is the guest's first hooked instruction, however many silent moves come before |
| `Profiler.ReplayEndsExactlyWhen` | src/profiler/profiler.cc:246-272 | fast-forward and single steps come to a hooked address if and only if the fast-forward ends at one, or leaves a target that runs and a guest that does not ask to stop on the way to the next; otherwise no number of turns does |
| `Profiler.LandsAtHook` | src/profiler/profiler.cc:246-272 | if that address is the one the scan found, this is known of the restored machine: it comes at once, or the target runs and the guest does not ask to stop before |
| `Profiler.CleanLands` | src/profiler/profiler.cc:217-256 | the replay lands on the instruction the scan found if and only if no silent move begins at a hooked address between the fast-forward and there; otherwise it lands before one of those |
| `Profiler.RoundEndsExactlyWhen` | src/profiler/profiler.cc:205-272 | the same for a whole round; for a clean one in terms of what is known before the restore |
| `Profiler.RoundStory` | src/profiler/profiler.cc:198-281 | clean or not, where a round that rewinds ends, what it has popped and dispatched, and whether the hooked instruction is executed |
| `Profiler.RoundMoves` | src/profiler/profiler.cc:198-281 | clean or not, the trace and the machine are the guest's |
| `Profiler.RoundIsReference` | src/profiler/profiler.cc:198-281 | a clean round is the per-instruction loop over its segment, and over exactly one instruction more if it leaves its hook; one hook at most; exits in the discarded tail are not counted |
| `Profiler.GenuineExactlyWhen` | src/profiler/profiler.cc:251-270 | the hook is called for an instruction, and not before a silent move, if and only if the round is clean |
| `Profiler.RoundEndsInThreeWays` | src/profiler/profiler.cc:205-272 | a round that ends had nothing hooked, or leaves its hook, or executes it, and never two of these |
| `Profiler.HookIsLeftExactlyWhen` | src/profiler/profiler.cc:251-270 | a hook is called at the first instruction after the segment if and only if the round leaves it, and at the last one of the segment if and only if the round executes it |
| `Profiler.CleanRoundLeavesExactlyWhen` | src/profiler/profiler.cc:251-270 | for a clean round, it is left if and only if the round ends and the target has stopped in the run-ahead or the guest asks to stop just there |
| `Profiler.RoundTime` | src/profiler/profiler.cc:258-279 | the hook of a round reads the index at which the round began, which is its own if and only if no instruction comes between |
| `Profiler.ReplayLoop` | src/profiler/profiler.cc:246-274 | the do-while loop computes the replay, in one single step for each move from the fast-forward to the landing and one more: at most min(fwd_steps, INTERLEAVE) + 1 if every move before the hook is an instruction; in general one for each instruction that the fast-forward has left and one for each silent move, and it leaves at most INTERLEAVE unless it ends early |
| `Profiler.SingleStepsShort` | src/profiler/profiler.cc:246-272 | if every move before the hook is an instruction, the landing is at most min(fwd_steps, INTERLEAVE) moves after the fast-forward |
| `Profiler.StepsAreFew` | src/profiler/profiler.cc:246-272 | the bounds on the single steps, silent moves counted |
| `Profiler.RunAhead` | src/profiler/profiler.cc:198-281 | the imperative round computes its outcome, in which each counted exit is a pop as `PopMeans` says |
| `Profiler.TimeIsRightExactlyWhen` | src/profiler/profiler.cc:279 | an instruction's time is right if and only if a segment starts with it |
| `Profiler.ReferenceGoesOn` | src/profiler/profiler.cc:279 | a clean round's loop, with the clock stopped, is the next stretch of the loop over the whole run with the clock that moves between segments |
| `Profiler.RoundDone` | src/profiler/profiler.cc:279-281 | a round that ends carries trace and timestamp over to the next segment, and if it is clean the stacks and dispatches too |
| `Profiler.RoundHung` | src/profiler/profiler.cc:246-272 | one that does not leaves them where they are, all but the hooked instruction looked at |
| `Profiler.RoundKeepsGenuine` | src/profiler/profiler.cc:251-270 | whether all dispatches so far were made for instructions, and the rest of the run is clean, does not change over a round |
| `Profiler.NoSilentHookIsClean` | src/profiler/profiler.cc:217-256 | every run of a guest in which no silent move begins at a hooked address is clean, however often it is interrupted elsewhere |
| `Profiler.Rounds` | src/profiler/profiler.cc:197-282 | any number of rounds keeps all of this together, and all dispatches were made for instructions if and only if the run is clean, which its starting machine decides |
| `Profiler.RoundsFollow` | src/profiler/profiler.cc:170-300 | and this amounts to the refinement that `ProfilerRun.Run` states |
| `Profiler.ProfilerRun.Run` | src/profiler/profiler.cc:170-300 | the whole loop, for every lawful guest: segments that join to the uninterrupted trace and a timestamp that is its length; dispatches of the per-instruction loop if and only if all rounds are clean, a condition on the starting machine, and if and only if each was made for an instruction; and then its call stacks, pid and binary maps, and for each hook the total length of the segments before its own; each call stack is the list of entries whose exit has not been passed; one more instruction is looked at than executed exactly if the last round leaves its hook |
| `ProfilerCases.ExitAfterHookHangs` | src/profiler/profiler.cc:242-272 | a lawful guest that asks to stop only after the hook, and a replay that never ends |
| `ProfilerCases.HookWithoutInstruction` | src/profiler/profiler.cc:242-270 | a lawful guest, hooked at its very next instruction, whose hook is called and whose segment is empty |
| `ProfilerCases.HookReadsStaleTime` | src/profiler/profiler.cc:258-279 | a lawful guest whose hook at index 1 reads time 0 |
| `ProfilerCases.InterruptedHookIsCalledTwice` | src/profiler/profiler.cc:217-270 | a lawful guest that is interrupted just before its one hooked instruction: two rounds call the hook twice and pop the one exit of the handler twice |
| `TraceReader.ClaimRule` | src/lib/trace_reader.cc:165 | a claim is allowed exactly when nothing was ever claimed or when some but not all buffers are out |
| `TraceReader.ClaimKeepsInv` | src/lib/trace_reader.cc:156-173 | a claim takes an empty buffer that nobody owns |
| `TraceReader.FillKeepsInv` | src/lib/trace_reader.cc:174-180 | parsing touches no other claimed buffer |
| `TraceReader.PublishKeepsInv` | src/lib/trace_reader.cc:100-103 | a buffer is published whole, whatever the order of publication |
| `TraceReader.PopFrontKeepsInv` | src/lib/trace_reader.cc:50-54 | the consumer takes the next step of the next file |
| `TraceReader.PopBufferKeepsInv` | src/lib/trace_reader.cc:134-140 | a popped buffer is empty and free for the file N later |
| `TraceReader.RunKeepsInv` | src/lib/trace_reader.cc:151-182 | the invariant holds after any interleaving of any number of threads |
| `TraceReader.ConsumerSeesFilesInOrder` | src/lib/trace_reader.cc:134-182 | the consumer is given files 0, 1, 2, ... whole and in order, each step once; claims less pops stay in 0..N |
| `TraceReader.NoSharedBuffer` | src/lib/trace_reader.cc:156-173 | no buffer has two producers, or a producer and the consumer |
| `TraceReader.FillsHaveRoom` | src/lib/trace_reader.cc:56-57 | if every file fits a ring, no producer meets a full one at any point of any run |
| `TraceReader.StuckExactlyWhenCaughtUp` | src/lib/trace_reader.cc:165 | no step of anyone is possible if and only if claims = pops > 0 |
| `TraceReader.PopOfLastClaimSticks` | src/lib/trace_reader.cc:134-140 | the step that sticks is the pop of the last claimed buffer |
| `TraceReader.StuckIsReachable` | src/lib/trace_reader.cc:151-182 | for any files and any number of buffers some run sticks after one file |
| `TraceBuffer.PushSlots` | src/lib/trace_reader.cc:56-62 | a push appends to the queue, across the wrap |
| `TraceBuffer.PopSlots` | src/lib/trace_reader.cc:50-54 | a pop takes its first element, across the wrap |
| `TraceBuffer.CountSlots` | src/lib/trace_reader.cc:22-28 | the two index tests are emptiness and fullness |
| `TraceBuffer.Ring.constructor` | src/lib/trace_reader.cc:8-16 | an empty ring, one slot longer than asked; asked for none, it is not usable |
| `TraceBuffer.Ring.Empty` | src/lib/trace_reader.cc:22-24 | true exactly for the empty queue |
| `TraceBuffer.Ring.Full` | src/lib/trace_reader.cc:26-28 | true exactly at max_entries - 1 steps, the constructor's argument less one |
| `TraceBuffer.Ring.PushBack` | src/lib/trace_reader.cc:56-62 | appends |
| `TraceBuffer.Ring.PopFront` | src/lib/trace_reader.cc:50-54 | returns and removes the oldest step |
| `TraceBuffer.ScanField` | src/lib/trace_reader.cc:75-85 | the digit loop reads one field, modulo 2^64, and stops at its separator |
| `TraceBuffer.ScanLine` | src/lib/trace_reader.cc:71-89 | the field loop reads one line, or would leave the buffer or the member array |
| `TraceBuffer.LinePrinted` | src/lib/trace_reader.cc:71-98 | a printed line of nine fields is read back whole, whatever was read before it |
| `TraceBuffer.FileDecodes` | src/lib/trace_reader.cc:65-104 | lines that spell steps decode to exactly those, one each, when the ring has room |
| `TraceBuffer.FieldsDecode` | src/lib/trace_reader.cc:65-98 | for any line of plain fields: each field goes to its own place, what the line does not reach stays as an earlier line left it, and a tenth field is one too many |
| `TraceBuffer.DecodeUndoesPrint` | src/lib/trace_reader.cc:65-104 | decoding undoes printing |
| `TraceBuffer.GenerateTrace` | src/lib/trace_reader.cc:65-104 | the parser terminates and appends exactly the decoded steps, or meets the end of the buffer, a tenth field or a full ring |
| `TraceBuffer.RefillDrained` | src/lib/trace_reader.cc:174-180 | a drained ring refilled from a printed file holds exactly that file, if and only if it fits |
| `Unwinder.LinesNest` | src/profiler/stack_unwinder.cc:23-144 | for every instruction stream the lines nest, leave exactly the label stack open, and a label's indent is its depth |
| `Unwinder.AddNests` | src/profiler/stack_unwinder.cc:36-141 | the same for one instruction |
| `Unwinder.UnwindNests` | src/profiler/stack_unwinder.cc:97-114 | the same for an unwinding loop |
| `Unwinder.UnwindMeans` | src/profiler/stack_unwinder.cc:97-114 | unwinding keeps the frames up to the topmost one of the name, which is running again, or none, and prints the End lines of the others from the top, the first at its own end, the rest now |
| `Unwinder.KnownMeans` | src/profiler/stack_unwinder.cc:62-141 | one instruction: a reserved label on top is closed; then the running function goes on, or an asm sequence replaces the top, or a call site or non-entry leaves the topmost frame of its function, or an entry adds one frame; with exactly the lines for that |
| `Unwinder.UnknownMeans` | src/profiler/stack_unwinder.cc:38-60 | an unknown address leaves a lone USERSPACE_MISC running, and otherwise closes everything and opens it |
| `Unwinder.TopIsRunning` | src/profiler/stack_unwinder.cc:75-79 | after every instruction the frame on top ends at its cycle |
| `Unwinder.LinesInOrder` | src/profiler/stack_unwinder.cc:74-114 | for cycles that never go back and no function called USERSPACE_MISC, neither do the printed times |
| `Unwinder.UnwindPunctual` | src/profiler/stack_unwinder.cc:98-113 | an unwinding loop gives each label it uncovers the current end time before it can be printed |
| `Unwinder.OrderedExactlyWhenCyclesAre` | src/profiler/stack_unwinder.cc:23-144 | for every list of cycles: all streams at those cycles without the reserved name print in order if and only if the list never goes back |
| `Unwinder.PingPongPrintsCycles` | src/profiler/stack_unwinder.cc:131-141 | two functions that enter each other print a Start line at every cycle |
| `Unwinder.OrderedExactlyWhenNamesAre` | src/profiler/stack_unwinder.cc:65-72 | for every set of function names: all streams over them with cycles that never go back print in order if and only if the reserved name is not among them or is alone |
| `Unwinder.OnlyMiscInOrder` | src/profiler/stack_unwinder.cc:65-72 | with no other name the stack never holds two labels |
| `Unwinder.ReservedNameGoesBack` | src/profiler/stack_unwinder.cc:65-72 | for any other function, three instructions whose last End line goes back |
| `Unwinder.StackUnwinder.UnwindTo` | src/profiler/stack_unwinder.cc:98-114 | the loops compute the recursive unwinding |
| `Unwinder.StackUnwinder.PushLabel` | src/profiler/stack_unwinder.cc:51-60 | a new label and its Start line |
| `Unwinder.StackUnwinder.PopLabel` | src/tracerv/trace_tracker.h:39-53 | the top label goes, with its End line |
| `Unwinder.StackUnwinder.AddInstruction` | src/profiler/stack_unwinder.cc:23-144 | the object's stack and file are those of the specification that nests, whose single steps are `KnownMeans` and `UnknownMeans` |
| `CallTree.LabelsAreActiveExactlyWhen` | src/profiler/stack_unwinder.cc:62-141 | for the instructions of any tree of calls and tail calls, at any cycles: after every instruction the labels are exactly the path of active functions, if and only if no function calls one of its own name and none tail-calls one of another |
| `Folder.FolderFollowsUnwinder` | src/fireperf/stackcollapse-tracerv.py:49-76 | for every instruction stream, the folder takes all lines without a warning or an error if and only if their times do not go back, and then has the unwinder's stack |
| `Folder.AcceptedExactlyWhenCyclesAre` | src/fireperf/stackcollapse-tracerv.py:57-73 | for every list of cycles: the folder takes every stream at those cycles without the reserved name if and only if the list never goes back |
| `Folder.UnwindThenFold` | src/fireperf/stackcollapse-tracerv.py:49-76 | end to end for sane streams: nothing is skipped, the counts sum to the last time, and what is charged to the key of a stack is exactly the time for which the open labels were that stack |
| `Folder.Follow` | src/fireperf/stackcollapse-tracerv.py:57-73 | the same for any lines that nest |
| `Folder.ChargesOpenTime` | src/fireperf/stackcollapse-tracerv.py:60-76 | what is charged to the key of a stack is the time for which the open labels were that stack |
| `Folder.ChargesKeyTime` | src/fireperf/stackcollapse-tracerv.py:60-76 | for any labels at all: what is charged to a key is the time for which the open labels had that key |
| `Folder.KeySplits` | src/fireperf/stackcollapse-tracerv.py:60 | splitting a key at the semicolons gives the stack back |
| `Folder.KeysDiffer` | src/fireperf/stackcollapse-tracerv.py:60 | different stacks of nonempty labels without semicolons have different keys |
| `Folder.OneKeyOneStackExactlyWhen` | src/fireperf/stackcollapse-tracerv.py:60 | a text is the key of its own one-label stack alone if and only if it is not empty and has no semicolon |
| `Folder.ComplainsExactlyWhen` | src/fireperf/stackcollapse-tracerv.py:57-73 | for any line: a warning exactly if its time goes back or it ends a label with none open, and then nothing changes; an error exactly if it ends another label than the last one |
| `Folder.FoldAllKeepsOrder` | src/fireperf/stackcollapse-tracerv.py:28-34 | the stacks are kept in the order in which they were first charged |
| `Folder.FoldedInOrder` | src/fireperf/stackcollapse-tracerv.py:31-34 | and printed in that order, one line each with its count, but none for the empty stack |
| `Folder.SeriesInOrder` | src/fireperf/stackcollapse-tracerv.py:36-42 | in time mode the charges are printed in their order, but none for the empty stack |
| `Folder.AddKeepsTotal` | src/fireperf/stackcollapse-tracerv.py:28-29 | adding to a stack adds to the total, whether the stack is new or not |
| `Folder.FoldAllKeepsBalance` | src/fireperf/stackcollapse-tracerv.py:24-42 | for any lines whatever, the totals over all stacks sum to the last accepted time, and each is the sum of the counts of the time-ordered mode |
| `Folder.BothModesPrintTheSameTotal` | src/fireperf/stackcollapse-tracerv.py:31-42 | the printed counts of both modes sum to that time less the time of the empty stack |
| `Folder.Script.TakeLine` | src/fireperf/stackcollapse-tracerv.py:54-76 | the loop body on the globals |
| `Folder.Script.Collapse` | src/fireperf/stackcollapse-tracerv.py:44-78 | the script prints what the fold of the lines prints, in both modes, and fails with it; a failure in merging mode prints nothing |
| `SymbolTable.FindsCoveringRange` | src/tracerv/tracerv_dwarf.cc:215-226 | among disjoint ranges the lookup finds the range that covers the address, and no other |
| `SymbolTable.SubroutinesOfDwarf` | src/tracerv/tracerv_dwarf.cc:131-167 | each low address has the first entry that claims it, as a function, whose range ends at low + high modulo 2^64 for a constant high address and at the high address otherwise; there are no other keys; disjoint entries give a disjoint table |
| `SymbolTable.CoveredByDies` | src/tracerv/tracerv_dwarf.cc:149-156 | an address is in a range of the table if and only if it is in the range of an entry |
| `SymbolTable.TextBounds` | src/tracerv/tracerv_elf.cc:87-113 | the tightest bounds of the executable sections |
| `SymbolTable.TakenMeans` | src/tracerv/tracerv_elf.cc:152-161 | the test on the one entry before the address finds every entry or range that could be in the way |
| `SymbolTable.MergedIsRanged` | src/tracerv/tracerv_elf.cc:152-169 | the merged table stays disjoint |
| `SymbolTable.MergeSymbols` | src/tracerv/tracerv_elf.cc:141-170 | a key of the merged table is a DWARF range, or the first named text symbol outside all ranges, and there are no others |
| `SymbolTable.DwarfRangesWin` | src/tracerv/tracerv_elf.cc:155-160 | inside a DWARF range the merge changes no answer; elsewhere the answer is a symbol or nothing |
| `SymbolIndex.ExpectMeans` | src/tracerv/tracerv_dwarf.cc:215-226 | what the ordered lookup says: presence, entry exactly at the keys, call site exactly at the listed non-entry addresses in range, the name of the range or of the lone symbol, and an asm sequence exactly where that is not a function |
| `SymbolIndex.ExpectAnswers` | src/tracerv/tracerv_elf.cc:141-170 | in terms of the DWARF entries and symbols: an address in the range of an entry has its name and is in no asm sequence; any other has the name of the nearest named text symbol below, if no range is nearer, and is in an asm sequence exactly if that symbol is not a function |
| `SymbolIndex.PlacedIsBuilt` | src/tracerv/tracerv_processing.cc:69-143 | one more subroutine in the array is one more key in the lookup |
| `SymbolIndex.ReachesNext` | src/tracerv/tracerv_processing.cc:45-67 | one more key that has its cell moves the end of the image to the end of its range at most |
| `SymbolIndex.AllPlacedExactlyWhen` | src/tracerv/tracerv_processing.cc:65-67 | every subroutine is in the image if and only if no symbol without a range lies at or past the end of the text |
| `SymbolIndex.LaterRangesAreLost` | src/tracerv/tracerv_processing.cc:65-67 | a table whose range after such a symbol is not in the image |
| `SymbolIndex.ObjdumpedBinary.constructor` | src/tracerv/tracerv_processing.cc:10-160 | for every table of disjoint ranges: inside the image the array answers as the ordered lookup, outside it not at all, no cell past the vector is written, and the image is cut short at the first symbol without a range at or past the end of the text, or else holds every range whole and nothing more |
| `SymbolIndex.ObjdumpedBinary.PlaceCallsites` | src/tracerv/tracerv_processing.cc:84-122 | exactly the empty cells at call sites in range are set |
| `SymbolIndex.ObjdumpedBinary.FillEmpty` | src/tracerv/tracerv_processing.cc:52-63 | exactly the empty cells of the stretch are set |
| `SymbolIndex.ObjdumpedBinary.Advance` | src/tracerv/tracerv_processing.cc:45-63 | the vector is made to reach the entry point or the end of the range, and a lone symbol reaches to the next entry point |
| `SymbolIndex.ObjdumpedBinary.AddSubroutine` | src/tracerv/tracerv_processing.cc:39-144 | one trip of the loop, its break included |
| `SymbolIndex.ObjdumpedBinary.FillTail` | src/tracerv/tracerv_processing.cc:147-159 | a lone symbol at the end reaches to the end of the image |
| `SymbolIndex.Annotate` | src/tracerv/tracerv_processing.cc:19-36 | from disjoint DWARF entries and any symbols to an index that answers every address of its image as those entries and symbols say, agrees with the lookup, and covers the executable sections |
| `Digits.ReadPrint` | src/spike-top/sim_lib.cc:797-811 | the digit loops read back a printed number |
| `Digits.Read64Print` | src/spike-top/sim_lib.cc:801-811 | and never wrap for a 64-bit value |
| `Digits.ReadAfterMinus` | src/spike-top/sim_lib.cc:797-799 | a minus sign counts as a digit worth -3 |
| `Digits.Read32Is` | src/spike-top/sim_lib.cc:797-799 | wrapping the int at each digit is wrapping it once at the end |
| `Digits.NegativeReadsBackExactlyWhen` | src/spike-top/sim_lib.cc:797-799 | a printed negative int is read back if and only if it is -2115098112 |
| `TraceText.ParseLine` | src/spike-top/sim_lib.cc:786-812 | the character loops compute the field-by-field parse, or run off the end |
| `TraceText.ParsePrinted` | src/lib/reformat_cospike_trace.cc:37-38 | every field of a printed record but the cause is read back |
| `TraceText.RoundTripExactlyWhen` | src/lib/reformat_cospike_trace.cc:37-38 | a printed record is read back unchanged if and only if its cause is not negative or is -2115098112 |
| `TraceText.NegativeCauseIsLost` | src/lib/reformat_cospike_trace.cc:33-38 | a record that is not |
| `TraceText.SplitJoin` | src/lib/string_parser.cc:57-69 | joining the words of an unlimited split gives the text back |
| `TraceText.SplitLimit` | src/lib/string_parser.cc:67 | a limit keeps the first words and drops the rest |
| `TraceText.FastSplit` | src/lib/string_parser.cc:57-69 | the find_first_of loop computes the split |
| `TraceText.FastPrint` | src/lib/string_parser.cc:75-98 | the two fast number loops read back every 64-bit value |
| `TraceText.FastValueIs` | src/lib/string_parser.cc:75-98 | the digits of both bases, in both cases |
| `TraceText.StrtoullFast` | src/lib/string_parser.cc:75-98 | the loops compute the value of the text up to its first NUL |
| `TraceText.Reformat` | src/lib/reformat_cospike_trace.cc:26-38 | one turn of the reformatter prints the decoded record |
| `TraceText.ReformatThenParse` | src/lib/reformat_cospike_trace.cc:26-38 | reformatting a raw line and parsing the result is decoding it directly |
| `TraceText.ReformatIsFaithfulExactlyWhen` | src/lib/reformat_cospike_trace.cc:33 | for any line, that holds if and only if the cause modulo 2^32 is below 2^31 or is 2179869184 |
| `Regions.OverlapIsIntersection` | src/profiler/profiler_main.cc:131-134 | the test holds exactly when some address is in both |
| `Regions.CoversSpaceMeans` | src/profiler/profiler_main.cc:136-146 | the special case is exactly that the two cover all 2^64 addresses |
| `Regions.MergeIsUnion` | src/profiler/profiler_main.cc:148-158 | otherwise the merge does not overflow and is the union |
| `Regions.SortedIsInOrder` | src/profiler/profiler_main.cc:123-129 | the sort orders by base, then size |
| `Regions.ProgressStep` | src/profiler/profiler_main.cc:173-192 | each branch of the loop keeps the list disjoint and its addresses right |
| `Regions.MergeOverlappingMemoryRegions` | src/profiler/profiler_main.cc:162-195 | the result is in order, disjoint, free of overflow, aligned if the input was, and has exactly the input's addresses, all 2^64 included |
| `Regions.AlignmentHoldsExactlyWhenItFits` | src/profiler/profiler_main.cc:219-224 | the aligned region contains the request if and only if its rounded size is below 2^64 |
| `Regions.AlignmentIsLeast` | src/profiler/profiler_main.cc:219-224 | and then it is the least aligned region that does |
| `Regions.AlignmentCanShrink` | src/profiler/profiler_main.cc:219-224 | a request that becomes a single page it is not in |
| `ThreadPool.Pool.QueueJob` | src/profiler/thread_pool.h:40-48 | the three queues grow together, at the end: the object does the queueing step of the runs below |
| `ThreadPool.Pool.Dequeue` | src/profiler/thread_pool.h:79-93 | a worker gets the oldest job with its own arguments, the taking step, or leaves if and only if stop is set, the leaving step |
| `ThreadPool.Pool.Busy` | src/profiler/thread_pool.h:62-69 | true exactly while some job waits |
| `ThreadPool.RunKeepsInv` | src/profiler/thread_pool.h:72-96 | for any workers and interleaving, queued jobs are those taken, in order, and those waiting; after stop none is taken |
| `ThreadPool.JoinedPoolRanExactlyTheTaken` | src/profiler/thread_pool.h:50-60 | when all workers have left, all queued jobs have run if and only if none waits |
| `ThreadPool.StopRunsAllExactlyWhenNotBusy` | src/profiler/thread_pool.h:50-69 | for the state in which stop is called and whatever happens then: when all workers have left, the jobs queued by the call have all run if and only if none waited at the call |
| `ThreadPool.StopLosesWhatWaits` | src/profiler/thread_pool.h:82-84 | what waits when stop is set never runs |
| `ThreadPool.LastJobCanBeLost` | src/profiler/thread_pool.h:50-60 | a run in which the only job is lost, for any number of workers |
| `ThreadPool.OneWorkerKeepsOrder` | src/profiler/thread_pool.h:72-96 | one worker finishes jobs in the order of the queue |
| `ThreadPool.TwoWorkersCanReorder` | src/profiler/thread_pool.h:72-96 | for any pool of two or more, a run that finishes two jobs in the wrong order |
| `ThreadPool.KeepsOrderExactlyWhen` | src/profiler/thread_pool.h:72-96 | on all runs jobs finish in the order of the queue if and only if the pool has at most one worker |
| `ThreadPool.StartedPoolKeepsOrderExactlyWhen` | src/profiler/thread_pool.h:31-38 | in terms of start: if and only if there are fewer than 32 hardware threads and at most one of them or one asked for |
| `ThreadPool.OneThreadExactlyWhen` | src/profiler/thread_pool.h:31-38 | start(1) makes one thread exactly for 1 to 31 hardware threads |
| `ThreadPool.NumThreadsIs` | src/profiler/thread_pool.h:31-34 | start makes as many threads as were asked for, but no fewer than a sixteenth of the hardware threads and no more than those |
| `Logger.FilenamesDiffer` | src/profiler/logger.cc:31-55 | different traces get different file names |
| `Logger.LoggerT.SubmitTraceToThreadpool` | src/profiler/logger.cc:57-61 | trace k goes to file k |
| `Logger.LoggerT.SubmitPacketTraceToThreadpool` | src/profiler/logger.cc:67-71 | below the threshold nothing is flushed, from it on all pending packets as one batch; no packet is lost, the 32-bit cut of the size included |
| `Logger.LoggerT.FlushPacketTraceToThreadpool` | src/profiler/logger.cc:73-76 | flushed batches then pending packets are still the submitted ones in order |
| `Logger.PrintedPacketsAreAPrefix` | src/profiler/logger.cc:63-76 | one worker prints a prefix of the submitted packets, and all of them if it is stopped with none waiting |
| `Logger.BatchesCanBeReordered` | src/profiler/logger.cc:73-76 | with two workers or more, two batches can be printed in the wrong order |
| `Logger.PacketsKeepOrderExactlyWhen` | src/profiler/logger.cc:14-76 | on all runs of the packet pool the packets come out in the order in which they were flushed if and only if the machine has fewer than 32 hardware threads |

## Left out

- The host heap as arrays: host pages and buffers are blocks of a map from addresses to bytes inside one state value, because frames over many arrays made the proofs an order of magnitude dearer. Addresses, aliasing through addresses, and writes into a page or buffer are modelled; `take_checkpoint` may be handed any address.
- Checkpoint.SimLib.StoreHit: supposes that the page-sized read at the address handed to `take_checkpoint` succeeds; in the source that address is a displacement and the read may fault.
- Stores that bypass both the slow path and a valid store-TLB entry (page-table accessed/dirty updates by the walker, DMA by devices) are assumed not to happen between a snapshot and its restore. Stores that cross a page are assumed to be split before they reach the code modelled.
- Devices: an address that is neither memory nor accepted by a device faults; what a device does with a store is not modelled.
- The debug variant of the checkpoint (`DEBUG_MEM`).
- Register, CLINT, PLIC and UART state: one opaque value, copied into the message and back.
- Profiler.ProfilerRun.Run: supposes (`Lawful`) that what the guest does, its interrupts included, depends neither on how it is chunked nor on a rewind; the real single-step replay delivers more device ticks than a bulk run. Duplicated trace entries are excluded. A signal, which `target_running` also looks at, is left out.
- ProfiledSim.Profile: supposes (`ProgramOk`) that what a move does to memory and architectural state depends on these alone as long as the store TLBs agree with the page tables, and that flushed ones do. The only host request is the one to stop.
- Profiler.ReplayLoop: is for replays that end; where the source would wait for ever the round's outcome is `Hung`.
- Hooks are arbitrary functions of the machine, of the call stacks, current pid and binary maps, and of the timestamp; their reading of guest memory is not modelled. A pop of an empty call stack is undefined in the source and sets a flag here.
- TraceReader.FillsHaveRoom: supposes that every file fits a ring; a file with more lines aborts its producer (`TraceBuffer.RefillDrained`), which is not a step of the protocol.
- TraceReader.RunKeepsInv: gzip and the file system are left out; a file is the list of its steps, and a claim is enabled only for a file that exists. Locks are atomic steps. Threads that poll forever are not a step.
- TraceBuffer.GenerateTrace: `max_file_bytes` is the length of the buffer; reading past it ends the model's run.
- The unwinder's labels and the array cells of the index are values, not shared objects; nothing in the source observes their identity except a warning.
- CallTree.LabelsAreActiveExactlyWhen: is about programs without asm sequences and unknown addresses; what those do is the business of `KnownMeans` and `UnknownMeans`.
- The WARN lines of the unwinder, which the folder's pattern does not match, and the folder's regular expression, which is an arbitrary function of prefix and name here.
- SymbolIndex.ObjdumpedBinary.constructor: requires disjoint nonempty DWARF ranges, with call sites only in ranges. The overlap warnings cannot occur then and are not modelled.
- libdwarf, libelf and the traversal of entries and sections: the usable attributes are the input.
- Regions.AlignmentHoldsExactlyWhenItFits: the checks of mem_cfg_t belong to Spike and are taken as "not empty and not past 2^64"; the limit on physical address bits and argument parsing are left out.
- TraceText.RoundTripExactlyWhen: the int sum of a long negative cause overflows, which C++ leaves undefined; the model wraps it, as two's complement machines do.
- Logger.PacketsKeepOrderExactlyWhen: a batch is printed in one step; with two workers, lines of two batches may also interleave in the file.
- `ganged_step`, `TraceTracker::addInstruction` (a near copy of the unwinder), objdump parsing, Perfetto output, statistics and the Python setup scripts: easy, or dependent on code that is not part of the repository.
