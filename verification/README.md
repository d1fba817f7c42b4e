# Refunction, modelled and verified in Dafny

Refunction keeps a container warm for serverless functions and puts its process back to a
checkpoint between two functions. This project models the four parts of it in which the
interesting state changes hands, and proves what each of them is for.

**Checkpoint and restore** (`Kernel`, `Layout`, `MemoryPages`, `SoftDirty`, `Tracing`, `Injection`,
`Restoration`, `FullRestore`, `FailedRestores`, `Runs`, `Batches`, `Checkpoint`). A process is a list of regions, the bytes
behind them, one soft-dirty bit a page, a program break, and registers for each thread. The kernel's promises
are functions on such a process: a user's write and a new page set the bit, writing to
`clear_refs` clears it. The five phases of `Restore` are methods over that process. Every run of
one checkpoint, user code, successful restores and failed ones, is covered: a restore that returns without error
brings back layout and registers, and all bytes exactly when no failed restore before it has torn code for good.
Every interleaving of the goroutines that write pages back ends in the same memory,
and such an interleaving can always be completed; an injected system call leaves nothing behind but its own effect
and two dirty bits. The limits are stated too: when the program break itself does not come back, when bytes do not,
when the layout test miscounts, and which change of layout goes unnoticed.

**The worker scheduler** (`Pool`, `Workers`, `WorkerSteps`, `WorkerTheorems`, `WorkerQueues`, `WorkerRuntimes`,
`WorkerTimers`, `FunctionServer`).
Each critical section is a method over the three lists. A state machine interleaves callers of `Run`,
any number of timers, forced evictions, restores, pipe traffic and the runtimes in the workers, and an
invariant over all its runs gives conservation of workers, isolation of functions and answers that match
their requests. Told by the order in which runs completed and workers came back, every call gets the least recently
used worker that holds its function, or else the longest undeployed one, or else evicts the least recently used one;
every deployed worker has a timer; and a runtime dies of nothing but what user code does, while code that merely
fails to load is refused and the next one is awaited.

**Tracer and controller** (`Rendezvous`, `RendezvousSteps`, `RendezvousTheorems`, `RendezvousHistories`,
`RendezvousOrders`). One tracer goroutine for each
thread of the process and one controlling goroutine meet on channels; the buffered channel
`SignalStop` doubles as the note that a thread is stopped. The invariant covers every sequence of
operations of the controlling goroutine. What each operation does is stated on the history of what happens in it: the
statuses taken from the leader, the threads that go on, the signals the kernel hands them, and the orders they obey.

**The JSON codec** of the embedded runtime (`Bytes`, `Utf`, `Strings`, `Numbers`, `Json`, `Parser`, `Printer`,
`Grammar`, `Literals`, `Shown`, `Reading`, `Printing`, `RoundTrip`, `Minify`). The parser, the printer with its growing
or preallocated buffer, and the in-place minifier are methods over offsets and arrays, proved against functions on
texts. `Grammar` is RFC 8259 as trees, with the text and the meaning of each, written without reference to cJSON. The
parser reads every text of the grammar as what it means; the printer writes a text of the grammar that means the value;
the minifier takes white space and comments out of a text of the grammar and nothing else. That printed values come back,
and that minifying undoes formatting, follows. Sections 3 of RFC 3629 and 2.2 of RFC 2781 give the characters.

Five properties do not hold of the code as it stands, and the project says exactly when they do: the
program break after a restore (`BreakBackIff`, counterexample `BreakMayBeLost`), the bytes after a restore that
follows a failed one (`FailedCallTracksIff`, `EveryRestoreOfEveryRun`, counterexample `CodeMayBeLost`: a call that
unmaps the first byte of the instruction planted for it cannot put the second one back), the bytes after a
restore to a checkpoint that is not the latest (`RestoreBringsBytesBackIff`, `SecondCheckpointForgets`,
counterexample `SecondCheckpointLosesBytes`), that an answer is the work of the code its caller
passed (`OwnAnswersIffIdsDetermineCode`, counterexample `StaleCode`: a document can be updated under
its `_id`, and workers are matched by `_id` alone), and that a returning `Stop` means stopped threads
(`StopStopsEveryTaskIffAttached`, counterexample `StopAfterDetachIsHollow`: `Detach` leaves its token on the channel).
In `worker/images/embedded-python/cJSON.h` the advice to allocate 5 bytes more than needed is safe: two bytes more
than the text are needed and enough (`PrintPreallocated`).

`dafny verify dfyconfig.toml` checks the whole project.

## Model

| member | source | states |
|---|---|---|
| SoftDirty.OpTracks | controller/controller.go:484-499 | whatever user code does within bounds, every byte that differs from the checkpoint stays on a dirty page of a writable region |
| SoftDirty.OpFollows | controller/controller.go:484-499 | whatever user code does within bounds, a byte of the checkpoint is as it was before the step, or on a dirty page of a writable region |
| SoftDirty.RunTracks | controller/controller.go:484-499 | the same over any number of user operations since the bits were cleared |
| Tracing.Tracee.NewMemoryLocations | state/memory.go:29-68 | the scan of the maps file keeps order and drops exactly the three kernel-owned names |
| Injection.CommitUnderPatch | controller/ptrace/ptrace.go:229-275 | changing two code bytes, making a call and changing them back is making the call and dirtying the pages of the two bytes |
| Injection.StepOver | controller/ptrace/ptrace.go:229-270 | the planted instruction makes the call of the requested number and arguments and leaves an image that can be mended |
| Injection.RunSyscall | controller/ptrace/ptrace.go:214-283 | succeeds exactly when the two bytes at the program counter survive the call; then nothing but the call's own effect and the dirty bits of those two bytes is left, and its result is returned; otherwise the process is where the call was given up |
| Injection.AbandonedIs | controller/ptrace/ptrace.go:229-275 | a call that is given up has had its effect; its code is put back as far as it is mapped, so that a planted byte stays exactly when the first of the two went away and the second did not |
| MemoryPages.BatchesPartition | state/memory.go:248-263 | every page of a region falls into exactly one of the eight batches, for every number of pages |
| MemoryPages.OffsetsAgree | state/memory.go:239-311 | pagemap offset, buffer offset and address of a page speak of the same page and are in bounds |
| MemoryPages.SoftDirtyBit | state/memory.go:293-300 | the top bit of the seventh byte of an entry is the soft-dirty bit |
| MemoryPages.PagesRestoredUnique | state/memory.go:208-236 | what restoring the dirty pages means leaves one memory only |
| Batches.AnyInterleaving | state/memory.go:208-316 | every schedule of all region and batch goroutines that lets them finish restores the dirty pages and touches nothing else |
| Batches.SomeScheduleFinishes | state/memory.go:208-316 | whatever the scheduler has done so far, there is a continuation in which every batch goroutine gets through |
| Checkpoint.State.constructor | state/state.go:25-81 | a new state holds the registers of every thread and the visible regions, without bytes |
| Checkpoint.State.SaveWritablePages | state/memory.go:85-107 | afterwards every writable region has its bytes saved, and no other has any |
| Checkpoint.State.GetMemory | state/memory.go:70-83 | the first region of that name, or an error |
| Checkpoint.State.ProgramBreakChanged | state/memory.go:118-145 | whether the heap ends elsewhere; an error exactly when one of the heaps is missing |
| Checkpoint.State.NumMemoryLocationsChanged | state/memory.go:197-206 | whether the number of visible regions differs |
| Checkpoint.State.MemoryChanged | state/memory.go:147-195 | whether any field of any region differs, position by position |
| Checkpoint.State.CountDirtyPages | state/memory.go:318-363 | the number of pages of the region in the set of dirty pages |
| Checkpoint.State.RestoreProgramBreak | state/state.go:107-122 | without error the kernel granted the old end of the heap and only that changed, but for dirty bits of code; an error leaves what one of the failures leaves: no heap, a refusal, or a call whose code was not mapped before or after it |
| Checkpoint.State.CalculateNewLocations | state/state.go:165-180 | exactly the regions whose name and start are not in the checkpoint, in order |
| Checkpoint.State.UnmapNewLocations | state/state.go:145-163 | all new regions are unmapped one after the other and nothing else changes, but for dirty bits of code; on error the regions before one of them are unmapped and the call for that one failed |
| Checkpoint.State.FixupSyscallState | state/state.go:124-143 | one thread of the checkpoint runs some user code without system calls, and nothing else happens |
| Checkpoint.State.RestoreMemoryBatch | state/memory.go:270-316 | the dirty pages of the batch get their saved bytes, the other pages stay |
| Checkpoint.State.SingleMemoryRestoreDirtyPages | state/memory.go:238-268 | the eight batches together restore the dirty pages of the whole region |
| Checkpoint.State.RestoreDirtyPages | state/memory.go:208-236 | every dirty page of a writable region has its saved bytes back, every other byte is untouched |
| Checkpoint.State.RestoreRegs | state/state.go:83-105 | every thread of the checkpoint has its saved registers, or one of them is gone and the call never returns |
| Checkpoint.Controller.TakeCheckpoint | controller/controller.go:200-227 | appends a faithful snapshot of the stopped process, keeps the earlier ones, and clears all soft-dirty bits |
| Checkpoint.Controller.Restore | controller/controller.go:325-387 | for a process that was changed within bounds since the first checkpoint: without error its layout, bytes and registers are back; with an error one of the listed failures happened, and every difference is still tracked exactly when it tore no code for good; and the call returns |
| Checkpoint.Controller.RestoreInPhases | controller/controller.go:337-381 | break, unmap, fixup, pages and registers happen in this order, each only when it is called for |
| FullRestore.CountIsBalance | state/state.go:165-180 | with distinct names and starts, the count changes by the number of new regions less the number of lost ones |
| FullRestore.CountDetectsNewLocations | state/state.go:145-180 | when every region of the checkpoint survives by name and start, whatever else became of it, the count is unchanged exactly when there is nothing to unmap |
| FullRestore.SurvivorsAreCounted | state/state.go:145-180 | so it is in every process that user code leaves within bounds |
| FullRestore.AfterBreak | state/state.go:107-122 | after the first phase the heap is the checkpoint's, and every byte is as before or covered by a dirty bit |
| FullRestore.UnmappedFollows | state/state.go:145-163 | after n unmappings exactly the first n new regions are gone, and every byte is as before or covered by a dirty bit |
| FullRestore.AfterUnmap | state/state.go:145-163 | after the second phase the layout is the checkpoint's |
| FullRestore.AfterWindow | state/state.go:124-143 | the code that runs during the fixup changes no layout, and its writes are tracked |
| FullRestore.AfterPages | state/memory.go:208-316 | writing dirty pages back leaves no byte different |
| FullRestore.RestoreUndoesEverything | controller/controller.go:325-387 | a restore puts back layout, every byte and every register, keeps what the next restore relies on, and leaves this break |
| FullRestore.RestoreBringsBytesBackIff | controller/controller.go:325-387 | whatever the dirty bits: a restore puts layout and registers back, and all bytes exactly when each byte that differed before it is on a page that is dirty in the end, in a writable region |
| FullRestore.RestoreDirties | controller/controller.go:337-381 | a restore dirties the heap that has to grow again, and nothing but that, the code in which calls are planted and what user code writes in between |
| FullRestore.BytesBackBounds | controller/controller.go:325-387 | so before the call: all bytes come back if those that differ are on dirty pages or in the heap that has to grow again, and only if they are on those pages or on the others that a restore can dirty |
| FullRestore.RestoreInPlaceBringsBytesBackIff | controller/controller.go:325-387 | when the layout did not move, exactly when each differing byte was on a dirty page of a writable region before it |
| FullRestore.BreakBackIff | state/state.go:107-122 | the program break is back exactly when it was page aligned if the heap had moved, or untouched if it had not |
| FullRestore.BreakMayBeLost | state/state.go:107-122 | a process with an unaligned break that grows its heap by a page is restored without error and does not get its break back |
| FullRestore.BytesBackIff | state/memory.go:208-236 | the phase that writes dirty pages back brings all bytes back exactly when each byte that differs is on a dirty page of a writable region |
| FullRestore.SecondCheckpointForgets | controller/controller.go:331-376 | right after a second checkpoint, a restore, which goes back to the first one, brings all bytes back exactly when those that differ are on pages that the restore itself dirties, which is where RestoreDirties says; with the layout in place, only if nothing had changed |
| FullRestore.SecondCheckpointLosesBytes | controller/controller.go:331-376 | a process that writes a byte and is checkpointed again is restored without error and does not get that byte back |
| FullRestore.RepairedLayoutIsUnchanged | state/memory.go:147-195 | after break reset and unmapping the position-by-position comparison finds no change |
| FullRestore.SwapGoesUnnoticed | state/memory.go:197-206 | replacing one region by another keeps the count, so the restore sees nothing to unmap although there is |
| FailedRestores.FailedCallTracksIff | controller/ptrace/ptrace.go:214-283 | a call that fails keeps what a later restore relies on, unless it takes away the first of the two bytes of its code and leaves the second where the checkpoint has other code that is not writable |
| FailedRestores.FailedRestoreFollows | controller/controller.go:337-387 | a restore that fails, at its break or at any of its unmappings, leaves every byte as before or covered by a dirty bit, but for a torn one, which it leaves with the planted value |
| FailedRestores.FailedRestoreTracksIff | controller/controller.go:337-387 | it keeps what a later restore relies on exactly when it tore no code for good |
| FailedRestores.NoRestoreHangs | state/state.go:83-105 | a restore of a process that has the threads of the checkpoint is never left waiting at its registers |
| Runs.RunTracksBut | controller/controller.go:200-387 | in every state of every run, the bytes that differ where no restore would write them back are exactly those of code torn before |
| Runs.RunKeepsTracking | controller/controller.go:200-387 | in any run of one checkpoint, user code, restores and failed restores, differences stay tracked exactly as long as no code is torn for good |
| Runs.EveryRestoreOfEveryRun | controller/controller.go:323-387 | every restore of every such run that returns without error ends with the layout and the registers of the checkpoint and with all its bytes but those of code torn before, so with all its bytes exactly when there was none |
| Runs.TornCodeIsLost | controller/ptrace/ptrace.go:229-283 | code that is torn for good differs in every later state, whatever user code and restores do |
| Runs.CodeMayBeLost | controller/ptrace/ptrace.go:229-275 | a process that maps a page in front of its code and is stopped on the last byte of that page: the restore that unmaps the page fails, the next one succeeds, and a byte of the code is not what it was |
| Pool.Scheduler.constructor | invoker/workerpool/scheduler.go:32-49 | all workers undeployed, without a function |
| Pool.Scheduler.RunDeployedFunction | invoker/workerpool/scheduler.go:108-119 | takes the first deployed worker whose function is the one asked for, or changes nothing |
| Pool.Scheduler.RunUndeployed | invoker/workerpool/scheduler.go:121-126 | moves the first undeployed worker to the end of the running list |
| Pool.Scheduler.RunComplete | invoker/workerpool/scheduler.go:128-140 | removes the first occurrence of the name, or index 0 when there is none, and appends the name to the deployed list |
| Pool.Scheduler.TimerSection | invoker/workerpool/scheduler.go:147-176 | takes the worker out of the deployed list, or ends because it is undeployed, or tries again |
| Pool.Scheduler.TakeVictim | invoker/workerpool/scheduler.go:194-205 | takes the first deployed worker, or none when there is none |
| Pool.Scheduler.Return | invoker/workerpool/scheduler.go:213-215 | appends the worker to the undeployed list |
| Pool.Scheduler.Acquire | invoker/workerpool/scheduler.go:59-106 | left alone, Run comes by the worker that the plan names, with that many evictions |
| Pool.RunEndsIffReachable | invoker/workerpool/scheduler.go:59-106 | it ends exactly when a worker is undeployed, or a deployed one holds the function or can be restored |
| Pool.RunEvictsInOrder | invoker/workerpool/scheduler.go:194-216 | it needs at most one eviction for each deployed worker, in list order, and stops at the first worker that can be restored |
| FunctionServer.ServesAsExpected | images/python/refunction.py:5-28 | for every sequence of lines: one refusal for each line that fails before the first that loads or exits, then one yes, then the answers to the requests in order up to the first line that breaks the process; and what is left unread |
| FunctionServer.ServerRecovers | images/python/refunction.py:10-33 | after n functions that raise and one that loads the server is alive with the last one, having answered no n times and yes once, and it answers request after request |
| FunctionServer.Server.StartFunctionServer | images/python/refunction.py:5-28 | ends in the state that the lines alone determine (ServesAsExpected); the two loops do line by line what the one-step runtime does: function messages until one loads, then requests; other lines are skipped, a line without fields counts as a failed load or ends the process, and so does code that raises; code that exits ends it at any time |
| WorkerSteps.ServeKeepsStage | images/python/refunction.py:10-50 | a turn of the runtime's loop keeps what the caller that waits for it relies on |
| WorkerSteps.BusyKeeps | controller/controller.go:233-279 | so does every step of SendFunction, SendRequest and AwaitMessage, of SetFunction and RunComplete |
| WorkerSteps.StartKeeps | invoker/workerpool/scheduler.go:66-78 | taking a deployed worker keeps the invariant |
| WorkerSteps.MissedKeeps | invoker/workerpool/scheduler.go:79-103 | so does taking an undeployed one, or going on to an eviction |
| WorkerSteps.TimerKeeps | invoker/workerpool/scheduler.go:142-192 | so does a timer, whenever it finds its worker idle |
| WorkerSteps.RestoringKeeps | invoker/workerpool/scheduler.go:207-211 | so does a restore outside the lock, whether it succeeds or not |
| WorkerSteps.RunInv | invoker/workerpool/scheduler.go:59-216 | the invariant holds after every interleaving |
| WorkerTheorems.DroppedIffRestoreFailed | invoker/workerpool/scheduler.go:178-182 | a worker is dropped exactly when a restore of it failed |
| WorkerTheorems.EveryWorkerIsInOnePlace | invoker/workerpool/scheduler.go:59-216 | in every run each worker is undeployed, deployed, running, being restored, or lost to a failed restore: exactly one of them, and no list has duplicates |
| WorkerTheorems.TimerDecides | invoker/workerpool/scheduler.go:142-176 | a timer restores a deployed worker, ends for an undeployed one, and tries again exactly when its worker is running, being restored, or dropped, where the comment in the code only expects it to be running |
| WorkerTheorems.OneGoroutineForEachWorker | invoker/workerpool/scheduler.go:59-216 | no worker is held by two goroutines, the running list is what callers hold, and no list has a stranger |
| WorkerTheorems.RunCompleteFindsItsName | invoker/workerpool/scheduler.go:128-140 | RunComplete always finds its name, so its initial index is never used |
| WorkerTheorems.NoRestoreWhileRequestOutstanding | invoker/workerpool/scheduler.go:178-215 | while a worker is restored nobody uses it, it is in no list, and no message is under way |
| WorkerTheorems.Isolation | invoker/workerpool/scheduler.go:84-98 | an undeployed worker's runtime is the checkpointed one; a deployed one is idle with code that came under the recorded id |
| WorkerTheorems.AnswersMatchRequests | invoker/workerpool/scheduler.go:66-101 | what a call of Run returns was computed on its own data, by code that came under its document's id |
| WorkerTheorems.StaleCode | invoker/types/types.go:115-117 | a document whose code was changed under its id is answered by the old code |
| WorkerTheorems.OwnAnswersIffIdsDetermineCode | invoker/workerpool/scheduler.go:108-119 | all callers always get the work of the code they passed exactly when ids determine code |
| WorkerQueues.LeastRecentlyUsedFirst | invoker/workerpool/scheduler.go:128-140 | the deployed list is in order of last completions in every run |
| WorkerQueues.ForcingEvictsTheLeastRecentlyUsed | invoker/workerpool/scheduler.go:194-205 | in every run, a forced eviction takes the deployed worker whose last run completed longest ago, and no other, and then Run starts over; it waits while none is deployed |
| WorkerQueues.StartTakesAHolder | invoker/workerpool/scheduler.go:108-119 | in every run, a call takes, of the deployed workers that hold its function, the one whose last run completed longest ago, and misses exactly when there is none |
| WorkerQueues.MissedTakesTheLongestUndeployed | invoker/workerpool/scheduler.go:121-126 | in every run, a call that misses takes the worker that was given back longest ago, or turns to an eviction exactly when none is undeployed |
| WorkerRuntimes.AliveIffNeverKilled | images/python/refunction.py:10-50 | in every run, the process of a worker is alive exactly as long as no code exited while it was loaded, and no request failed and no line without an object came once code was loaded |
| WorkerRuntimes.LoadIsAnswered | controller/controller.go:233-254 | a caller that waits for its function is answered by one turn of the runtime, also when the code raises, and goes on |
| WorkerTimers.DeployedWorkersAreWatched | invoker/workerpool/scheduler.go:86-192 | in every run, every deployed worker has a timer, or a call that is about to start one |
| RendezvousSteps.TracerKeeps | controller/ptrace/ptrace.go:85-203 | every step a tracer takes by itself keeps the invariant |
| RendezvousSteps.TakeStepKeeps | controller/ptrace/ptrace.go:341-359 | so does every step of the controlling goroutine that takes or puts back a status |
| RendezvousSteps.MeetStepKeeps | controller/controller.go:389-449 | so does every step in which it meets a tracer |
| RendezvousSteps.ProgramOk | controller/controller.go:301-449 | each operation starts with commands that the invariant allows |
| RendezvousSteps.RunInv | controller/ptrace/ptrace.go:67-212 | the invariant holds after every run |
| RendezvousTheorems.OneStatusForEachTask | controller/ptrace/ptrace.go:341-359 | at most one status of a thread exists, on its channel or in the controlling goroutine's hand |
| RendezvousTheorems.StatusOnlyInReportedStop | controller/ptrace/ptrace.go:100-151 | while attached, a status exists only while the tracer is in the stop that it reported with it |
| RendezvousTheorems.PostsNeverBlock | controller/ptrace/ptrace.go:102-137 | neither a tracer's post nor a put-back finds the channel full |
| RendezvousTheorems.OrdersOnlyInAStop | controller/ptrace/ptrace.go:174-203 | register, system call, continue and detach orders are taken up only by a tracer whose thread is stopped |
| RendezvousTheorems.StopStopsEveryTaskIffAttached | controller/controller.go:410-418 | when Stop returns, every thread is stopped with its status on the channel, exactly when the controller is attached |
| RendezvousTheorems.PauseAtSignalPausesThere | controller/controller.go:309-321 | when PauseAtSignal returns, the leader is stopped with a report of that signal on its channel |
| RendezvousTheorems.DetachLetsEveryTaskGo | controller/controller.go:393-408 | when Detach returns, every tracer has let its thread go |
| RendezvousHistories.ContinuePassesTheSignal | controller/controller.go:424-433 | the threads go on one after the other with the signal that was given, and the call returns exactly when all of them have |
| RendezvousHistories.AwaitSignalAwaitsIt | controller/controller.go:301-307 | in rounds: a status of the leader is taken and every thread goes on with its signal; only the last round can be that of the awaited signal, and the call returns exactly when that round is over, or at once for a signal number that no stop has |
| RendezvousHistories.PauseAtSignalHoldsIt | controller/controller.go:311-321 | in the same rounds, but no thread goes on after the awaited status was taken, and the call returns exactly when that status is back on the channel |
| RendezvousHistories.SendSignalContPassesTheSignal | controller/controller.go:435-449 | one status is taken, whatever it is, every thread goes on with the signal that was sent, and the call returns exactly when all of them have |
| RendezvousOrders.InStopReachesEveryThread | state/state.go:30-50 | the order reaches every thread once, no thread runs for it, and afterwards every tracer waits for orders |
| RendezvousOrders.SyscallRunsItsThread | controller/ptrace/ptrace.go:185-191 | an injected call lets its thread run once and no other, and afterwards that thread is stopped and its tracer waits for orders |
| RendezvousOrders.DetachFreesEveryThread | controller/controller.go:393-408 | when Detach returns, the kernel has let every thread go on, without a signal |
| RendezvousOrders.NoStraySignals | controller/ptrace/ptrace.go:174-184 | in every run, a thread goes on with a signal only when its tracer was told that signal by the goroutine, which waits for it |
| RendezvousTheorems.StopAfterDetachIsHollow | controller/ptrace/ptrace.go:341-347 | a Stop after Detach finds the old status and returns while the thread runs |
| Utf.QuadIsRead | worker/images/embedded-python/cJSON.c:540-573 | four digits are read as w exactly when they are the hexadecimal form of w, each digit looked up by quotient and remainder in the tables of section 7 of RFC 8259 |
| Utf.ParseHex4 | worker/images/embedded-python/cJSON.c:540-573 | the number whose hexadecimal form the four digits are, 0 if they are no such form |
| Utf.LiteralMeetsTheStandard | worker/images/embedded-python/cJSON.c:587-638 | a unit, by its hexadecimal form, stands for itself and takes 6 bytes, a pair for the character of section 2.2 of RFC 2781 and takes 12, an unpaired surrogate is rejected |
| Utf.Utf8MeetsTheStandard | worker/images/embedded-python/cJSON.c:640-687 | the bytes are the UTF-8 form of section 3 of RFC 3629, and the only one, for every number but the surrogates, which have none and which the decoder never produces |
| Utf.EncodeUtf8 | worker/images/embedded-python/cJSON.c:640-689 | the loop from the last byte to the first writes that form and touches nothing else |
| Utf.Utf16LiteralToUtf8 | worker/images/embedded-python/cJSON.c:577-695 | the two together: what is written and how far the input advances, or nothing |
| Utf.MasksAndShifts | worker/images/embedded-python/cJSON.c:631-687 | the masks and shifts of the original are the divisions and remainders of the model |
| Strings.RoomForStep | worker/images/embedded-python/cJSON.c:744-799 | no step of the second scan writes more than the first scan has allowed for the bytes it consumes |
| Strings.TwoScansAgree | worker/images/embedded-python/cJSON.c:711-802 | what the second scan writes until it ends or gives up, and its terminator, fit in the estimate of the first scan, for every literal that is closed; and that is the value when it does not give up |
| Numbers.IntTextIsShort | worker/images/embedded-python/cJSON.c:480-511 | a printed integer of up to fifteen digits fits its temporary buffer |
| Json.ValueAt | worker/images/embedded-python/cJSON.c:1212-1264 | a value that is found ends behind its start and before the terminator; the remaining input shrinks with every nested call |
| Literals.StringIsRead | worker/images/embedded-python/cJSON.c:698-824 | every string of RFC 8259, with plain bytes, short escape sequences, units and surrogate pairs, is read as the bytes it stands for up to a NUL |
| Literals.FigureIsConverted | worker/images/embedded-python/cJSON.c:266-340 | a number with fraction and exponent is converted as a whole, to sign times (whole + fraction / ten to its length) times ten to the exponent |
| Literals.NumberIsRead | worker/images/embedded-python/cJSON.c:266-340 | in any text it is read as that number if it has at most 63 bytes, and no longer one is read as a whole |
| Reading.TreeIsRead | worker/images/embedded-python/cJSON.c:1212-1603 | every value of the grammar, with white space wherever it may stand, is found as what it means at any depth that leaves room for it; otherwise nothing is, or the beginning of a long number |
| Reading.ParseReadsTheGrammar | worker/images/embedded-python/cJSON.c:1000-1077 | every text of the grammar, with or without a byte order mark, is parsed as what it means and consumed whole exactly when it is nested at most 1000 deep and has no number of more than 63 bytes |
| Printing.PrintWritesAString | worker/images/embedded-python/cJSON.c:827-946 | a printed string is a string of the grammar that stands for it, with a short escape sequence for the seven bytes that have one, a unit for the other control bytes, and no other escapes |
| Printing.PrintWritesTheGrammar | worker/images/embedded-python/cJSON.c:1267-1717 | the printed text of a value is a text of the grammar that means the value; unformatted it has no white space, and formatted every member of an object stands on its own line behind as many tabs as it is deep, with a tab behind its colon |
| RoundTrip.UnformattedIsOneLine | worker/images/embedded-python/cJSON.c:1267-1717 | no byte of an unformatted text is below the space |
| RoundTrip.StringRoundTrip | worker/images/embedded-python/cJSON.c:698-946 | a printed string is read back as it was, up to its closing quote |
| RoundTrip.NumberRoundTrip | worker/images/embedded-python/cJSON.c:266-340 | a printed integer is read back, whatever follows it that is no part of a number |
| RoundTrip.ValueRoundTrip | worker/images/embedded-python/cJSON.c:1212-1717 | a printed value inside any text is found again at any depth that leaves room for its nesting, and rejected otherwise |
| RoundTrip.ParseUndoesPrint | worker/images/embedded-python/cJSON.c:1000-1717 | parsing printed text, formatted or not, gives back the value with nothing left over exactly when it is nested no deeper than 1000 |
| RoundTrip.AcceptedIsShallow | worker/images/embedded-python/cJSON.c:1346-1350 | whatever the text, an accepted value is nested within the limit |
| Parser.ParseBuffer.BufferSkipWhitespace | worker/images/embedded-python/cJSON.c:963-981 | moves to the first byte above 32, or to the terminator |
| Parser.ParseBuffer.SkipUtf8Bom | worker/images/embedded-python/cJSON.c:984-997 | skips a byte order mark of a text that is longer than one |
| Parser.ParseBuffer.ParseNumber | worker/images/embedded-python/cJSON.c:266-340 | the decimal number that strtod finds in the next 63 bytes, and the offset behind it |
| Parser.ParseBuffer.FirstScan | worker/images/embedded-python/cJSON.c:711-735 | finds the closing quote and counts the bytes that escaping adds, or finds that there is none |
| Parser.ParseBuffer.ParseString | worker/images/embedded-python/cJSON.c:698-824 | the string of the literal, written within what was allocated for it, and the offset behind it |
| Parser.ParseBuffer.Unescaped | worker/images/embedded-python/cJSON.c:744-799 | the second scan decodes the literal, or fails where it cannot be decoded, and either way writes what its steps put out, inside the allotted output |
| Parser.ParseBuffer.ParseValue | worker/images/embedded-python/cJSON.c:1212-1264 | finds the value, the offset behind it and the old depth, or fails when there is none or memory runs out |
| Parser.ParseBuffer.ParseArray | worker/images/embedded-python/cJSON.c:1341-1432 | the same for arrays, and never deeper than the limit |
| Parser.ParseBuffer.ParseObject | worker/images/embedded-python/cJSON.c:1497-1603 | the same for objects |
| Parser.ParseWithOpts | worker/images/embedded-python/cJSON.c:1000-1077 | the value of the whole text or of its beginning; the end that is reported is always inside the text |
| Printer.PrintBuffer.Ensure | worker/images/embedded-python/cJSON.c:373-458 | makes room and keeps the text, or fails because the size passes the limit or memory runs out |
| Printer.PrintBuffer.UpdateOffset | worker/images/embedded-python/cJSON.c:461-471 | the offset catches up with the end of the text |
| Printer.PrintBuffer.PrintNumber | worker/images/embedded-python/cJSON.c:474-537 | the digits and a terminator, and the offset behind the digits |
| Printer.PrintBuffer.CountEscapes | worker/images/embedded-python/cJSON.c:854-878 | the first pass counts exactly the bytes that escaping adds |
| Printer.PrintBuffer.PrintStringPtr | worker/images/embedded-python/cJSON.c:827-946 | the escaped string between quotes, terminated, or a failure because it cannot fit |
| Printer.PrintBuffer.PrintValue | worker/images/embedded-python/cJSON.c:1267-1338 | the text of the value behind what was there, terminated; a failure exactly when text plus two bytes pass the limit, or memory runs out |
| Printer.PrintBuffer.PrintArray | worker/images/embedded-python/cJSON.c:1435-1494 | the same for arrays |
| Printer.PrintBuffer.PrintObject | worker/images/embedded-python/cJSON.c:1606-1717 | the same for objects |
| Printer.Print | worker/images/embedded-python/cJSON.c:1087-1160 | a block of exactly the text and its terminator, or nothing because the text is too long or memory ran out |
| Printer.PrintBuffered | worker/images/embedded-python/cJSON.c:1162-1190 | the same text for every starting capacity |
| Printer.PrintPreallocated | worker/images/embedded-python/cJSON.c:1192-1209 | succeeds exactly when the length is at least that of the text plus two, and never writes past the length |
| Minify.CopyString | worker/images/embedded-python/cJSON.c:2678-2691 | a string literal is copied as it is |
| Minify.MinifyInPlace | worker/images/embedded-python/cJSON.c:2633-2701 | overwrites the text with its minified form, never writing ahead of what it has read |
| Minify.MinifySqueezes | worker/images/embedded-python/cJSON.c:2633-2701 | minifying any text of the grammar with white space and comments takes these out and leaves everything else byte for byte |
| Minify.ParseReadsTheMinified | worker/images/embedded-python/cJSON.c:2633-2701 | a text with comments is read, once minified, as what it means, under the limits of the parser |
| Minify.MinifyUndoesFormatting | worker/images/embedded-python/cJSON.c:2633-2701 | minifying formatted text gives byte for byte the text printed without formatting |

## Left out

- containerd, CRI, gRPC, Kafka and CouchDB plumbing, the container images and scripts: they only move data between libraries that are not part of this model.
- Real ptrace, `/proc` and signal delivery: the kernel is the small model of `Kernel.dfy`; its instructions are the `syscall` instruction and whatever user code may do to memory and registers.
- Threads that start or end, mremap, stack growth, changed permissions and file descriptors: a restore does not put them back. A thread killed while it is stopped is left out of the rendezvous for the same reason.
- Runs with several checkpoints: `Restore` goes back to the first one while every checkpoint clears the dirty bits; `RestoreBringsBytesBackIff` and `SecondCheckpointForgets` say when that still works.
- Whether a system call number printed under strace belongs to an entry or an exit after the fixup step.
- Errors of opening, seeking and reading files under `/proc`: the model's files can be read; only unmapped memory fails.
- Checkpoint.Controller.Restore: the calls of Stop and Continue around its phases are operations of the rendezvous model and are not repeated on the process model; the user code of the fixup window is an argument.
- Checkpoint.State.constructor: open file descriptors, resource limits and the errors of opening the files under `/proc` are not part of a state here.
- Checkpoint.State.SaveWritablePages: a mapped page can always be read, so the error return is never taken.
- Checkpoint.State.FixupSyscallState: the errors of the two ptrace calls are left out, and what the thread does in the window is an argument.
- Checkpoint.Controller.TakeCheckpoint: the calls of Stop and Continue, and the errors of the files, are left out as in Restore.
- Tracing.Tracee.NewMemoryLocations: starts from the lines of the maps file as records; their text, and the errors of parsing it, are left out.
- Checkpoint.State.RestoreRegs: an error of writing registers is sent to a channel that nobody reads before all threads are done, so it is never returned; the out-parameter `stuck` stands for a call that does not return, whichever of the two ways it gets stuck.
- FunctionServer.Server.StartFunctionServer: the end of the input, which the original answers with failed loads for ever or ends at, is left out, and so are the first message `started` and the log messages.
- Checkpoint.State.RestoreDirtyPages: runs the goroutines one after the other; that their order does not matter is AnyInterleaving.
- The idle time of a worker: a timer's clock test may come out either way, which covers every timing; that a timer eventually fires is not stated. A timer whose worker is running or was dropped tries again for ever, as in the original.
- Liveness under concurrency: fairness of goroutines and channels is not modelled. Run on its own is (RunEndsIffReachable).
- Writes to a worker's stdin that fail, and user code that prints protocol messages: both break the protocol, and the worker model assumes neither. Log messages, which the controller drops, are not modelled.
- The channel of capacity one between the reader of a worker's stdout and the controller is part of the pipe.
- The tracer and the operations of the controlling goroutine are values stepped by functions, not classes: their interleaving is what is proved, and system calls made in a stop are the class methods of Injection and Checkpoint.
- A Tgkill that fails, and the errors that a broken tracer reports: a tracer whose ptrace call fails is gone, and the operation that waits for it never returns.
- Several controlling goroutines: the statuses on SignalStop are only safe with one.
- Floating point: numbers are exact reals when parsed, and integers of up to fifteen digits when printed. Rounding, overflow to infinity, negative zero, the saturated integer field and locales are left out.
- Parser.ParseBuffer.ParseNumber: the value is an exact real where the original has a double, and the saturated integer beside it is left out.
- Printer.PrintBuffer.PrintNumber: asks for an integer of up to fifteen digits; fractions, exponents and the second try with seventeen digits are left out with floating point.
- Parser.ParseBuffer.ParseArray: items are collected in a sequence; the linking of list nodes, and freeing them on failure, are not modelled.
- Parser.ParseWithOpts: where parsing failed is only known to be inside the text.
- Reading.ParseReadsTheGrammar: is about texts of the grammar, with any bytes up to 32 for white space, control bytes in strings and leading zeros besides; which other texts the parser lets pass is said by ValueAt only.
- Minify.MinifySqueezes: a line comment ends with its newline, and a block comment does not begin with a slash, because the original takes slash, star, slash for a whole comment.
- Minify.CopyString: asks for a literal that is closed, for the reason given with MinifyInPlace.
- Minify.MinifyInPlace: asks for closed strings and comments, because the original reads past the end of others.
- Printer.PrintBuffer.Reallocate: memory may run out at any call; custom allocators, which copy less, are left out.
- NULL arguments, raw and reference items, and the one-line helpers that create, add, compare or test items would only add easy members.
