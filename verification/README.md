# Verification of the system programming homeworks

A Dafny model of the five stateful cores of the repository, with proofs of what they keep and compute.

- **UserFS** (`Ufs*.dfy`, `UserFs*.dfy`): an in-memory file system. Three layers: a specification of names, byte sequences and
  descriptors (`UfsSpec`); the calls on values, block by block (`UfsModel`), with an invariant of every run (`UfsInvariant`), the
  bytes a block list stands for (`UfsBlocks`), refinement (`UfsRefinement`), round trips (`UfsRoundTrip`), what
  is read outside its domain (`UfsStray`), what any call does to any file there can be (`UfsAnywhere`) and runs that show where the code
  does less than it says (`UfsWitness`); and the linked structures on the heap (`UserFsFile`, `UserFs`, `UserFsRun`), each call proved to be the model's. `holder` records every
  allocated object with the one place it is reached from, and `Free` requires that the object is still recorded, so that leaks,
  double frees and sharing between files show up.
- **Thread pool** (`ThreadPool*.dfy`): one client and up to 20 workers as a state machine with a program counter at each lock, wait
  and unlock; any interleaving, spurious wakeups, signals that wake one or more. The invariant (`ThreadPoolInvariant`), what the
  steps do (`ThreadPoolSteps`), safety (`ThreadPoolSafety`), deadlock freedom (`ThreadPoolProgress`), liveness in endless runs under
  strong fairness (`ThreadPoolFairness`, `ThreadPoolLiveness`), late timeouts (`ThreadPoolTimeouts`), every answer of every call in
  terms of the calls and answers before it (`ThreadPoolCalls`, `ThreadPoolAnswers`) and a run that shows why pushes must stop
  (`ThreadPoolStarvation`).
- **Heap tracker** (`HeapTracker*.dfy`): any number of threads in `malloc`, `calloc`, `realloc` and `free`; the sections under the
  spinlock are proved on linked objects, one by one (`HeapTrackerLists`) and over whole runs (`HeapTrackerRun`).
- **Merge sort in coroutines** (`HeapSort`, `CoroutineSort`, `CoroutineTime`, `SortingOrder`, `Merge`, `SortAndMerge`): the in-place heap sort,
  the same sort cut at its yield points under every schedule and clock, the scheduler's own among them, its timers, the k-way merge, and
  all together.
- **Cooperative scheduler** (`CoroScheduler`): the linked run list and the control transfers of `coro_yield`, `coro_body` and
  `coro_sched_wait`.

`dafny verify dfyconfig.toml` checks everything.

## Assumptions and modelling choices

- UserFS: `malloc` succeeds and returns arbitrary bytes, a parameter by offset; flags are a set of bits; inode
  numbers exist only in the model; sizes are mathematical integers. `ufs_close` empties the slot before it releases the file, which
  touches different objects.
- Thread pool: strong fairness, where it is assumed, means that a worker, or the client, that can make a step again and again makes
  one again and again. Calls come from one client, which joins a task from one place, does not push a task that is in a pool, and does not
  name a detached or freed one. What a task function returns is arbitrary. A timeout may come at any time while the client waits. The
  detached branch frees the task before the worker unlocks its mutex (homework-04/thread_pool.c:95-102); the model frees it as the
  worker's last action on it.
- Heap tracker: each spinlock section and each call of the default allocator is one step; `default_realloc` returns NULL only when it
  has released the old memory; the program frees what it owns, once. An object of a batch comes into being when it is first handed out.
- Coroutines: a switch is one step. In `CoroutineSort` the next coroutine is arbitrary, which includes the order of `CoroScheduler`;
  in `CoroScheduler` a coroutine is the number of its yields.

## Where the code differs from what its documentation suggests

- `ufs_write` appends a block whenever the current one is full (homework-03/userfs.c:285), even before the end of the file. It is
  right if and only if the write starts at the end or inside the partly filled last block (`UfsBlocks.WriteShapeExact`,
  `UfsRefinement.DomainIsExact`); `UfsWitness.OverwriteGoesPastEnd` is a run where it is not.
- `ufs_read` walks the blocks to their end and not to the size (homework-03/userfs.c:366-383). Inside the domain the two agree; after a
  write outside it a read may deliver more than `size - offset` bytes, exactly when `UfsStray.OverrunExact` says. A shrink
  leaves such blocks in place (`UfsAnywhere.ShrinkLeavesBlock`).
- Its size limit tests `size + n`, not `offset + n` (homework-03/userfs.c:270). `UfsWitness.RefusedThoughItFits` says exactly when
  that refuses a write that fits, and `UfsWitness.OverwriteRefused` is such a run.
- Growing a file zeroes only added blocks (homework-03/userfs.c:515). It reads as zeros for all files of a size if and only if the
  size is a multiple of the block size (`UfsWitness.GrowthReadsZeros`); `UfsWitness.GrowthShowsOldByte` is a run where it does not.
- A timed join that runs out answers TPOOL_ERR_TIMEOUT even when the result has just arrived (homework-04/thread_pool.c:284). This can
  happen if and only if the task was not finished at the call (`ThreadPoolTimeouts.LateAnswerIff`, and a run in
  `ThreadPoolTimeouts.LateAnswerFromStart`).
- The heap tracker records the size at allocation; a `realloc` that stays in place, or one whose old address another thread has
  recorded meanwhile, leaves an old one (`HeapTracker.EntrySize`, and runs in `InPlaceKeepsSize` and `CrossingKeepsSize`).
- The merge starts from INT_MAX with a strict comparison (homework-01/solution.c:328-333) and drops elements equal to it.

## Model

| member | source | states |
|---|---|---|
| UfsInvariant.InvOfEveryRun | homework-03/userfs.c:144-538 | after any calls at all, stray writes included: the list and the inodes agree, visible names are unique, `refs` is the number of open descriptors, a ghost has one, `file_descriptor_used` counts the occupied slots, and no loop can walk off a block list |
| UfsInvariant.FullTable | homework-03/userfs.c:203-217 | all slots are counted as used just when all are taken, so a free slot exists whenever the first branch is entered |
| UfsInvariant.FirstFreeLeast | homework-03/userfs.c:205-211 | the slot search finds the first free slot, or there is none |
| UfsInvariant.OpenAtSlot | homework-03/userfs.c:201-240 | open never fails for want of a slot: it takes the first free one, doubling a full table without touching the old slots |
| UfsInvariant.NobodyHolds | homework-03/userfs.c:432-434 | a file with no references is held by no descriptor, so `ufs_delete` may free it |
| UfsInvariant.NobodyElseHolds | homework-03/userfs.c:403-407 | a close brings the count to zero just when no other descriptor holds the file |
| UfsInvariant.DeleteKeepsInv | homework-03/userfs.c:417-440 | the invariant of every run holds after a delete, of a name that is open or not or not there |
| UfsInvariant.CloseIs | homework-03/userfs.c:396-412 | a close empties its slot, lowers the count and changes no other file; its own file goes, from the list too, just when it is a ghost that no other slot holds |
| UfsInvariant.CloseKeepsInv | homework-03/userfs.c:388-415 | the invariant of every run holds after a close, of an open descriptor or not |
| UfsBlocks.WriteLoopSplices | homework-03/userfs.c:281-319 | from a good start the loop, across any number of blocks and whatever malloc returned, puts the buffer over the old bytes and keeps the block shape |
| UfsBlocks.WriteLoopAppends | homework-03/userfs.c:285-304 | once the current block is full the loop only appends blocks, full but for the last, that hold what malloc left before the start within the block, and then the buffer |
| UfsBlocks.GoodWrite | homework-03/userfs.c:270-326 | a write that starts at the end or inside the partly filled last block gives `old[..offset] + buf + old[offset+n..]` and a shaped file |
| UfsBlocks.StrayWrite | homework-03/userfs.c:285-318 | any other permitted write leaves the file's own blocks as they were, appends stray ones, and the occupied total exceeds `size` |
| UfsBlocks.WriteShapeExact | homework-03/userfs.c:270-326 | a permitted non-empty write keeps the shape if and only if it starts at the end or inside the partly filled last block |
| UfsBlocks.ReadFileSlices | homework-03/userfs.c:351-385 | a read delivers `content[offset..min(offset+n, size)]` |
| UfsBlocks.ReadLoopSlices | homework-03/userfs.c:365-383 | the read loop delivers that slice from any block it starts in, over any number of blocks |
| UfsBlocks.ShrinkIsPrefix | homework-03/userfs.c:460-491 | shrinking leaves the prefix in exactly ceil(new_size/512) blocks |
| UfsBlocks.GrowExtends | homework-03/userfs.c:507-530 | growing keeps the old bytes; what it exposes of the old last block is what that block holds, and all added blocks are zero |
| UfsBlocks.StaleBytesReturn | homework-03/userfs.c:488-530 | bytes cut off by a shrink are back after a growth within the last block, though the caller asked for a file that ends before them |
| UfsWitness.GrowthReadsZeros | homework-03/userfs.c:507-530 | for all sizes up to the limit: a growth reads as zeros for every file of the old size if and only if the old size is a multiple of 512 |
| UfsWitness.GrowthShowsOldByte | homework-03/userfs.c:442-538 | a run from the start, inside the domain: write two bytes, cut the second, grow, and the read delivers it |
| UfsStray.ReadAfterStrayWrite | homework-03/userfs.c:351-385 | after a write that started in a full block every read from within the old file delivers the old bytes and then, past the size too, the appended ones but for as many as the old last block holds |
| UfsStray.OverrunExact | homework-03/userfs.c:351-385 | after such a write a read may deliver more than the size leaves if and only if offset % 512 + n > old size % 512; otherwise every read is as it was before the write |
| UfsWitness.OverwriteGoesPastEnd | homework-03/userfs.c:285-318 | a run from the start: fill a block, close, open again, write one byte; the call answers 1, the file leaves the shape with its size still 512, and a read of 513 bytes delivers the old 512 and the new one |
| UfsAnywhere.ShrinkAnywhere | homework-03/userfs.c:460-491 | for every file a run can reach: a shrink leaves `blocks - (ceil(size/512) - ceil(new_size/512))` blocks, all but the last untouched, the last with its memory and the occupied count that the new size gives |
| UfsAnywhere.GrowAnywhere | homework-03/userfs.c:507-530 | for every such file: a growth adds that many zeroed blocks, marks full what it leaves behind, keeps all memory, and ends in the occupied count that the new size gives |
| UfsAnywhere.WriteAnywhere | homework-03/userfs.c:276-324 | for every such file: a write from inside a block that is not full changes that block by the bytes that fit and appends the rest; any other write changes no block and appends what malloc left before its place, and the buffer |
| UfsAnywhere.ReadAnywhere | homework-03/userfs.c:351-385 | for every such file: a read delivers the first n of the bytes there are from its place on: what is occupied of each block from where in a block the one before ended |
| UfsAnywhere.ShrinkLeavesBlock | homework-03/userfs.c:442-504 | a run from the start: a file of size 512 with a stray second block is cut to 100 bytes, keeps both blocks, and a read of 600 bytes delivers 600 |
| UfsWitness.RefusedThoughItFits | homework-03/userfs.c:270-274 | NO_MEM comes just when size + n exceeds the limit; it refuses a write that would fit if and only if size <= limit < size + n and offset + n <= limit |
| UfsWitness.OverwriteRefused | homework-03/userfs.c:270-274 | a run from the start, inside the domain: in a file one byte below the limit two bytes inside the last block are refused |
| UfsRefinement.OpenRefines | homework-03/userfs.c:144-241 | open answers the least unused positive descriptor at offset 0 on the named or a fresh empty file, or fails changing only the error code |
| UfsRefinement.WriteRefines | homework-03/userfs.c:243-327 | in the domain write is a splice at the offset with the code's own permission and size tests |
| UfsRefinement.ReadRefines | homework-03/userfs.c:329-386 | read is an exact slice and moves this descriptor by its length |
| UfsRefinement.CloseRefines | homework-03/userfs.c:388-415 | close removes the descriptor; contents go just when neither a name nor a descriptor leads to them |
| UfsRefinement.DeleteRefines | homework-03/userfs.c:417-440 | delete removes the name; contents stay for those who have them open |
| UfsRefinement.ResizeRefines | homework-03/userfs.c:442-538 | resize truncates and moves back just the descriptors of this file beyond the end, or extends leaving the offsets |
| UfsRefinement.NothingToCollect | homework-03/userfs.c:403-408 | no file outlives both its name and its descriptors |
| UfsRefinement.DomainIsExact | homework-03/userfs.c:243-538 | from a shaped state a call leaves the shaped states if and only if it is a write outside the domain |
| UfsRefinement.RunRefines | homework-03/userfs.c:144-538 | a run in the domain answers and ends as the specification allows, call by call |
| UfsRefinement.UserFsRefinesSpec | homework-03/userfs.c:144-538 | every run from the start whose storing writes stay in the domain is a run of the block-free specification with equal answers and error codes |
| UfsRoundTrip.AppendsAddUp | homework-03/userfs.c:276-326 | any sequence of appending writes appends the concatenation of its buffers and changes nothing else |
| UfsRoundTrip.ReadsAddUp | homework-03/userfs.c:351-385 | reads of any sizes in a row deliver one slice |
| UfsRoundTrip.AppendedBytesComeBack | homework-03/userfs.c:243-386 | what was appended through one descriptor is read through another, however both are cut into calls |
| UserFsFile.File.Walk | homework-03/userfs.c:276-279 | the walk to block `offset / BLOCK_SIZE` never leaves the list |
| UserFsFile.File.Append | homework-03/userfs.c:285-304 | the new block is linked last, with what malloc returned in it, and owned by this file alone |
| UserFsFile.File.StoreChunk | homework-03/userfs.c:283-318 | one pass of the write loop on linked blocks is one pass of the model's loop |
| UserFsFile.File.WriteFrom | homework-03/userfs.c:276-324 | the whole loop on linked blocks stores what the model stores, whatever state the list is in |
| UserFsFile.File.ReadInto | homework-03/userfs.c:351-385 | the loop copies exactly the model's bytes into the caller's buffer and nothing beyond |
| UserFsFile.File.FreeTail | homework-03/userfs.c:467-479 | the shrink loop frees the last blocks and nothing else, never reaching NULL early |
| UserFsFile.File.Shrink | homework-03/userfs.c:460-491 | of the linked list, stray blocks included, as many blocks go from the end as ceil(size/512) and ceil(new_size/512) differ by, the others staying the same objects; what they hold is what the model's shrink gives |
| UserFsFile.File.AddTail | homework-03/userfs.c:513-527 | the growth loop links zeroed blocks, marking each predecessor full |
| UserFsFile.File.Grow | homework-03/userfs.c:507-530 | the file's blocks after a growth are the model's |
| UserFsFile.File.Free | homework-03/userfs.c:134-139 | an object is freed only while the file still holds it, so that no free can come twice |
| UserFsFile.File.FreeBlocks | homework-03/userfs.c:129-139 | the name and every block and buffer of the file are freed, each exactly once, and nothing else |
| UserFs.FileSystem.Free | homework-03/userfs.c:540-559 | descriptors, tables and files are freed only while they are allocated |
| UserFs.FileSystem.FreeFile | homework-03/userfs.c:129-142 | of a file the name, the blocks and the file itself are freed, each while it is allocated |
| UserFs.FileSystem.Unlink | homework-03/userfs.c:117-127 | the neighbours are linked to each other and the head moves if it was the file |
| UserFs.FileSystem.FindFile | homework-03/userfs.c:151-156 | the search returns the first visible file of the name, or NULL |
| UserFs.FileSystem.Descriptor | homework-03/userfs.c:244-256 | the lookup every call begins with fails just when the descriptor is not open |
| UserFs.FileSystem.AddFile | homework-03/userfs.c:165-185 | a new file is linked at the front of the list |
| UserFs.FileSystem.InitTable | homework-03/userfs.c:188-199 | the first table has ten empty slots |
| UserFs.FileSystem.Widen | homework-03/userfs.c:219-229 | the doubled table begins with the old slots, the rest empty, and the old array is freed |
| UserFs.FileSystem.FreeSlot | homework-03/userfs.c:203-211 | the loop over the table returns the first NULL slot |
| UserFs.FileSystem.ClampOffsets | homework-03/userfs.c:493-497 | exactly the descriptors of this file beyond the new end are moved to it |
| UserFs.FileSystem.Open | homework-03/userfs.c:144-241 | on the heap open does what the model's open does, keeping every object accounted for |
| UserFs.FileSystem.Write | homework-03/userfs.c:243-327 | ... write, the caller's buffer untouched |
| UserFs.FileSystem.Read | homework-03/userfs.c:329-386 | ... read, the buffer changed only where bytes were delivered |
| UserFs.FileSystem.Close | homework-03/userfs.c:388-415 | ... close |
| UserFs.FileSystem.Delete | homework-03/userfs.c:417-440 | ... delete |
| UserFs.FileSystem.Resize | homework-03/userfs.c:442-538 | ... resize |
| UserFs.FileSystem.Release | homework-03/userfs.c:117-142 | an unlinked and freed file is gone from the list and from the set of allocated objects, with its name and its blocks |
| UserFs.FileSystem.Destroy | homework-03/userfs.c:540-559 | after it no object the file system allocated, names included, is still held, and the state is the initial one |
| UserFsRun.RunAndDestroy | homework-03/userfs.c:144-559 | a whole run on the heap answers as the model and, in the domain, as the specification; then everything is freed |
| ThreadPoolInvariant.CreateInv | homework-04/thread_pool.c:107-128 | the pool is created just for 1 to 20 threads, and starts in the invariant |
| ThreadPoolInvariant.WorkKeeps | homework-04/thread_pool.c:53-105 | every step of a worker, from lock to wait or unlock, keeps the invariant |
| ThreadPoolSteps.TakesFirst | homework-04/thread_pool.c:75-82 | a worker that finds work pops the first pending task, which has not been executed since its push and which no other worker has |
| ThreadPoolSteps.Publishes | homework-04/thread_pool.c:91-101 | with both mutexes the worker publishes the result of the latest execution, after which no join sleeps on the task, or frees a detached task for the only time |
| ThreadPoolSteps.PushBegins | homework-04/thread_pool.c:164-191 | a push takes the way of the refusal just at 100000 pending tasks (its answer: `ThreadPoolCalls.CallsAnswer`); otherwise any worker it creates has the next index, the array holds them all in order, and the push will wait for all of them |
| ThreadPoolSteps.PushQueues | homework-04/thread_pool.c:193-207 | a push waits just while the worker it created has not started; then its task is first in the list, not in it twice, and a sleeping worker is woken if any sleeps |
| ThreadPoolSteps.AnyoneMayWake | homework-04/thread_pool.c:65-68 | the model rules out no wakeup: every sleeping worker may be woken alone, for no reason or by the signal of any push |
| ThreadPoolInvariant.GoJoin | homework-04/thread_pool.c:237-295 | the steps of all joins keep the invariant |
| ThreadPoolInvariant.GoDetach | homework-04/thread_pool.c:311-325 | the steps of a detach keep the invariant |
| ThreadPoolSteps.DeleteBegins | homework-04/thread_pool.c:135-146 | a delete passes its guard just when nothing is pending and every worker is at rest; then the first is told to leave and nobody sleeps |
| ThreadPoolSteps.DeleteGoesOn | homework-04/thread_pool.c:143-150 | workers up to the one joined are gone; the next is told to leave and nobody sleeps, or all are gone and the thread array goes |
| ThreadPoolInvariant.InvKept | homework-04/thread_pool.c:53-325 | every action of client, worker or condition variable keeps the whole invariant |
| ThreadPoolInvariant.InvOfRun | homework-04/thread_pool.c:53-325 | it holds in every state of every run |
| ThreadPoolSafety.PoolCounters | homework-04/thread_pool.c:61-80 | whenever no worker is inside the pool's mutex: idle + running == thread_count <= max <= 20, pending_task_count is the length of the list and at most 100000, indices are 0..thread_count-1 |
| ThreadPoolSafety.ThirdGuardIsFirst | homework-04/thread_pool.c:136 | with none running every worker is idle: the third test of the guard never decides |
| ThreadPoolSafety.NoLostWakeup | homework-04/thread_pool.c:65-68 | with the pool's mutex free at least min(pending, idle) workers have been woken and are on their way |
| ThreadPoolSafety.StatusIsSeen | homework-04/thread_pool.c:9-23 | each task is in exactly one of new, pending, running, finished, returned, detached (pending or running), freed, as list, workers and flags show; `is_running` and `is_finished` say so |
| ThreadPoolSafety.LifeOfTask | homework-04/thread_pool.c:75-102 | every action of every thread moves a task along one life: nothing skips a stage, and nothing touches a freed one |
| ThreadPoolSafety.RecordOfAction | homework-04/thread_pool.c:86-102 | the recorded counts of pushes, executions and frees are those of the run |
| ThreadPoolSafety.ExactlyOnce | homework-04/thread_pool.c:75-102 | over any interleaving executions <= pushes <= executions + 1, equal once the task has left list and worker, and it is freed at most once |
| ThreadPoolSafety.JoinReturnsLatest | homework-04/thread_pool.c:237-250 | a join about to unlock with a value has what the execution of the latest push returned (the answers themselves: `ThreadPoolAnswers.JoinedValue`) |
| ThreadPoolSafety.FailedJoinChangesNothing | homework-04/thread_pool.c:259-288 | until it is about to answer with a value a join changes nothing but who holds the mutex |
| ThreadPoolSafety.TimedOutStaysInPool | homework-04/thread_pool.c:284-287 | a task whose join timed out is still in the pool and can be joined again |
| ThreadPoolSafety.NewestFirst | homework-04/thread_pool.c:199-200 | the pending list is a stack: newest push first, in every run |
| ThreadPoolSafety.SpawnsWhenAllBusy | homework-04/thread_pool.c:172-191 | a push creates a worker if and only if all workers are busy and there may be more |
| ThreadPoolSafety.GivenUpForGood | homework-04/thread_pool.c:311-325 | once a detach has answered the task is freed or will be when its execution ends |
| ThreadPoolSafety.LeavesInTurn | homework-04/thread_pool.c:65-73 | a worker leaves only when the delete waits for it, those before it being gone and those after it resting |
| ThreadPoolSafety.LeaverIsAwake | homework-04/thread_pool.c:143-147 | the worker being joined is not asleep, so no wakeup it needs is missed |
| ThreadPoolSafety.FreedPoolIsAlone | homework-04/thread_pool.c:152-160 | when the pool is freed all workers are gone, nothing is pending, no mutex is held and no call is inside it |
| ThreadPoolProgress.StuckMeansDone | homework-04/thread_pool.c:53-325 | no deadlock: if no thread can go on, the client is between calls, nothing is pending or with a worker, and every detached task is freed |
| ThreadPoolProgress.DetachedIsFreedOnce | homework-04/thread_pool.c:311-325 | in a run that ends where no thread can go on a detached task has been freed exactly once, whichever of detach and finish came first |
| ThreadPoolProgress.StepIsProgress | homework-04/thread_pool.c:53-325 | every step but a call or a spurious wakeup lowers a bound; a spurious one raises it by at most 3 |
| ThreadPoolProgress.WorkCompletes | homework-04/thread_pool.c:53-325 | a finite run without calls has at most bound + 4 * spurious wakeups steps, under any scheduling at all, and where it cannot go on all work is done |
| ThreadPoolProgress.Drains | homework-04/thread_pool.c:53-325 | from every reachable state a run without calls gets there |
| ThreadPoolFairness.FairExtension | homework-04/thread_pool.c:53-325 | every finite run is the beginning of a fair endless one, so that fairness excludes nothing that can happen |
| ThreadPoolFairness.OwnerFrees | homework-04/thread_pool.c:60-104 | in a fair run the pool's mutex is free again and again |
| ThreadPoolFairness.WorkerActs | homework-04/thread_pool.c:60-104 | in a fair run a worker that neither sleeps nor is gone makes its next step |
| ThreadPoolLiveness.LoadFalls | homework-04/thread_pool.c:75-102 | the work left, pending tasks and those with workers, is raised by nothing but the call of a push |
| ThreadPoolLiveness.AllTasksComplete | homework-04/thread_pool.c:53-208 | in a fair run, once pushes stop, whatever else is called and however often threads wake for no reason: from some point on nothing is pending or with a worker, every task has been executed as often as pushed and published, and every detached one is freed |
| ThreadPoolLiveness.DetachedIsFreed | homework-04/thread_pool.c:91-102 | in a fair run whose pushes stop a task whose detach has answered is freed, once and for good |
| ThreadPoolLiveness.ShutdownCompletes | homework-04/thread_pool.c:141-160 | in a fair run a delete that is past its guard joins every worker and frees the pool |
| ThreadPoolLiveness.EveryCallReturns | homework-04/thread_pool.c:134-325 | in a fair run every push, join, detach and delete returns, with one of its own answers, though no timeout and no spurious wakeup need ever come |
| ThreadPoolTimeouts.JoinAnswersAtLoop | homework-04/thread_pool.c:241-291 | a join that looks at its task, `late` or not, goes on to answer with what the latest execution returned if and only if that execution is published and it is not late; it sleeps just while the task is pending or with a worker and it may wait (what makes it late: `ThreadPoolCalls.CallsAnswer`) |
| ThreadPoolTimeouts.FinishedIsJoined | homework-04/thread_pool.c:237-294 | a join of any kind called when its task is finished answers with the task's result |
| ThreadPoolTimeouts.LateAnswerIff | homework-04/thread_pool.c:280-287 | a timed join may find its task finished and still answer with a timeout if and only if the task is not finished at the call |
| ThreadPoolTimeouts.LateAnswerFromStart | homework-04/thread_pool.c:280-287 | a run from a new pool that ends that way |
| ThreadPoolCalls.HistoryHolds | homework-04/thread_pool.c:210-325 | over every run from a new pool what the client was answered tells what a task is: created and never pushed, pushed and neither joined nor detached since, joined since its push, given up |
| ThreadPoolCalls.CallsAnswer | homework-04/thread_pool.c:134-325 | every answer over every run from a new pool. Push: too many if and only if the list was full at its lock, and then list and tasks are as they were; else its task, and only it, was queued once. Join of a pushed task: a timeout if and only if its wait ran out, or it may not wait and the task was not done where it looked; else a value; one that may not wait never sleeps. Join or detach of any other: not pushed. Delete of a task: in the pool if and only if pushed and not joined. Delete of the pool: has tasks, changing nothing, if and only if anything was pending or a worker not at rest at its lock |
| ThreadPoolAnswers.JoinedValue | homework-04/thread_pool.c:237-295 | whenever a join has answered with a value, it is what the latest execution of the task returned, and each of its pushes, at least one, was executed |
| ThreadPoolAnswers.JoinComesBack | homework-04/thread_pool.c:237-295 | in a fair run a join of a pushed task that may wait answers: with a timeout if it is timed and its wait ran out, otherwise with what the latest execution returned |
| ThreadPoolAnswers.CallsByHistory | homework-04/thread_pool.c:163-325 | which calls the client may make follows from the answers it got: push what was created or joined, join, detach and delete what was not given up |
| ThreadPoolAnswers.DeletesOnce | homework-04/thread_pool.c:299-307 | a delete of a task that is pushed and not joined changes nothing but its answer; any other frees the task, never freed before or after |
| ThreadPoolAnswers.WorkersWithinMax | homework-04/thread_pool.c:107-191 | over every run from `thread_pool_new(max)` there are at most max workers, and a push starts one if and only if there are fewer and each has a task |
| ThreadPoolStarvation.OldTaskStarves | homework-04/thread_pool.c:193-207 | without the end of pushes there is no such promise: a run from a new pool with one worker that goes on fairly for ever while a pushed task is never taken |
| HeapTracker.TakeMoves | utils/heap_help/heap_help.c:168-185 | taking an object moves it out of the pool or creates the next one of a batch |
| HeapTracker.RemoveMoves | utils/heap_help/heap_help.c:213-229 | removing takes out one entry for the address and recycles its object |
| HeapTracker.NeverBadMemory | utils/heap_help/heap_help.c:204-235 | `alloc_free` always finds an entry: its abort is unreachable |
| HeapTracker.InvKept | utils/heap_help/heap_help.c:154-235 | every step of every thread keeps the counts of entries, owners and objects |
| HeapTracker.EntriesOfAddress | utils/heap_help/heap_help.c:542-559 | an address has one entry if it is live and recorded, plus one for each pending untracking of it |
| HeapTracker.CountIsExact | utils/heap_help/heap_help.c:195-229 | with no thread inside a wrapper alloc_count is the number of live allocations |
| HeapTracker.CountIsGiven | utils/heap_help/heap_help.c:195-229 | over every run, with no thread inside a wrapper, alloc_count is the number of addresses that the calls and their results gave the program and it did not give back |
| HeapTracker.TrackerIsSafe | utils/heap_help/heap_help.c:518-573 | over every run: no abort, count equals list length, entries as above, no address with two holders, no object in two places |
| HeapTracker.TwoEntries | utils/heap_help/heap_help.c:547-556 | a run in which one address has two entries, because realloc gives it back before untracking it |
| HeapTrackerLists.Tracker.Take | utils/heap_help/heap_help.c:168-185 | the first section on linked objects is the model's step |
| HeapTrackerLists.Tracker.Insert | utils/heap_help/heap_help.c:195-200 | the second section links the object in front and counts it |
| HeapTrackerLists.Tracker.Remove | utils/heap_help/heap_help.c:213-234 | the search and unlinking loop removes the first entry for the address, or reports that there is none |
| HeapTrackerRun.Perform | utils/heap_help/heap_help.c:518-573 | one action of one thread on the linked objects, each thread with the object it took, is one step of the state machine |
| HeapTrackerRun.Run | utils/heap_help/heap_help.c:154-235 | so is a whole run under any interleaving: the lists hold what the model says, no removal aborts, and with no thread inside the counter is the number of addresses given and not given back |
| HeapTracker.OldestSize | utils/heap_help/heap_help.c:195-234 | the oldest entry of an address has the size that was asked for in the call whose answer was recorded when the address last came to have an entry |
| HeapTracker.EntrySize | utils/heap_help/heap_help.c:195-234 | an address the program holds, no other removal being due, has one entry, with that size; it is the size last asked for if and only if the two agree |
| HeapTracker.InPlaceKeepsSize | utils/heap_help/heap_help.c:546-557 | a run in which a realloc that stays in place leaves the old size recorded |
| HeapTracker.CrossingKeepsSize | utils/heap_help/heap_help.c:546-557 | a run in which a realloc that moves untracks the newer entry of its old address, so that the older size stays |
| HeapSort.TurnKeeps | homework-01/solution.c:73-96 | one turn of either inner loop moves the single place out of order down, or finishes the outer turn, keeping heap and sorted tail |
| HeapSort.SinkKeeps | homework-01/solution.c:73-89 | choosing the greatest of a place and its children and swapping leaves a heap but for the place below |
| HeapSort.DepthIsLog | homework-01/solution.c:73-89 | a heap of n elements has floor(log2 n) levels below its root |
| HeapSort.TurnCosts | homework-01/solution.c:86-95 | a turn that swaps uses up one of a bound of levels left, any other none |
| HeapSort.Log2Is | homework-01/solution.c:73-89 | the logarithm of the bound is the floor of the binary one |
| HeapSort.HeapSortIsCorrect | homework-01/solution.c:64-128 | sorted, a permutation, and at most (size/2 + size) * floor(log2 size) swaps in the inner loops, hence yield checks |
| HeapSort.Sink | homework-01/solution.c:72-96 | the inner loop in place is a sequence of the machine's turns |
| HeapSort.SortInPlace | homework-01/solution.c:64-128 | the in-place sort ends where the machine ends, with the same number of swaps |
| CoroutineSort.SortingKept | homework-01/solution.c:134-194 | every step of every coroutine keeps: each taken file belongs to one coroutine, and is sorted or being sorted by it |
| CoroutineSort.NoInterference | homework-01/solution.c:139-193 | a step changes only the array of the file the running coroutine took, and no claim is taken back |
| CoroutineSort.AllFilesSorted | homework-01/solution.c:286-289 | under every schedule and clock, when all coroutines have ended each file was taken by one and its array is a sorted permutation of its input |
| CoroutineSort.TimeKept | homework-01/solution.c:51-62 | recorded intervals end before the running coroutine's current one began (their lengths: `CoroutineTime.TotalIsWorked`) |
| CoroutineSort.WorkTimeIsDisjoint | homework-01/solution.c:294-305 | the total of all work times is at most the elapsed time |
| CoroutineTime.TotalIsWorked | homework-01/solution.c:46-62 | over every run the work time a coroutine has recorded is the sum over its turns of the clock where it let go less the clock where it was resumed |
| CoroutineTime.LetsGoIff | homework-01/solution.c:51-200 | over every run a coroutine lets go, having picked or read a file or swapped an element down, if and only if more than its quantum has passed since it was resumed; otherwise only where there is nothing more to pick |
| CoroutineSort.GoIsProgress | homework-01/solution.c:139-200 | every step of a coroutine lowers the work left |
| CoroutineSort.SortingCompletes | homework-01/solution.c:134-200 | every run is bounded by its input, and one that cannot go on has sorted every file |
| Merge.FindNext | homework-01/solution.c:328-338 | the search returns the least current value below INT_MAX in the first file that has it, or none |
| Merge.MergeIsUnique | homework-01/solution.c:324-345 | only one output satisfies the merge's specification |
| Merge.MergeArrays | homework-01/solution.c:317-345 | the output is sorted, equal values in file order, and is everything but the elements equal to INT_MAX: the whole union if and only if there is none |
| SortAndMerge.SortThenMerge | homework-01/solution.c:286-345 | from the files to the output: under every schedule and clock the output is sorted and has exactly the elements of all files but those equal to INT_MAX |
| SortAndMerge.ScheduleDoesNotMatter | homework-01/solution.c:286-289 | two runs on the same files leave the same arrays, however many coroutines there are and however they are scheduled |
| SortingOrder.OrderStep | homework-01/libcoro.c:130-145 | the turns of single coroutines, each ending or yielding, give the finishing order of the scheduler's rounds |
| SortingOrder.SortsInOrder | homework-01/solution.c:265-289 | in the order of the scheduler's own list, whatever the clock, the sorting coroutines come to an end, every file sorted; they end in the order the scheduler gives for the yields they make |
| CoroScheduler.Scheduler.Add | homework-01/libcoro.c:53-61 | a new coroutine is linked at the front, from wherever it is created |
| CoroScheduler.Scheduler.Delete | homework-01/libcoro.c:64-74 | the coroutine is unlinked and the rest stays in order |
| CoroScheduler.Scheduler.Yield | homework-01/libcoro.c:112-121 | control goes to the next on the list, which has not finished, or to the scheduler |
| CoroScheduler.Scheduler.Finish | homework-01/libcoro.c:176-183 | a coroutine that returns always finds the scheduler waiting: the error branch is unreachable |
| CoroScheduler.Scheduler.Round | homework-01/libcoro.c:140-142 | one yield of the scheduler lets each coroutine go on once, in list order, until one finishes or the list ends; after it the scheduler does not count as waiting |
| CoroScheduler.NextIsLeast | homework-01/libcoro.c:130-145 | the coroutine returned is the one with the fewest yields left, the first such on the list; those before it made one yield more than it had left, the others as many |
| CoroScheduler.FinishOrderIsAll | homework-01/libcoro.c:130-145 | the finishing order names every coroutine once |
| CoroScheduler.Scheduler.Wait | homework-01/libcoro.c:130-145 | `coro_sched_wait` returns NULL for an empty list, else that coroutine, finished and off the list, the others having gone on by the same law |
| CoroScheduler.Scheduler.WaitForAll | homework-01/solution.c:286-289 | repeated waits return each coroutine exactly once, in that order, after as many yields as its function makes, and then NULL |

## Left out

- File reading, printing and command lines of homework-01/solution.c: the arrays are inputs, the output a sequence; the spaces between numbers are not modelled.
- `sigaltstack`, `setjmp` and signal handling of homework-01/libcoro.c.
- The deadline arithmetic of `thread_task_timed_join`.
- Several clients: the code lets threads join or detach different tasks while one pushes; the model has one client, whose calls come one after another. Two joins of one task at a time, pushing a task twice and using a detached one are outside what the code supports.
- Failure of `malloc`, and `size_t` wrap-around for absurd sizes.
- Symbol resolution, backtraces, exit reports, the bootstrap allocator, `strdup`, `getline` and `getaddrinfo` of utils/heap_help/heap_help.c, and nested wrappers (`depth > 1`).
- The thread pool's and the tracker's shared structures are values in a state machine, a step for each section between two synchronisation points; only the tracker's lists are also proved on linked objects. The links of the pool's pending list are not modelled as pointers.
- Trivial accessors (`ufs_errno`, `coro_status`, `thread_pool_thread_count`).
- ThreadPoolProgress.DetachedIsFreedOnce: speaks of runs that end where nothing can go on; for endless ones see `ThreadPoolLiveness.DetachedIsFreed`.
- ThreadPoolProgress.WorkCompletes: speaks of runs without calls; for fair runs with calls see `ThreadPoolLiveness.AllTasksComplete`.
