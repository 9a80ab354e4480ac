# Models of Flutter engine components

A Dafny project that models ten components of the Flutter engine's `fml` and `flow` libraries and proves what they
promise, for all inputs and over whole runs:

- **Task queues** (`DelayedTasks`, `TaskQueueSpec`, `TaskQueueRuns`, `TaskQueueOrder`, `TaskQueueWakes`,
  `TaskQueueCalls`, `TaskQueues`): the registry of per-loop priority queues, two of which may be merged so that one loop serves both.
  `TaskQueueSpec.Next` says what each public method may do to the registry. The class
  `TaskQueues.MessageLoopTaskQueues` is proved to do only that. Pairing, conservation, dequeue order and wake times are
  proved over all runs of such steps, and what each call answers and does to what its callers can see.
- **Thread merger** (`ThreadMerger`): the lease that keeps the platform and GPU threads merged.
- **Worker pool** (`WorkerPool`): the concurrent message loop, as atomic steps of any interleaving of callers and
  workers, with the notifications still owed and spurious wake-ups as explicit state.
- **Base32** (`Bits`, `BitConverter`, `Base32`): the alphabet of section 6 of RFC 4648, without padding characters, on
  top of a bit queue kept in one integer.
- **Matrix decomposition** (`Vectors`, `MatrixDecomposition`): in exact reals, with the square root a parameter that has to
  be right at three arguments.
- **Command line** (`CommandLine`): parser, printer and option lookup.
- **Message** (`PowersOfTwo`, `Message`): the growable byte buffer, down to the 32-bit rounding of its size.
- **Layer tree** (`Layers`, `LayerPreroll`): preroll on one shared, mutated context, and the culling it allows.
- **Raster cache** (`RasterCache`) and **unref queue** (`UnrefQueue`): admission and eviction as functions of the
  history; a posting protocol over all interleavings.

The form is the same throughout: a value-level specification (a step relation, a reference function or a history), a
class or a method with loops that is proved against it, and theorems about the specification.

What the environment decides is a parameter: `now`, whether memory can be had, whether a surface can be had, the two
tests on a picture, which sleeping worker a notification wakes, which square root function is used, whether `char` is
signed. Closures, pictures, matrices, shapes and GPU objects are opaque ids.

Each public method of the task queue registry is one atomic step. The source comes close to that with one lock per
queue, but a dequeue on a merged pair pops the subsumed heap while holding the owner's lock only
(`engine-master/fml/message_loop_task_queues.cc:103` and `:118`); interleavings inside that call are not modelled.

## Where the code falls short of what it promises

- A task registered on a merged pair wakes the loop for the top of its own heap only. The loop is left in time exactly
  when the partner's earliest task is not earlier (`RegisterInTimeIff`); `MergedRegisterSleepsLate` is a run in which a
  loop sleeps past a due task.
- Registration order is kept in all runs of n registrations exactly if n is at most 2^32 (`FifoIff`); `OrderIsLost` is a
  run for every larger n, and `FiredInOrderIff` says which of two tasks is first then. What is handed out is determined
  up to then (`RunFlushDeterministic`), and after it only as far as target times and order numbers go
  (`FlushesSameKeys`, `SingleHasKeyOfHead`).
- A lease term is kept in an atomic `int`: a merge leaves a positive lease exactly for terms whose low 32 bits are a
  positive one (`LeasePositiveIff`), and the lease is the longest promise made exactly if all terms are `int`s
  (`LongestPromiseIff`). Counting down, with the debug check off, unmerges at the decrement numbered by the low 32 bits
  of the term, except that it never does where those are all zeros or all ones (`UnmergesAtTermIff`).
  A merger that finds its queues merged when it is made never gets a lease and never unmerges (`FoundMergedStays`).
  `WholeRoundFailsCheck`, `AllOnesIsNoLease`, `HalfRoundWraps` and `BigExtensionIgnored` are terms for which things go
  wrong.
- Ids of queues compare equal to the mark for "unmerged" or to each other exactly every 2^32 creations (`IdsCollideIff`).
- `Base32Encode` treats its first byte as `char` and all others as `uint8_t`. Where `char` is signed it succeeds exactly
  for a first byte below 0x80 (`Base32Encode`, `EncodeThenDecode`).
- `Base32Decode` accepts texts of lengths that no encoding has; re-encoding loses their last letter (`EncodeDecode`,
  `SingleLetterIsLost`).
- `BitConverter`'s static assertions do not by themselves keep its shift inside an `int` (`ShiftFitsIff`).
- A command line built from components survives printing and parsing exactly when its option names are ones that parsing
  can produce (`ParsePrintIff`, `EqualsInNameIsCut`).
- Options are looked up by the C string at the start of a view, and listed by the view. The two agree exactly if the view
  holds no NUL and is followed by one (`LookupAgreesIff`); a view of part of a string misses (`PartialViewMisses`).
- A message's capacity covers the request exactly up to 2^31 bytes (`RoundedCoversIff`, `AppendedIff`), and bounds reads
  by the data exactly when the data's length is zero or a power of two (`CapacityIsDataIff`).
- The two `unique_ptr` templates of `Message` disagree on the meaning of the flag they share, so an owned object never
  survives a round trip (`PointerRoundTrip`).
- `RasterCache::Prepare` is documented to return true if the cache is generated. It also returns true if there was no
  surface to draw on, and that attempt counts against the limit of the frame (`RasterCache.Prepare`).
- An opacity layer moves its children but not the cull rectangle. A leaf that shows is painted exactly if the clips above
  it and the cull rectangle, none of them moved, have a point in common (`ShownIsPaintedIff`). It is lost where a moved
  clip misses a narrowed cull rectangle (`MovedClipIsLost`), and never where no clip is moved (`ShownIsPainted`).
- Distinct objects are released in the order they were handed in exactly if every release is the oldest drain's
  (`ReleasedInOrderIff`); a direct drain may overtake the task runner's (`OverlapLosesOrder`).

## Model

| member | source | states |
|---|---|---|
| `DelayedTasks.Top` | engine-master/fml/delayed_task.cc:28-33 | The top of a heap is one of its tasks, and none is smaller by target time and then order. |
| `DelayedTasks.TwoHeapsRefineOne` | engine-master/fml/message_loop_task_queues.cc:99-129 | Dequeuing from two heaps is dequeuing from one heap over their union; a full flush takes exactly the due tasks of both, and each heap keeps exactly its own others. |
| `DelayedTasks.FlushDeterministic` | engine-master/fml/message_loop_task_queues.cc:309-340 | While keys are distinct, what is fired depends on the union only; TaskQueueOrder.RunFlushDeterministic has this for runs. |
| `DelayedTasks.FlushKeysDeterministic` | engine-master/fml/message_loop_task_queues.cc:309-340 | Whatever the keys, the sequence of keys fired depends on the union only. |
| `DelayedTasks.SingleIsHeadOfAll` | engine-master/fml/message_loop_task_queues.cc:119-121 | While keys are distinct, a single dequeue fires the head of what a full one would fire; TaskQueueOrder.RunSingleIsHeadOfAll has this for runs. |
| `DelayedTasks.FlushBefore` | engine-master/fml/delayed_task.cc:28-33 | A task fires only after every smaller task that was in either heap. |
| `DelayedTasks.OrderMonotoneIff` | engine-master/fml/message_loop_task_queues.cc:82-84 | Wrapped and widened order numbers compare as the registrations' places in rounds of 2^32 do, for any two registrations; over the first 2^32 they are registration order. |
| `DelayedTasks.OrderWrapsAround` | engine-master/fml/message_loop_task_queues.h:156 | Registration number 2^32 sorts before all others of the first round but the first. |
| `TaskQueueSpec.IdsCollideIff` | engine-master/fml/message_loop_task_queues.h:21-33 | Ids compare equal exactly a multiple of 2^32 creations apart, and equal to the mark for "unmerged" exactly at the end of such a round; so they are distinct and usable for the first 2^32 - 1 queues. |
| `TaskQueueSpec.NextKeepsPairing` | engine-master/fml/message_loop_task_queues.cc:34-63 | Every step keeps the pairing invariant: links are mutual, live and of distinct queues. |
| `TaskQueueSpec.PairsAreDisjoint` | engine-master/fml/message_loop_task_queues.cc:207-265 | Merged queues form disjoint pairs: links are inverse, no queue is owner and subsumed, none has two partners. |
| `TaskQueueSpec.SameThreadEquivalence` | engine-master/fml/task_runner.cc:42-63 | Running on one thread is an equivalence on live queues with classes of at most two, and means being served by one loop. |
| `TaskQueueSpec.PendingCountsTotal` | engine-master/fml/message_loop_task_queues.cc:138-156 | What the loops see adds up to all pending tasks, as multisets and as counts. |
| `TaskQueueRuns.LinksMoveNoTask` | engine-master/fml/message_loop_task_queues.cc:207-265 | Merge, Unmerge and SetWakeable leave every queue's tasks as they were. |
| `TaskQueueRuns.NextConserves` | engine-master/fml/message_loop_task_queues.cc:52-91 | For every step, tasks before plus registered are tasks after plus dequeued plus dropped. |
| `TaskQueueRuns.RunInv` | engine-master/fml/message_loop_task_queues.cc:52-129 | In every state of every run: pairing holds; registered tasks are the pending, dequeued and disposed ones; every pending task is on the queue it was registered on; order numbers follow registration. |
| `TaskQueueRuns.FlushInOrder` | engine-master/fml/message_loop_task_queues.cc:309-340 | However many tasks have been registered, a loop is handed a task only after every visible task that is due earlier, or at the same time and in an earlier place of a round of 2^32, whichever of the two queues that is on. |
| `TaskQueueRuns.FiredInOrderIff` | engine-master/fml/message_loop_task_queues.cc:309-340 | Of two tasks with one target time handed out by one call, the order is that of registration if and only if it is that of their places in rounds of 2^32. |
| `TaskQueueRuns.RunFifo` | engine-master/fml/message_loop_task_queues.cc:82-84 | Over the first 2^32 registrations, across merges and unmerges, tasks of a queue leave in registration order where target times are equal or ascending. |
| `TaskQueueOrder.KeysAreDistinct` | engine-master/fml/message_loop_task_queues.cc:82-84 | In every reachable state of up to 2^32 registrations, no two tasks that a loop sees have the same key, and none is there twice. |
| `TaskQueueOrder.RunFlushDeterministic` | engine-master/fml/message_loop_task_queues.cc:99-129 | In states of any two runs, each with at most 2^32 registrations so far, loops that see the same tasks are handed the same tasks in the same order, however those are spread over the heaps. |
| `TaskQueueOrder.RunSingleIsHeadOfAll` | engine-master/fml/message_loop_task_queues.cc:119-121 | In every state of every run with at most 2^32 registrations so far, a single dequeue fires the head of what a full one would fire. |
| `TaskQueueOrder.FlushesSameKeys` | engine-master/fml/message_loop_task_queues.cc:99-129 | In any registry, however many tasks have been registered, loops that see the same tasks are handed tasks with the same target times and order numbers in the same order. |
| `TaskQueueOrder.SingleHasKeyOfHead` | engine-master/fml/message_loop_task_queues.cc:119-121 | In any registry, a single dequeue fires a task if and only if a full one does, and then one task, with the key of the head of those. |
| `TaskQueueOrder.OrderIsLost` | engine-master/fml/message_loop_task_queues.cc:82-84 | For every number of registrations beyond 2^32 there is a run in which a task overtakes one of its queue registered before it for the same time. |
| `TaskQueueOrder.FifoIff` | engine-master/fml/message_loop_task_queues.cc:82-84 | Registration order is kept in all runs of n registrations if and only if n is at most 2^32. |
| `TaskQueueWakes.RegisterInTimeIff` | engine-master/fml/message_loop_task_queues.cc:85-90 | The wake issued by RegisterTask carries the earliest time visible to its loop if and only if the partner has no earlier task; otherwise the loop is left late. |
| `TaskQueueWakes.FlushKeepsInTime` | engine-master/fml/message_loop_task_queues.cc:124-129 | The wake that ends a dequeue carries the earliest time left, and the maximum if none is. |
| `TaskQueueWakes.MergeKeepsInTime` | engine-master/fml/message_loop_task_queues.cc:234-239 | The wake issued by Merge carries the earliest time of the pair. |
| `TaskQueueWakes.UnmergeKeepsInTime` | engine-master/fml/message_loop_task_queues.cc:253-262 | The wakes issued by Unmerge carry the earliest time of each queue. |
| `TaskQueueWakes.NextKeepsInTime` | engine-master/fml/message_loop_task_queues.cc:77-136 | Every careful step leaves no loop with a last wake later than its earliest visible task. |
| `TaskQueueWakes.RunInTime` | engine-master/fml/message_loop_task_queues.cc:77-136 | The same throughout every careful run, that is one with wakeables set first and only safe registrations. |
| `TaskQueueWakes.UnmergedRegisterIsSafe` | engine-master/fml/message_loop_task_queues.cc:77-91 | Registrations on queues that are not merged are always safe. |
| `TaskQueueWakes.MergedRegisterSleepsLate` | engine-master/fml/message_loop_task_queues.cc:89-90 | A run in which a merged loop is told to wake at 20 with a task due at 10. |
| `TaskQueueCalls.SeesWhatItServes` | engine-master/fml/message_loop_task_queues.cc:268-271 | `Owns` of two queues means that the first one's loop serves the second; that loop sees the tasks of both, and the second sees none. |
| `TaskQueueCalls.MergeAnswer` | engine-master/fml/message_loop_task_queues.cc:207-242 | The answer is whether the first queue owns the second from then on (or they are one). For queues that are not a pair yet, it is true if and only if neither has a partner. A refused merge changes nothing. |
| `TaskQueueCalls.MergeJoins` | engine-master/fml/message_loop_task_queues.cc:234-239 | After a merge one loop serves both queues and sees what the two saw; no other queue changes. |
| `TaskQueueCalls.UnmergeAnswer` | engine-master/fml/message_loop_task_queues.cc:247-251 | True if and only if the queue owned another; otherwise nothing changes. |
| `TaskQueueCalls.UnmergeSplits` | engine-master/fml/message_loop_task_queues.cc:253-262 | After an unmerge each queue is served by its own loop, which sees its tasks; no other queue changes. |
| `TaskQueueCalls.UnmergeUndoesMerge` | engine-master/fml/message_loop_task_queues.cc:234-254 | Unmerging after a merge gives back all queues as they were. |
| `TaskQueueCalls.MergeUndoesUnmerge` | engine-master/fml/message_loop_task_queues.cc:234-254 | Merging the same pair after an unmerge succeeds and gives back all queues as they were. |
| `TaskQueueCalls.CreateAdds` | engine-master/fml/message_loop_task_queues.cc:34-43 | A new queue has an unused id, no tasks, no partner and no wakeable; the others are as before. |
| `TaskQueueCalls.DisposeRemoves` | engine-master/fml/message_loop_task_queues.cc:57-62 | Exactly the queue and the one it owns are gone; all other entries are unchanged. |
| `TaskQueueCalls.DisposeTasksEmpties` | engine-master/fml/message_loop_task_queues.cc:65-75 | Exactly the queues that the loop serves lose their tasks, and nothing but tasks. |
| `TaskQueueCalls.RegisterAdds` | engine-master/fml/message_loop_task_queues.cc:82-84 | The task, with the next order number, joins the heap of the queue named; no other queue changes. |
| `TaskQueueCalls.RegisterShows` | engine-master/fml/message_loop_task_queues.cc:82-84 | Exactly the loop that serves the queue sees the task from then on. |
| `TaskQueueCalls.WakesOfCall` | engine-master/fml/message_loop_task_queues.cc:77-262 | Every call wakes exactly the loops it is to wake, each once, for the earliest task that loop then sees (on a registration, the earliest of the queue's own heap), and only loops with a wakeable. |
| `TaskQueueCalls.IdsNeverReused` | engine-master/fml/message_loop_task_queues.cc:34-43 | In no run is an id handed out twice, not even after its queue was disposed of; ids count up as in CreateTaskQueue. |
| `TaskQueueCalls.WakeableIffSet` | engine-master/fml/message_loop_task_queues.cc:198-205 | In every state of every run a live queue has a wakeable if and only if one was set. |
| `TaskQueues.MessageLoopTaskQueues.constructor` | engine-master/fml/message_loop_task_queues.cc:45-48 | The registry starts empty. |
| `TaskQueues.MessageLoopTaskQueues.CreateTaskQueue` | engine-master/fml/message_loop_task_queues.cc:34-43 | Takes a create step and returns an id that was not in use. |
| `TaskQueues.MessageLoopTaskQueues.Dispose` | engine-master/fml/message_loop_task_queues.cc:52-63 | Takes a dispose step: an owner takes the queue it owns with it, and nothing else changes. |
| `TaskQueues.MessageLoopTaskQueues.DisposeTasks` | engine-master/fml/message_loop_task_queues.cc:65-75 | Takes a step that empties the queue and the one it owns. |
| `TaskQueues.MessageLoopTaskQueues.RegisterTask` | engine-master/fml/message_loop_task_queues.cc:77-91 | Takes a register step: the task goes to the queue named, with the next order number, and the serving loop is woken. |
| `TaskQueues.MessageLoopTaskQueues.HasPendingTasks` | engine-master/fml/message_loop_task_queues.cc:282-301 | True exactly when the loop sees a task: never for a subsumed queue, for both queues of an owner. |
| `TaskQueues.MessageLoopTaskQueues.GetNumPendingTasks` | engine-master/fml/message_loop_task_queues.cc:138-156 | The number of tasks the loop sees. |
| `TaskQueues.MessageLoopTaskQueues.SetWakeable` | engine-master/fml/message_loop_task_queues.cc:198-205 | Takes a step that gives the queue its wakeable. |
| `TaskQueues.MessageLoopTaskQueues.WakeUpUnlocked` | engine-master/fml/message_loop_task_queues.cc:131-136 | Issues the wake if the queue has a wakeable, and none otherwise. |
| `TaskQueues.MessageLoopTaskQueues.PeekNextTaskUnlocked` | engine-master/fml/message_loop_task_queues.cc:309-340 | The task found is least in its heap and least among all tasks the loop sees. |
| `TaskQueues.MessageLoopTaskQueues.GetNextWakeTimeUnlocked` | engine-master/fml/message_loop_task_queues.cc:303-307 | The earliest target time the loop sees. |
| `TaskQueues.MessageLoopTaskQueues.Merge` | engine-master/fml/message_loop_task_queues.cc:207-242 | Takes a merge step: links the queues, or refuses, or finds them linked; true exactly if the first owns the second (or is it) afterwards. |
| `TaskQueues.MessageLoopTaskQueues.Unmerge` | engine-master/fml/message_loop_task_queues.cc:244-265 | Takes an unmerge step: unlinks the pair and wakes both loops, or refuses; true exactly if there was a pair. |
| `TaskQueues.MessageLoopTaskQueues.PopDueTasks` | engine-master/fml/message_loop_task_queues.cc:111-122 | The loop pops exactly the due tasks of both heaps in order, or the first of them. |
| `TaskQueues.MessageLoopTaskQueues.WakeForNext` | engine-master/fml/message_loop_task_queues.cc:124-128 | Wakes the loop for the earliest task it still sees, or for the end of time if there is none; nothing else changes. |
| `TaskQueues.MessageLoopTaskQueues.GetTasksToRunNow` | engine-master/fml/message_loop_task_queues.cc:99-129 | Takes a flush step, and appends the closures of exactly the tasks it fired. |
| `ThreadMerger.GpuThreadMerger.constructor` | engine-master/fml/gpu_thread_merger.cc:14-21 | Starts without a lease, merged if the platform queue already owns the gpu queue. |
| `ThreadMerger.GpuThreadMerger.MergeWithLease` | engine-master/fml/gpu_thread_merger.cc:23-29 | Takes a merge step of the lease machine. |
| `ThreadMerger.GpuThreadMerger.ExtendLeaseTo` | engine-master/fml/gpu_thread_merger.cc:40-45 | Takes an extend step of the lease machine. |
| `ThreadMerger.GpuThreadMerger.DecrementLease` | engine-master/fml/gpu_thread_merger.cc:51-72 | Takes a decrement step of the lease machine, for a lease of any value; answers "remains unmerged" exactly if not merged or without a lease, and "remains merged" or "unmerged now" by whether it is merged afterwards. |
| `ThreadMerger.MergerStepKeepsInv` | engine-master/fml/gpu_thread_merger.cc:23-72 | Every legal step keeps: merged exactly while the platform queue owns the gpu queue, and then with a positive lease. |
| `ThreadMerger.CheckNeverFails` | engine-master/fml/gpu_thread_merger.cc:61-66 | From distinct unmerged queues, in every reachable state, the lease is positive when merged and the unmerge cannot fail. |
| `ThreadMerger.StatusIff` | engine-master/fml/gpu_thread_merger.cc:51-72 | In every reachable state, a decrement answers "remains merged" iff the platform queue owned the gpu queue and still does, "unmerged now" iff it did and no longer does, "remains unmerged" iff it did not. |
| `ThreadMerger.StatusOfAnyLease` | engine-master/fml/gpu_thread_merger.cc:51-72 | For any lease: "remains unmerged" iff not merged or no lease is set; "unmerged now" iff merged with a lease of 1; otherwise the lease is counted down. |
| `ThreadMerger.MergedMeansOwned` | engine-master/fml/gpu_thread_merger.cc:23-29 | Whether the registry grants or refuses the merge, the merger then knows whether the platform queue owns the gpu queue, and when it is granted is stated by the queues' partners. |
| `ThreadMerger.FoundMergedStays` | engine-master/fml/gpu_thread_merger.cc:19-29 | A merger that finds its queues merged when it is made stays so and without a lease over every run, and no decrement unmerges. |
| `ThreadMerger.LeasePositiveIff` | engine-master/fml/gpu_thread_merger.cc:26-27 | A merge leaves a positive lease if and only if the low 32 bits of the term are a positive `int`. |
| `ThreadMerger.UnmergesAtTermIff` | engine-master/fml/gpu_thread_merger.cc:51-72 | After a merge for any term, among any steps of others, a decrement unmerges if and only if it is number `term % 2^32` and that is neither 0 nor 2^32 - 1; in those two cases the pair stays merged. |
| `ThreadMerger.HalfRoundWraps` | engine-master/fml/gpu_thread_merger.cc:61-63 | A term of 2^31 is stored as the least `int`, on which the source's check fails; the next decrement makes it the greatest, and the pair stays merged. |
| `ThreadMerger.WholeRoundFailsCheck` | engine-master/fml/gpu_thread_merger.cc:61-62 | A term of 2^32 is a lease of zero, on which the source's check fails. |
| `ThreadMerger.AllOnesIsNoLease` | engine-master/fml/gpu_thread_merger.cc:57-59 | A term of 2^32 - 1 reads as no lease: the pair is merged, and every decrement says it is not and changes nothing. |
| `ThreadMerger.BigExtensionIgnored` | engine-master/fml/gpu_thread_merger.cc:42-44 | An extension to 2^31 is ignored. |
| `ThreadMerger.RasterizesWhereGpuTasksRun` | engine-master/fml/gpu_thread_merger.cc:31-38 | In every reachable state the rasterizing thread is the one whose loop runs the gpu queue's tasks. |
| `ThreadMerger.LeaseIsLongestPromise` | engine-master/fml/gpu_thread_merger.cc:40-45 | While merged, the lease is positive and the longest of all promises made, each counted down by the decrements since. |
| `ThreadMerger.LongestPromiseIff` | engine-master/fml/gpu_thread_merger.cc:23-45 | It is so throughout a session, whatever the terms, if and only if every term promised is an `int`. |
| `ThreadMerger.UnmergedExactlyWhenPromisesEnd` | engine-master/fml/gpu_thread_merger.cc:63-69 | A decrement reports unmerging exactly when it ends the last outstanding promise. |
| `ThreadMerger.RunsTasksOnCurrentThread` | engine-master/fml/task_runner.cc:42-63 | True exactly when the calling thread has a loop and that loop serves the runner's queue. |
| `WorkerPool.ApplyKeepsInv` | engine-master/fml/concurrent_message_loop.cc:46-102 | Every step of every thread keeps the invariant of RunInv. |
| `WorkerPool.RunInv` | engine-master/fml/concurrent_message_loop.cc:46-102 | Over every interleaving: posted tasks are those taken in order, those queued, and those run by callers; taken tasks are finished or running; no wake-up is lost; after shutdown nobody sleeps; a worker exits only when shut down and drained. |
| `WorkerPool.QueuedWorkIsServed` | engine-master/fml/concurrent_message_loop.cc:46-71 | With work queued some worker is not asleep or a notification is still owed. |
| `WorkerPool.WorkStep` | engine-master/fml/concurrent_message_loop.cc:73-96 | Every step of the pool itself lowers a measure that only posts, spurious wake-ups and termination raise. |
| `WorkerPool.WorkIsBounded` | engine-master/fml/concurrent_message_loop.cc:73-96 | Over any run the pool's own steps are bounded by the work supplied: workers never spin. |
| `WorkerPool.RestMeansAllRun` | engine-master/fml/concurrent_message_loop.cc:73-96 | When no step is possible, every task posted has been run by a worker or its caller, and all workers sleep, or all have exited after shutdown. |
| `WorkerPool.DrainStep` | engine-master/fml/concurrent_message_loop.cc:98-102 | After shutdown every step of the pool lowers the measure, and callers no longer raise it. |
| `WorkerPool.DrainIsBounded` | engine-master/fml/concurrent_message_loop.cc:31-36 | After shutdown the drain ends within a number of steps fixed at the start, however posts interleave. |
| `WorkerPool.ExitMeansDrained` | engine-master/fml/concurrent_message_loop.cc:79-83 | Once a worker has exited the queue is empty and stays so, and no task is taken any more. |
| `WorkerPool.WorkersStay` | engine-master/fml/concurrent_message_loop.cc:20-29 | In every state of every run there are as many workers as were asked for, and at least one. |
| `WorkerPool.AtOnceIff` | engine-master/fml/concurrent_message_loop.cc:20-29 | A state in which k workers run tasks at once can be reached if and only if k is at most that number. |
| `WorkerPool.ConcurrentMessageLoop.constructor` | engine-master/fml/concurrent_message_loop.cc:20-29 | Starts as many workers as are asked for, and at least one, all about to look for work. |
| `WorkerPool.ConcurrentMessageLoop.PostTask` | engine-master/fml/concurrent_message_loop.cc:46-68 | Takes a post step; the caller runs the task itself exactly if the loop is shut down. |
| `WorkerPool.ConcurrentMessageLoop.NotifyOneWorker` | engine-master/fml/concurrent_message_loop.cc:70 | Delivers a notification owed, to a sleeping worker if there is one. |
| `WorkerPool.ConcurrentMessageLoop.WorkerTurn` | engine-master/fml/concurrent_message_loop.cc:75-90 | One critical section of a worker: it takes the oldest task, goes to sleep, or exits. |
| `WorkerPool.ConcurrentMessageLoop.FinishTask` | engine-master/fml/concurrent_message_loop.cc:94 | A worker finishes its task and looks again. |
| `WorkerPool.ConcurrentMessageLoop.Terminate` | engine-master/fml/concurrent_message_loop.cc:98-102 | Sets shutdown and wakes every sleeper, in one step. |
| `BitConverters.AppendBits` | engine-master/fml/base32.h:18-23 | Or-ing shifted bits into the buffer enqueues them behind the pending bits. |
| `BitConverters.ExtractBits` | engine-master/fml/base32.h:25-31 | The top bits are the oldest pending bits, and shifting under the mask dequeues them. |
| `BitConverters.PeekBits` | engine-master/fml/base32.h:33 | With fewer bits pending than asked for, peeking pads them with zeros. |
| `BitConverters.PeekZero` | engine-master/fml/base32.h:33 | A peek is zero exactly when all pending bits are. |
| `BitConverters.ShiftFitsIff` | engine-master/fml/base32.h:28 | However many bits are pending when bits are extracted, no buffer is shifted out of a 32-bit `int` if and only if the two lengths add up to at most 31. |
| `BitConverters.BitConverter.constructor` | engine-master/fml/base32.h:38-46 | Starts with no bits pending. |
| `BitConverters.BitConverter.Append` | engine-master/fml/base32.h:18-23 | Enqueues the bits of a non-negative value; a negative one, which the check lets through, makes the buffer negative. |
| `BitConverters.BitConverter.Extract` | engine-master/fml/base32.h:25-31 | Dequeues the oldest bits and returns their value. |
| `Base32.TablesInverse` | engine-master/fml/base32.cc:45-52 | A character decodes to a digit exactly when the digit encodes to it. |
| `Base32.Base32Encode` | engine-master/fml/base32.cc:14-43 | The text spells the bits of the input with fewer than five zero bits added; it succeeds if and only if the input is not too long and, where `char` is signed, does not start with a byte of 0x80 or more, which reads the table at a negative index. |
| `Base32.EncodeRest` | engine-master/fml/base32.cc:31-40 | From the first byte on, loop and trailing letter complete the spelling. |
| `Base32.Base32Decode` | engine-master/fml/base32.cc:54-73 | The bytes are those the text spells up to the first character outside the alphabet; success means there is none and the bits left over are zero. |
| `Base32.ShiftIn` | engine-master/fml/base32.cc:63-66 | Takes in five bits, and puts out a byte once there are eight. |
| `Base32.EncodedLength` | engine-master/fml/base32.cc:24 | The text has exactly (8n + 4) / 5 letters. |
| `Base32.EncodesNumber` | engine-master/fml/base32.cc:27-40 | The text is the bytes, as one number to base 256 with fewer than five zero bits behind it, written to base 32. |
| `Base32.DecodesNumber` | engine-master/fml/base32.cc:54-73 | The bytes are the letters up to the first other character, as one number to base 32, without the bits too few for a byte; the text is accepted iff there is no other character and those bits are zero. |
| `Base32.SpellsUnique` | engine-master/fml/base32.cc:14-43 | At most one text spells given bytes. |
| `Base32.DecodesUnique` | engine-master/fml/base32.cc:54-73 | At most one outcome of decoding fits a text. |
| `Base32.DecodeEncode` | engine-master/fml/base32.cc:14-73 | Decoding an encoding succeeds and gives the bytes back. |
| `Base32.EncodeDecode` | engine-master/fml/base32.cc:54-73 | Re-encoding an accepted text gives it back exactly if its length modulo 8 is 0, 2, 4, 5 or 7; otherwise the text has one `A` more. |
| `Base32.EncodeThenDecode` | engine-master/fml/base32.cc:14-73 | For every byte string: encoding fails exactly in those two cases; otherwise the text has (8n + 4) / 5 letters, and decoding it succeeds with the same bytes. |
| `Base32.DecodeThenEncode` | engine-master/fml/base32.cc:14-73 | For every accepted text, the same bytes are encoded as the same text exactly if its length modulo 8 is 0, 2, 4, 5 or 7. |
| `Base32.PaddingAccepted` | engine-master/fml/base32.cc:68-72 | Any text that spells bytes with fewer than eight zero bits added is accepted as those bytes. |
| `Base32.SingleLetterIsLost` | engine-master/fml/base32.cc:68-72 | "A" is accepted as no bytes, which are encoded as no letters. |
| `MatrixDecompositions.Normalize` | engine-master/flow/matrix_decomposition.cc:32-38 | Where the root taken is right and not zero, the result is the unit vector along the argument. |
| `MatrixDecompositions.GramSchmidt` | engine-master/flow/matrix_decomposition.cc:88-128 | Where the three roots taken are right and not zero, rows, scales and shears decompose the columns: orthonormal right-handed rows even after the flip, scales of one sign, columns rebuilt exactly. |
| `MatrixDecompositions.SqrtServes` | engine-master/flow/matrix_decomposition.cc:88-111 | For every non-singular matrix the three roots are of positive numbers: no division is by zero. |
| `MatrixDecompositions.OrthonormalHasRoots` | engine-master/flow/matrix_decomposition.cc:88-111 | For rotations and reflections, only the root of one is needed. |
| `MatrixDecompositions.DetIsProduct` | engine-master/flow/matrix_decomposition.cc:118-128 | The determinant is the product of the scales. |
| `MatrixDecompositions.DecompositionUnique` | engine-master/flow/matrix_decomposition.cc:88-128 | A matrix has at most one such decomposition. |
| `MatrixDecompositions.DivideByLast` | engine-master/flow/matrix_decomposition.cc:45-49 | Every element is divided by the original last one, although that is rewritten by the same loop. |
| `MatrixDecompositions.PerspectiveDeterminant` | engine-master/flow/matrix_decomposition.cc:51-58 | The determinant compared with zero is that of the upper left 3x3 matrix. |
| `MatrixDecompositions.Factor` | engine-master/flow/matrix_decomposition.cc:62-128 | From the divided matrix: translation is its last column, the parts decompose its other three. |
| `MatrixDecompositions.Decompose` | engine-master/flow/matrix_decomposition.cc:40-128 | Valid if and only if the last element and the upper left determinant are not zero; then translation and parts are those of the matrix divided by its last element. |
| `CommandLines.OptionOfArg` | engine-master/fml/command_line.cc:112-123 | An option with a proper name, written as an argument, is read back as that option. |
| `CommandLines.NameOfOption` | engine-master/fml/command_line.cc:112-123 | Every name that parsing produces is non-empty with no '=' after its first character. |
| `CommandLines.CommandLineBuilder.constructor` | engine-master/fml/command_line.h:147-173 | Starts with nothing processed. |
| `CommandLines.CommandLineBuilder.ProcessArg` | engine-master/fml/command_line.cc:83-124 | Processes one argument, and says whether it is the first positional one. |
| `CommandLines.CommandLineBuilder.Build` | engine-master/fml/command_line.cc:126-130 | Gives what was processed, or the empty line without a program name. |
| `CommandLines.BuilderParses` | engine-master/fml/command_line.cc:83-130 | Argument by argument, the builder computes the reference parse: program name, longest run of options, the rest without the "--" that ends them. |
| `CommandLines.FromIterators` | engine-master/fml/command_line.h:181-196 | The parse of `argv`, and an index at which the rest of `argv` is exactly the positional arguments. |
| `CommandLines.ParseIff` | engine-master/fml/command_line.cc:83-124 | A line is the parse of an argv if and only if the text reads so: the program name; for each option an argument "--name=value", or "--name" for no value; then "--" and the positional arguments, or positional arguments of which the first does not begin with "--". |
| `CommandLines.CommandLineToArgv` | engine-master/fml/command_line.cc:134-164 | Prints program name, options and positional arguments, behind "--" where the first would be taken for an option. |
| `CommandLines.ParseIsPrintable` | engine-master/fml/command_line.cc:83-130 | Every parsed line can be printed. |
| `CommandLines.ParsePrint` | engine-master/fml/command_line.cc:134-164 | Parsing the print of a line with proper option names gives the line. |
| `CommandLines.ParsePrintIff` | engine-master/fml/command_line.cc:134-164 | It gives the line if and only if every option name is proper. |
| `CommandLines.ParsePrintParse` | engine-master/fml/command_line.cc:134-164 | For every `argv`, parsing, printing and parsing again is parsing. |
| `CommandLines.PrintIsShortest` | engine-master/fml/command_line.cc:146-161 | Of all argv that parse to a line, the one printed is the shortest, and the only one of that length. |
| `CommandLines.EqualsInNameIsCut` | engine-master/fml/command_line.cc:115-123 | An option named "a=b" comes back named "a". |
| `CommandLines.IndexDetermined` | engine-master/fml/command_line.h:100-106 | The index follows from the options, so equality need not compare it. |
| `CommandLines.IndexOptions` | engine-master/fml/command_line.cc:22-31 | The index holds exactly the names given, each at its last occurrence. |
| `CommandLines.HasOption` | engine-master/fml/command_line.cc:39-46 | The last occurrence of the C string at the start of the view, or that there is none. |
| `CommandLines.GetOptionValues` | engine-master/fml/command_line.cc:57-65 | All values given for the name viewed, in order. |
| `CommandLines.ValuesCount` | engine-master/fml/command_line.cc:57-65 | There are as many values as occurrences of the name. |
| `CommandLines.ValueAt` | engine-master/fml/command_line.cc:57-65 | The values stand in the order of the occurrences. |
| `CommandLines.LastOfValues` | engine-master/fml/command_line.cc:48-65 | The value at the last occurrence is the last of all values. |
| `CommandLines.NoValues` | engine-master/fml/command_line.cc:57-65 | There are no values exactly if the name does not occur. |
| `CommandLines.GetOptionValue` | engine-master/fml/command_line.cc:48-55 | The last of all values given for that C string, or missing if there are none. |
| `CommandLines.GetOptionValueWithDefault` | engine-master/fml/command_line.cc:67-74 | The last of all values given for that C string, or the default if there are none. |
| `CommandLines.LookupAgreesIff` | engine-master/fml/command_line.cc:39-65 | Lookup gives the last of all values of the name viewed, for all options, if and only if the view holds no NUL and is directly followed by one. |
| `CommandLines.PartialViewMisses` | engine-master/fml/command_line.cc:40 | For the view of length 3 on "foobar", the values are those of "foo", and the value looked up is that of "foobar". |
| `PowersOfTwo.SmearStep` | engine-master/fml/message.cc:26-30 | One shift-and-or lengthens the run of ones below the highest bit by as much as it is long, or to the end. |
| `PowersOfTwo.NextPowerOfTwoSize` | engine-master/fml/message.cc:19-33 | The least power of two not below the argument, and zero where that does not fit 32 bits. |
| `PowersOfTwo.PowerAboveIs` | engine-master/fml/message.cc:19-33 | The reference is a power of two, less than twice its argument. |
| `PowersOfTwo.PowerAboveLeast` | engine-master/fml/message.cc:19-33 | No smaller power of two will do. |
| `Messages.RoundedCoversIff` | engine-master/fml/message.cc:51-56 | The size asked for, cut to 32 bits and rounded, covers the request if and only if that is at most 2^31. |
| `Messages.CapacityIsDataIff` | engine-master/fml/message.cc:99-106 | Capacity and data length agree if and only if the length is zero or a power of two. |
| `Messages.CapacityGrows` | engine-master/fml/message.cc:58-87 | A request beyond the capacity makes it grow; one within it leaves it the least power of two for the new length. |
| `Messages.AppendedIff` | engine-master/fml/message.cc:51-97 | Of all outcomes of encoding, the bytes are appended if and only if the message stays within 2^31 bytes and memory, where needed, can be had. |
| `Messages.BeyondLimit` | engine-master/fml/message.cc:51-87 | Between 2^31 and 2^32 bytes: with a buffer the check on growing fails; without one, a buffer of no bytes is had and overrun, or memory is not had. |
| `Messages.CutSize` | engine-master/fml/message.cc:51-87 | From 2^32 bytes on: what happens to the size cut to 32 bits, by whether it rounds to more than the buffer holds. |
| `Messages.Message.constructor` | engine-master/fml/message.cc:15 | Starts empty, without a buffer. |
| `Messages.Message.Resize` | engine-master/fml/message.cc:58-87 | Enlarges the buffer and keeps its bytes, or fails and changes nothing. |
| `Messages.Message.Reserve` | engine-master/fml/message.cc:51-56 | Leaves the buffer at the rounded size, growing only if needed; required is only what Resize checks. |
| `Messages.Message.Encode` | engine-master/fml/message.h:88-96 | For every value: appends its bytes, keeping the capacity the least power of two, if and only if the message stays within 2^31 bytes and memory can be had; otherwise changes nothing for want of memory, or fails the check on growing, or would overrun the buffer. |
| `Messages.Message.Decode` | engine-master/fml/message.h:131-139 | Returns the next bytes and moves on, exactly if the capacity has that many; within the data they are the bytes written. |
| `Messages.Message.ResetRead` | engine-master/fml/message.cc:108-110 | Reading starts over. |
| `Messages.Message.EncodeAll` | engine-master/fml/message.h:20-23 | Encodes values in order: the contents grow by their bytes; it succeeds if memory can be had. |
| `Messages.Message.DecodeAll` | engine-master/fml/message.h:30-33 | Where values were written, reading their sizes gives those values. |
| `Messages.RoundTrip` | engine-master/fml/message.h:68-69 | Any values of up to 2^31 bytes in all come back in order, everything has then been read, and the buffer is the least power of two that holds them. |
| `Messages.DecodePointer` | engine-master/fml/message.h:146-179 | Reads the flag as "is null": a flag that is not zero leaves the target as it was; behind a zero, the tag and as many bytes as the object made for it reads are the result, if the capacity has them and an object is made; otherwise it fails and leaves the target as it was. |
| `Messages.PointerBytes` | engine-master/fml/message.h:102-129 | What is written for a pointer: a flag, zero for null; behind a one, the tag and then the body. |
| `Messages.PointerRoundTrip` | engine-master/fml/message.h:102-179 | An owned object, with or without a body, written and read back, is right exactly if the target held it before. |
| `Layers.VisitedIff` | engine-master/flow/layers/container_layer.cc:29-54 | The leaf at a path is visited seeing certain clips, mutators, elevation and opacity exactly when no layer on the path turns preroll away and those are the fold over the layers on it; siblings do not matter. |
| `Layers.VisitsInOrder` | engine-master/flow/layers/container_layer.cc:36-51 | Leaves are visited from left to right: where the paths of two of them part, the earlier one takes the earlier child. |
| `Layers.VisitsOnce` | engine-master/flow/layers/container_layer.cc:36-51 | No path is visited twice. |
| `Layers.ElevationBounded` | engine-master/flow/layers/elevated_container_layer.cc:10-25 | However elevations add up, no visited leaf is above the physical depth of the frame. |
| `Layers.ElevationAddsUp` | engine-master/flow/layers/elevated_container_layer.cc:32-47 | Without a physical depth, a leaf's elevation is the root's plus the sum of those on its path. |
| `Layers.ClampedElevation` | engine-master/flow/layers/elevated_container_layer.cc:10-47 | With one, whatever the elevations, it is the smaller of that sum and the depth less the deepest dip that the layers further down the path add up to. |
| `Layers.ClampedOnce` | engine-master/flow/layers/elevated_container_layer.cc:10-47 | Where no elevation is negative there is no dip: clamping at every layer is clamping the sum once. |
| `Layers.InnerContainer` | engine-master/flow/layers/opacity_layer.cc:35-47 | What is added to an opacity layer is one index further down, in its inner container, and is visited exactly as if it were a direct child, seeing the same. |
| `Layers.PathNarrows` | engine-master/flow/layers/clip_rect_layer.cc:14-30 | At every path: the mutators of the layers passed in order, a cull rectangle holding exactly the points of the root's that are in all clips among them, and opaqueness exactly if root and all opacities among them are opaque. |
| `Layers.VisitedIffShared` | engine-master/flow/layers/clip_rect_layer.cc:14-30 | A leaf is visited if and only if there is no clip above it, or the clips above it, each in its own coordinates, and the cull rectangle have a point in common. |
| `Layers.CullingIsSafe` | engine-master/flow/layers/clip_rect_layer.cc:14-30 | Where no clip is below a layer that moves it, a leaf that shows a point of the cull rectangle is visited. |
| `Layers.MovedClipIsLost` | engine-master/flow/layers/opacity_layer.cc:49-64 | A tree in which an opacity layer moves a clip, and a leaf that shows a point is not visited. |
| `Layers.BoundsCover` | engine-master/flow/layers/container_layer.cc:47 | A point that a visited leaf shows lies in the paint bounds of every layer above it. |
| `Layers.BoundsIff` | engine-master/flow/layers/clip_rect_layer.cc:14-30 | Paint bounds, point by point: a leaf's own bounds, none for an opaque child scene; none where the clip misses the cull rectangle; otherwise those the children have together, moved by the layer's offset and cut to its clip. |
| `Layers.ChildBoundsLeast` | engine-master/flow/layers/container_layer.cc:36-51 | What the children have together is the least rectangle that holds the bounds of every child. |
| `Layers.PaintCovers` | engine-master/flow/layers/container_layer.cc:56-66 | Skipping empty bounds loses nothing: a visited leaf that shows a point is painted, at its own place in the tree. |
| `Layers.ShownIsPainted` | engine-master/flow/layers/container_layer.cc:56-66 | What shows in the cull rectangle is painted, where no clip is moved. |
| `Layers.ShownIsPaintedIff` | engine-master/flow/layers/container_layer.cc:29-66 | In general, a leaf that shows a point is painted if and only if there is no clip above it, or those clips, each in its own coordinates, and the cull rectangle have a point in common. |
| `Layers.PaintedIsVisited` | engine-master/flow/layers/container_layer.cc:56-66 | What is painted at a path is the leaf there, and was visited. |
| `Layers.PaintedIff` | engine-master/flow/layers/container_layer.cc:56-66 | A leaf is painted if and only if it is visited and every layer on the way to it has something in its bounds. |
| `Layers.PaintedAsVisited` | engine-master/flow/layers/container_layer.cc:61-65 | The paths painted are a subsequence of the paths visited. |
| `Layers.PaintedInOrder` | engine-master/flow/layers/container_layer.cc:61-65 | Painting goes from left to right and paints no leaf twice. |
| `Layers.CompositeIff` | engine-master/flow/layers/container_layer.cc:44-46 | A layer needs the system compositor exactly if a child scene below it is visited. |
| `Layers.EmbedderIsHanded` | engine-master/flow/layers/platform_view_layer.cc:24-32 | As many views are handed over as are visited, each in its turn, with its id and the mutators of the layers on its own path. |
| `Layers.ReadsBackIff` | engine-master/flow/layers/layer.cc:30-56 | The surface has to be read back if and only if preroll meets a backdrop filter with no save layer between. |
| `LayerPreroll.AfterIff` | engine-master/flow/layers/platform_view_layer.cc:14-33 | A whole tree gives back all that is inherited; raises the flag for platform views iff there is an embedder and a view is visited; asks for read-back iff it was asked for or ReadsBackIff says so; hands nothing over without an embedder. |
| `LayerPreroll.AfterPush` | engine-master/flow/layers/container_layer.cc:35-53 | Clearing the platform view flag before each child and joining the flags gives the flag of all children. |
| `LayerPreroll.Preroll` | engine-master/flow/layers/layer.h:45-69 | Gives back cull rectangle, mutators, elevation and opacity; adds exactly what the visited leaves contribute; and leaves the tree with the bounds and flags of the specification. |
| `LayerPreroll.PrerollChildren` | engine-master/flow/layers/container_layer.cc:29-54 | The loop does so for a list of children, joins their bounds, and never meets a set flag at its start. |
| `LayerPreroll.PrerollContainer` | engine-master/flow/layers/container_layer.cc:15-21 | A container is its children. |
| `LayerPreroll.PrerollClip` | engine-master/flow/layers/clip_path_layer.cc:20-37 | A clip layer whose clip misses the cull rectangle visits nothing; otherwise clip and save layer are undone behind its children. |
| `LayerPreroll.PrerollClipped` | engine-master/flow/layers/clip_rrect_layer.cc:14-31 | Children see the clip; bounds are cut to it; cull rectangle and mutators are given back. |
| `LayerPreroll.PrerollSaveLayer` | engine-master/flow/layers/layer.cc:30-56 | A save layer keeps its children's read-back from the surface, and adds its own. |
| `LayerPreroll.PrerollElevated` | engine-master/flow/layers/elevated_container_layer.cc:32-47 | Children see the clamped elevation; the elevation is given back. |
| `LayerPreroll.PrerollOpacity` | engine-master/flow/layers/opacity_layer.cc:49-72 | Children see offset and opacity; bounds are moved by the offset; a save layer keeps read-back from the surface; all is given back. |
| `LayerPreroll.PrerollOpacityBase` | engine-master/flow/layers/opacity_layer.cc:18-27 | Children see the opacity; mutators and opaqueness are given back. |
| `LayerPreroll.PrerollSystemComposited` | engine-master/flow/layers/fuchsia_system_composited_layer.cc:14-24 | Children see opacity and clamped elevation; all is given back. |
| `LayerPreroll.PrerollLeaf` | engine-master/flow/layers/platform_view_layer.cc:14-33 | A platform view hands its mutators to the embedder, if there is one, and raises the flag. |
| `LayerPreroll.Paint` | engine-master/flow/layers/clip_rect_layer.cc:44-62 | Draws, in order and once each, exactly the leaves that PaintedIff and PaintedInOrder speak of. |
| `LayerPreroll.PaintChildren` | engine-master/flow/layers/container_layer.cc:56-66 | The same for a list of children, passing over those with empty bounds. |
| `RasterCaching.CountIff` | engine-master/flow/raster_cache.h:112-127 | A key has been counted n times exactly if there is a stretch, without a clear and without a frame lacking the key, in which it was. |
| `RasterCaching.StartIsLeast` | engine-master/flow/raster_cache.h:112-127 | The stretch since the key was last absent is the longest without a clear and without a frame lacking the key. |
| `RasterCaching.ImageIff` | engine-master/flow/raster_cache.cc:222-226 | There is an image if and only if the last rasterisation of the key in that stretch succeeded. |
| `RasterCaching.TracksPush` | engine-master/flow/raster_cache.cc:211-226 | After every change, entries are what the history says: present since last absent, used in this frame, counted up to the threshold, with or without a valid image. |
| `RasterCaching.FrameWithinLimit` | engine-master/flow/raster_cache.cc:194-196 | No stretch without a sweep has more rasterisations than the limit, even across a clear. |
| `RasterCaching.RasterisedOncePerStreak` | engine-master/flow/raster_cache.cc:222-226 | A picture validly rasterised is rasterised again only after it has been absent. |
| `RasterCaching.RasterCache.constructor` | engine-master/flow/raster_cache.h:129-134 | Starts empty. |
| `RasterCaching.RasterCache.Prepare` | engine-master/flow/raster_cache.cc:188-228 | True exactly if the call is counted and the key has reached a threshold above zero; it then rasterises exactly if there is no valid image, and there is one afterwards exactly if there was or a surface could be had. |
| `RasterCaching.RasterCache.CountKey` | engine-master/flow/raster_cache.cc:213-215 | Finds or makes the entry and counts the access. |
| `RasterCaching.RasterCache.Get` | engine-master/flow/raster_cache.cc:230-235 | There is an image exactly if the last rasterisation since the key was absent succeeded. |
| `RasterCaching.RasterCache.SweepAfterFrame` | engine-master/flow/raster_cache.cc:243-250 | Evicts what was not used in the frame and starts a new one. |
| `RasterCaching.RasterCache.Clear` | engine-master/flow/raster_cache.cc:252-255 | Evicts everything, and leaves the count of the frame. |
| `RasterCaching.SweepOneCache` | engine-master/flow/raster_cache.h:112-127 | Exactly the used entries survive, marked unused. |
| `UnrefQueues.ApplyKeepsInv` | engine-master/flow/skia_gpu_object.cc:24-50 | Every step keeps the invariant of RunInv. |
| `UnrefQueues.RunInv` | engine-master/flow/skia_gpu_object.cc:24-50 | Over every interleaving: objects waiting have a drain task on its way; every object handed in is waiting, being drained or released; tasks outstanding are at most one more than direct drains. |
| `UnrefQueues.RestMeansReleased` | engine-master/flow/skia_gpu_object.cc:20-22 | With no drain task left or under way, everything handed in has been released as often as handed in, and the queue is empty. |
| `UnrefQueues.SerialRunOrdered` | engine-master/flow/skia_gpu_object.cc:34-45 | Where drains do not overlap, released, being drained and waiting are together the calls to Unref, in order. |
| `UnrefQueues.ReleasedInOrderIff` | engine-master/flow/skia_gpu_object.cc:34-45 | Distinct objects are released in the order handed in if and only if every release is the oldest drain's. |
| `UnrefQueues.OverlapLosesOrder` | engine-master/flow/skia_gpu_object.cc:43-45 | A run with overlapping drains that releases out of order. |
| `UnrefQueues.SkiaUnrefQueue.constructor` | engine-master/flow/skia_gpu_object.cc:12-18 | Starts empty with no drain pending. |
| `UnrefQueues.SkiaUnrefQueue.Unref` | engine-master/flow/skia_gpu_object.cc:24-32 | Takes an Unref step: queues the object, and posts a drain task if none is pending. |
| `UnrefQueues.SkiaUnrefQueue.Drain` | engine-master/flow/skia_gpu_object.cc:34-50 | Is a run of steps that releases exactly what was waiting, in order, and asks for a cleanup if there is a context and there was anything. |
| `UnrefQueues.SkiaUnrefQueue.ReleaseAll` | engine-master/flow/skia_gpu_object.cc:43-45 | Releases the objects taken, one step each. |

## Left out

- Interleavings inside one registry call, and the lock structure of the registry: each public method is one atomic step.
- The binary heap inside `std::priority_queue`: a heap is a multiset with a least element.
- Task observers, which a loop calls between tasks, and what the closures of tasks do.
- TaskQueues.MessageLoopTaskQueues.Dispose: requires a queue that is not subsumed, as the source's own check demands.
- TaskQueues.MessageLoopTaskQueues.DisposeTasks: requires a queue that is not subsumed, as the source's own check demands.
- TaskQueues.MessageLoopTaskQueues.SetWakeable: requires that no wakeable is set, as the source's own check demands.
- ThreadMerger.GpuThreadMerger.DecrementLease: requires that the unmerge can succeed when the lease ends, where the source aborts otherwise (CheckNeverFails shows that it can, in every run in which this merger alone merges and unmerges its queues).
- TaskQueues.MessageLoopTaskQueues.CreateTaskQueue: ids count up without bound; IdsCollideIff says how far they stand for the source's, which is for the first 2^32 - 1 queues.
- Threads of the worker pool as such: their critical sections are steps, and joining them is not modelled.
- Floating point: the matrix decomposition and elevations are in exact reals, without rounding.
- The quaternion and the perspective vector of the matrix decomposition, and the inversion whose failure is impossible for a non-zero determinant.
- Messages.Message.Reserve: requires what Resize checks, that a buffer only grows; Encode says when that fails.
- Messages.Message.Encode: requires at least one byte, as every C++ object has; sums of sizes are not taken modulo 2^64, and what a message holds after an overrun or a failed check is not modelled.
- Messages.Message.Decode: requires at least one byte to read, as every C++ object has.
- Layers as objects: a tree is a value, and the fields that preroll sets are returned in a second tree rather than written in place; a layer prerolled twice, whose bounds may be left over from before, is not modelled.
- Transform, physical shape, texture and performance overlay layers: they need matrices and Skia's geometry; the cull rectangle of a transform layer is computed by Skia.
- LayerPreroll.PrerollOpacity: the layer for other systems than Fuchsia, without the entry it makes for its child in the raster cache. Its children may be any; OpacityLayer builds the one that the source does, with a single inner container.
- LayerPreroll.PrerollSystemComposited: the layer itself; an opacity layer on Fuchsia adds an offset to it that is not modelled.
- Rectangles stand for Skia's `SkRect`, with `intersect` and `join` as Skia documents them.
- The layer half of the raster cache, its checkerboard setting, and what is drawn into an image.
- Scene updates, Vulkan, the Dart VM, platform views beyond preroll, tracing, file and network code: I/O and foreign calls.
