# Verified model of tcx

tcx is a C++20 library for asynchronous, event-driven I/O. This project models the bookkeeping
that decides who gets a callback, who owns it and when it dies, and proves properties of it for
every input, every interleaving and every sequence of calls.

Check the whole project with `dafny verify dfyconfig.toml` (Dafny 4.11).

## Components

**Semaphore and guard.** `SemaphoreProtocol` is `basic_semaphore` as a state machine over its
atomic steps (`fetch_sub`, post, enqueue, load, compare-and-exchange, `fetch_add`, dequeue) for any
number of threads, any initial count and any non-negative update. One parameter chooses how many
waiters a release wakes: `AsWritten` is the code (`-old` waiters when `old + update > 0`, none
otherwise); `Documented` is what the class comment promises (`min(update, max(0, -old))`).
The two differ: as written, a release that adds permits but leaves the counter at or below zero
wakes nobody, so those waiters stay. Neither is safe from a dequeue that comes before its waiter
has reached the queue, which the source asserts does not happen: then the wake-up is lost and that
waiter stays, even beside a free permit. `SemaphoreSafety` proves the balances that hold anyway,
counts the stranded waiters exactly, says exactly when there are none, and gives a run of each kind.
`SemaphoreRefinement` is a specification that keeps its waiters in a bag and serves every call at
once, except that a release only commits to a number of wake-ups and which waiter gets each is
settled when it is served; an execution, of either release, is one of that specification if and only
if none of the two things went wrong. `TryAcquire` proves that the exchange loop takes effect at one
instant, and bounds its failures.
`Semaphore` is the object, for calls that do not overlap; each object carries the execution of the
state machine that its method bodies perform. `Guard` is `unique_lock`, the object and the system of
guards over a shared semaphore; `unlock` returns the permit in one step and clears its pointer in
another. A dequeue that finds the queue empty is modelled as in a release
build: the assertion is skipped and an empty function is posted.

**unique_function.** `Layout` is the placement arithmetic of the 64-byte block. `CallableStore`
gives the memory (live callables by address, wrapper headers by address), ownership as an invariant,
and the net effect of `swap`. `Ownership` covers every sequence of operations. `UniqueFunction` is
the wrapper object and the operations statement by statement; a move-construction needs a live
source and free, aligned memory, and a destruction a live object of the right kind.
A wrapper may be swapped with itself as long as its callable is not inline. `Effects` says what each
operation does as a user sees it, and that it does nothing else.

**Execution contexts.** Tasks are finite spawn trees: a task posts its children while it runs and may
then throw. `ExecutionContext` is the unsynchronised queue, `SynchronizedContext` the shared queue
with any number of runners and posters. `RetainedCallables` runs the shared queue on the memory of
`CallableStore`: a function object in every cell and in every call of `run`, popped by the swap that
move-assignment is.

**io_uring completions.** `UringProtocol` and `UringLifecycle` follow a completion object through the
submission queue, the kernel, the completion queue and its calls. `Completion::invoke` deletes its
object only when the callback throws, while its comment says that the last entry deletes it either
way: both are modelled (`AsWritten`, `Intended`). `UringContext` is the unsynchronised context with
its loops. The results of `io_uring_submit` are compared as the code compares them: zero and
`EINTR` retry, `EBADR` aborts, everything else, positive counts included, is an error.

**poll_service.** `PollRegistry` holds the two parallel vectors as values; `PollService` is the object.
`async_poll_add` is modelled as written. So is the whole loop of `poll`, in `PollRegistry`: it runs off
the end of its vectors in its first round whenever anything is ready, because the distance from the
end, taken as an index, is one too many. Two more faults hide behind that one: it picks completion
`i`, and it looks at the first `res` entries only. `Poll` is the dispatch it intends: the whole
snapshot, with the mirror position that `async_poll_add` maintains.

**Arithmetic and parsing.** `Sleep` is the split of a duration into a timespec, `Clamp` the integer clamp
for every pair of widths and signednesses, `OpenMode` the mode-string parser.

## Model

| member | source | states |
|---|---|---|
| SemaphoreProtocol.StepKeepsInv | include/tcx/semaphore.hpp:82-126 | every atomic step of every thread keeps three balances: waiters nobody has answered for against the counter, permits against the history of read-modify-writes, deliveries against grants, with early dequeues as an item of their own |
| SemaphoreProtocol.StepConserves | include/tcx/semaphore.hpp:82-126 | a step creates, loses or duplicates no completion except the one it submits |
| SemaphoreProtocol.RunInv | include/tcx/semaphore.hpp:82-126 | the balances hold in every state of every run, for any number of threads and any initial count |
| SemaphoreSafety.NoOvergrant | include/tcx/semaphore.hpp:82-126 | permits granted + free + stranded = initial + released, in every reachable state; so never more granted than created |
| SemaphoreSafety.PostedAtMostOnce | include/tcx/semaphore.hpp:21-34 | each submission is posted at most once, and between calls is either posted or still queued |
| SemaphoreSafety.EmptyDequeueNeedsAcquirer | include/tcx/semaphore.hpp:120-122 | so a dequeue can find the queue empty only while another thread is between its decrement and its enqueue |
| SemaphoreSafety.EmptyDequeueIff | include/tcx/semaphore.hpp:120-122 | a dequeue that is due finds nothing if and only if those on their way into the queue are as many as the dequeues owed and everybody who is to go on waiting |
| SemaphoreSafety.AtomicCallsNeverMiss | include/tcx/semaphore.hpp:120-122 | the sanity assertion never fails when calls do not overlap |
| SemaphoreSafety.OverlappingCallsCanMiss | include/tcx/semaphore.hpp:120-122 | an overlapping acquire and release of two make it fail |
| SemaphoreSafety.LossMeaning | include/tcx/semaphore.hpp:116-119 | as written a release loses its whole update when it leaves the counter at or below zero and nothing otherwise; as documented never |
| SemaphoreSafety.ExactlyWhoWaits | include/tcx/semaphore.hpp:116-126 | as written, between calls the queue holds exactly the counter's deficit, the updates of releases that fell short and one waiter for each early dequeue |
| SemaphoreSafety.NobodyStrandedIff | include/tcx/semaphore.hpp:107-126 | between calls the queue matches the counter if and only if no dequeue came early and, as written, no positive release left the counter at or below zero |
| SemaphoreSafety.WrittenCanStrand | include/tcx/semaphore.hpp:116-119 | as written, one acquire and one release from zero leave a waiter in the queue with the counter at zero |
| SemaphoreSafety.DocumentedCanStrand | include/tcx/semaphore.hpp:116-126 | even as documented, a dequeue before the acquirer's enqueue ends in a waiter beside a free permit |
| SemaphoreSafety.UnitReleasesWakeNobody | include/tcx/semaphore.hpp:116-126 | as written, runs with unit releases only never wake an enqueued waiter |
| SemaphoreSafety.DocumentedStrandsNobody | include/tcx/semaphore.hpp:21-34 | as documented, the unanswered waiters are the deficit and the early dequeues in every state; and between calls, unless a dequeue came early, nobody waits beside a free permit |
| SemaphoreRefinement.SpecKeepsInv | include/tcx/semaphore.hpp:21-34 | the specification passes over no waiter while a permit is free, makes permits only by releases, and has each submission either waiting or served |
| SemaphoreRefinement.RunRefinesIff | include/tcx/semaphore.hpp:82-126 | for either release: an execution, seen through its real queue, threads and executor, is one of the specification if and only if no dequeue came early and, as written, no release fell short |
| SemaphoreRefinement.AmissIsNoCall | include/tcx/semaphore.hpp:116-126 | an early dequeue is no call of the specification at all, and a release that falls short is one that does nothing |
| SemaphoreRefinement.LaterMayOvertake | include/tcx/semaphore.hpp:119-124 | a completion submitted after a release can be served by it while the one that waited before stays |
| SemaphoreRefinement.DocumentedRefinesSpec | include/tcx/semaphore.hpp:82-126 | the documented semaphore is, step by step, an execution of the specification whenever no dequeue finds the queue empty, and always when calls do not overlap |
| TryAcquire.RefusalLinearises | include/tcx/semaphore.hpp:96-105 | a refusal implies the counter was at or below zero at an instant inside the call, which changed nothing |
| TryAcquire.SuccessTakesOne | include/tcx/semaphore.hpp:96-105 | a success decrements a positive counter in its last step, and no earlier step of the call changed it |
| TryAcquire.FailedExchangeIsCharged | include/tcx/semaphore.hpp:99-104 | a failed exchange is due to another thread's change of the counter since the value was seen |
| TryAcquire.FailuresAreCharged | include/tcx/semaphore.hpp:99-104 | within a call, exchanges fail at most as often as other threads change the counter |
| Semaphore.BasicSemaphore.constructor | include/tcx/semaphore.hpp:59-63 | starts with the desired count and no waiter |
| Semaphore.BasicSemaphore.AsyncAcquire | include/tcx/semaphore.hpp:82-89 | decrements; posts at once if a permit was free, stores otherwise |
| Semaphore.BasicSemaphore.TryAcquire | include/tcx/semaphore.hpp:96-105 | succeeds if and only if the counter was positive, and only then decrements |
| Semaphore.BasicSemaphore.SanityHolds | include/tcx/semaphore.hpp:121-122 | inside the loop of the only call in progress the queue is not empty |
| Semaphore.BasicSemaphore.Release | include/tcx/semaphore.hpp:116-126 | adds the update, and moves exactly as many waiters as the code sets out to wake from the queue to the executor, losing none |
| Semaphore.ObjectsCountExactly | include/tcx/semaphore.hpp:82-126 | an object's queue is its deficit plus what fell short, and its permits balance |
| Guard.UniqueLock.Adopt | include/tcx/async/locks/guard.hpp:32-36 | owns the semaphore without touching it |
| Guard.UniqueLock.TryToLock | include/tcx/async/locks/guard.hpp:38-42 | owns it if and only if a permit was free, and then has taken it |
| Guard.UniqueLock.Defer | include/tcx/async/locks/guard.hpp:44-48 | refers to the semaphore without owning it |
| Guard.UniqueLock.Release | include/tcx/async/locks/guard.hpp:55-58 | lets go of the semaphore and returns no permit |
| Guard.UniqueLock.Unlock | include/tcx/async/locks/guard.hpp:70-76 | returns the permit if there is one; afterwards owns nothing, so a second call is idle |
| Guard.UniqueLock.Destroy | include/tcx/async/locks/guard.hpp:78-81 | the destructor returns the permit if there is one |
| Guard.PermitsConserved | include/tcx/async/locks/guard.hpp:32-81 | initial count = free + stranded + lost to early dequeues + kept by guards + detached + granted but not wrapped, in every reachable state |
| Guard.MutualExclusion | include/tcx/async/locks/guard.hpp:32-81 | owners less those in the middle of `unlock`, with the detached permits, are at most the initial count; with one permit, ownership is exclusive among them |
| Guard.OwnersWithinIff | include/tcx/async/locks/guard.hpp:32-81 | with those in the middle of `unlock`, the owners are at most the initial count, and with one permit exclusive, if and only if at least as many permits are not kept by any guard |
| Guard.UnlockingOverlaps | include/tcx/async/locks/guard.hpp:70-76 | they need not be: as the permit is returned before the pointer is cleared, two guards can own the only permit for a moment |
| Guard.LetGoForGood | include/tcx/async/locks/guard.hpp:55-76 | a guard that has let go or begun to return its permit never has one again, so it returns its permit at most once |
| Layout.PlaceIsLeast | include/tcx/unique_function.hpp:88-99 | inline if and only if the type moves without throwing and some offset fits; then at the least such offset, the same in every wrapper; alignment of 64 or more always goes to the heap |
| Layout.PlaceIsRoom | include/tcx/unique_function.hpp:88-99 | in addresses: inline if and only if the type moves without throwing and some aligned address in the 40 bytes behind the 24 of the header leaves room for it; then at the least such address |
| Layout.RelocationIsAligned | include/tcx/unique_function.hpp:182-206 | the same offset in another wrapper or in the temporary block is aligned and in bounds |
| CallableStore.NoOverlap | include/tcx/unique_function.hpp:86-152 | no two live callables overlap, inline or on the heap |
| CallableStore.SwapKeepsWellFormed | include/tcx/unique_function.hpp:179-215 | after a swap every live callable still has exactly one owner, and inline data points into its own block |
| CallableStore.SwapExchanges | include/tcx/unique_function.hpp:179-215 | swap exchanges what the two wrappers would run, in every combination of inline, heap, unowned and empty, and changes no other |
| CallableStore.SwapTwice | include/tcx/unique_function.hpp:179-215 | swapping twice is the identity on the whole memory |
| Ownership.DoKeepsWellFormed | include/tcx/unique_function.hpp:38-224 | construction, move, assignment, call and destruction keep ownership whole |
| Ownership.LiveAsOwned | include/tcx/unique_function.hpp:156-224 | there are exactly as many live callables as wrappers that own one |
| Ownership.DoCounts | include/tcx/unique_function.hpp:156-224 | one more callable after a construction, one fewer after an owner dies, the same number after every move |
| Ownership.OwnershipForLife | include/tcx/unique_function.hpp:38-224 | over any sequence of operations the live callables are the constructed minus the destroyed ones, and none is left once every wrapper is gone |
| Effects.ContentMeaning | include/tcx/unique_function.hpp:31-35 | what a wrapper holds, by its header and the live objects: nothing, the address it refers to, or the type and state of the object it owns |
| Effects.EmptyEffect | include/tcx/unique_function.hpp:38-43 | a default wrapper holds nothing; no object and no other wrapper changes |
| Effects.ReferentEffect | include/tcx/unique_function.hpp:45-77 | the wrapper refers to exactly the given address; no object and no other wrapper changes |
| Effects.ObjectEffect | include/tcx/unique_function.hpp:85-152 | the wrapper owns the given callable, one more is live, it is in the storage at the least address with room or on the heap where the allocator said, and every other wrapper holds what it held |
| Effects.MoveNewEffect | include/tcx/unique_function.hpp:156-159 | the new wrapper holds what the source held and the source nothing; every other holds what it held |
| Effects.MoveAssignEffect | include/tcx/unique_function.hpp:163-167 | target and source have exchanged what they hold; every other holds what it held |
| Effects.CallEffect | include/tcx/unique_function.hpp:169-172 | no header and no object changes but the state of the one callable that ran; every other wrapper holds what it held |
| Effects.DeleteEffect | include/tcx/unique_function.hpp:217-224 | the wrapper's own object is gone and every other object and wrapper is as it was |
| UniqueFunction.Memory.Relocate | include/tcx/unique_function.hpp:188-193 | a move-construction paired with the destruction of its source, into free and aligned memory |
| UniqueFunction.Memory.SwapWords | include/tcx/unique_function.hpp:179-215 | the four-way recursive swap, on exactly the memory it needs, has the declared net effect and terminates |
| UniqueFunction.Memory.Swap | include/tcx/unique_function.hpp:179-215 | under ownership, swap of two distinct wrappers is the exchange, and of a wrapper with itself, its callable not being inline, changes nothing |
| UniqueFunction.SecondSourceIsLiveIff | include/tcx/unique_function.hpp:184-191 | with inline callables the second source is still live if and only if the two wrappers are distinct |
| UniqueFunction.Memory.NewEmpty | include/tcx/unique_function.hpp:38-43 | a default wrapper holds nothing and disturbs nothing |
| UniqueFunction.Memory.NewReferent | include/tcx/unique_function.hpp:45-77 | a wrapper of a reference or function pointer, null or not, refers to exactly that, owns nothing and disturbs nothing |
| UniqueFunction.Memory.NewObject | include/tcx/unique_function.hpp:85-152 | in-place construction puts the callable at the least address of the storage with room for it, if it moves without throwing and there is one, otherwise on the heap; the wrapper owns it, and every other holds what it held |
| UniqueFunction.Memory.MoveNew | include/tcx/unique_function.hpp:156-159 | the move constructor swaps with an empty wrapper: the new one holds what the source held, the source nothing |
| UniqueFunction.Memory.MoveAssign | include/tcx/unique_function.hpp:163-167 | move assignment is a swap: the source keeps what the target had; every other wrapper holds what it held |
| UniqueFunction.Memory.Call | include/tcx/unique_function.hpp:169-172 | runs what the wrapper holds; no header changes, and of the objects only the state of the one that ran |
| UniqueFunction.Memory.Delete | include/tcx/unique_function.hpp:217-224 | destroys exactly the owned callable, if any; every other object and wrapper is as it was |
| ExecutionContext.Rotate | src/execution_context.cpp:7-12 | trees at the front of the queue may give way to their children at the back without changing the breadth-first order |
| ExecutionContext.PopFront | src/execution_context.cpp:8-10 | popping the first task and posting its children at the back follows the breadth-first order |
| ExecutionContext.RunIsBreadthFirst | src/execution_context.cpp:4-14 | what a call executes, then the breadth-first order of what it leaves, is the breadth-first order of what it was given |
| ExecutionContext.ReturnsIff | src/execution_context.cpp:4-14 | `run` returns, with the number of all tasks of the forest, if and only if none of them throws |
| ExecutionContext.RunStopsAtFirst | src/execution_context.cpp:7-12 | the first task that throws is the last one executed; a call that returns executed none that throws |
| ExecutionContext.DrainIsBreadthFirst | src/execution_context.cpp:4-14 | however often exceptions interrupt it, repeated `run` executes exactly the breadth-first order |
| ExecutionContext.BreadthFirstIsWhole | src/execution_context.cpp:4-14 | the breadth-first order has every task of the forest, as often as it is there |
| ExecutionContext.UnsynchronizedExecutionContext.Post | include/tcx/unsynchronized_execution_context.hpp:22-26 | appends to the queue |
| ExecutionContext.UnsynchronizedExecutionContext.Run | src/execution_context.cpp:4-14 | the loop executes, leaves and returns what the specification says, and terminates |
| SynchronizedContext.PoppedOnceInOrder | include/tcx/synchronized_execution_context.hpp:24-36 | posts are the pops, in order, followed by the queue: every task is popped at most once, by one runner |
| SynchronizedContext.TasksAccounted | src/execution_context.cpp:16-27 | posted = queued + in hand + counted by runners + returned + lost with calls that threw |
| SynchronizedContext.EverySpawnedTaskRan | src/execution_context.cpp:16-27 | when all is quiet the tasks that have run are those of the forests posted from outside, each as often as it is there, and the counts add up to them |
| SynchronizedContext.StepsExactly | src/execution_context.cpp:16-27 | the number of steps of any run is settled by the tasks posted, the calls of `run`, the exceptions and what is still ahead |
| SynchronizedContext.CallsEnd | src/execution_context.cpp:20-25 | without further outside posts and calls, every step leaves fewer ahead, so every call of `run` ends |
| RetainedCallables.PopHandsOver | src/execution_context.cpp:21 | a pop gives the cell's callable to the runner's function object and destroys what that object owned, and no other |
| RetainedCallables.StepKeepsInv | src/execution_context.cpp:16-27 | in every step each cell owns its task's callable and each runner's function object the callable of its task, all distinct |
| RetainedCallables.AtMostOneKept | src/execution_context.cpp:19-22 | every popped callable is destroyed, except the one that a runner's function object still owns, which is that of the task it popped last |
| UringLifecycle.StepKeepsInv | include/tcx/services/uring_service.hpp:742-784 | every step of submission, kernel, reaping and completion keeps the life-cycle invariant |
| UringLifecycle.MemorySafe | include/tcx/services/uring_service.hpp:742-784 | an independent monitor accepts the whole history: nothing is used after being freed or freed twice, and nothing pending names a freed completion |
| UringLifecycle.ExactlyOnePlace | include/tcx/services/uring_service.hpp:766-784 | a live completion is once in exactly one of submission queue, kernel, pending last entry, running last call, leaked |
| UringLifecycle.FreedOnce | include/tcx/services/uring_service.hpp:742-777 | of the objects ever allocated at an address all have been freed once but the one there now |
| UringLifecycle.IntendedLeavesNothing | include/tcx/services/uring_service.hpp:748-757 | as the comment intends, no completion is left once everything was handled |
| UringLifecycle.WrittenLeavesNothingIff | include/tcx/services/uring_service.hpp:742-758 | as written, none is left if and only if the callback of every last entry threw |
| UringLifecycle.WrittenCanLeak | include/tcx/services/uring_service.hpp:752-758 | as written, one operation whose callback returns normally leaves its completion behind |
| UringLifecycle.OutOfOrderUsesFreed | include/tcx/services/uring_service.hpp:779-784 | handling the last entry of an operation before an earlier one makes the earlier one use a freed completion |
| UringLifecycle.OutOfOrderHappens | include/tcx/services/uring_service.hpp:779-784 | a run that reaps two entries of one operation, from which handling the last one first does that |
| UringLifecycle.ReapsInOrder | include/tcx/services/uring_service.hpp:846-866 | any sequence of batches delivers the posted entries in order, without loss or duplication, each the longest that fits |
| UringContext.Context.GetEntry | include/tcx/services/uring_service.hpp:825-844 | the submission loop retries on the answers 0 and 4 (`EINTR`), aborts on 53 (`EBADR`), fails on anything else, and otherwise ends with room in the queue |
| UringContext.Context.Submit | include/tcx/services/uring_service.hpp:766-777 | success queues the operation last and keeps its completion; an error frees it with nothing queued; otherwise it is allocated and not yet queued |
| UringContext.CopyOut | include/tcx/services/uring_service.hpp:855-862 | copies the longest prefix that fits and leaves the rest of the buffer alone |
| UringContext.Context.WaitMany | include/tcx/services/uring_service.hpp:846-866 | the kernel takes what it reports; the ring advances by exactly what was copied, and a non-zero result copies nothing |
| UringContext.Context.BeginComplete | include/tcx/services/uring_service.hpp:779-784 | the completion that a reaped entry names is live when it is called |
| UringContext.Context.EndComplete | include/tcx/services/uring_service.hpp:742-758 | after the callback, whatever it did meanwhile, the completion is still live, and is deleted exactly when the entry was the last and the callback threw |
| UringContext.Context.Complete | include/tcx/services/uring_service.hpp:742-784 | the two together, for a callback that makes no calls on the object |
| UringContext.Context.CompleteSubmitting | include/tcx/services/uring_service.hpp:742-784 | the two around a submission that the callback makes; when that one neither succeeds nor fails, the call is still in progress |
| PollRegistry.RowInContents | include/tcx/services/poll_service.hpp:48-49 | the descriptor at position `i` of `n` stands for itself, with its events and the completion at the mirror position `n - 1 - i` |
| PollRegistry.FoundIff | include/tcx/services/poll_service.hpp:21-22 | a descriptor is registered if and only if it is at its place in the sorted vector |
| PollRegistry.InsertionIsMapInsertion | include/tcx/services/poll_service.hpp:21-26 | the two parallel insertions are insertion into the map from descriptors to completions |
| PollRegistry.HandlerMeaning | include/tcx/services/poll_service.hpp:18-27 | what calling a handler does: registrations stay, every request that is not refused is added with its own entry up to the refusal that ends it, nothing else is, and it throws if and only if it is not lenient and a request is for a descriptor registered or asked for before |
| PollRegistry.HandledIsSettled | include/tcx/services/poll_service.hpp:18-27 | that leaves only one possible outcome |
| PollRegistry.ErasureIsMapRemoval | include/tcx/services/poll_service.hpp:38-42 | erasing a descriptor and the completion at its mirror position is removal from the map |
| PollRegistry.RoundEffect | include/tcx/services/poll_service.hpp:37-44 | a round, also one cut short by an exception, removes what fired, keeps the rest and adds only what callbacks asked for |
| PollRegistry.WrittenPollRunsOffIff | include/tcx/services/poll_service.hpp:29-45 | the whole loop as written runs off the end of its vectors if and only if something is ready |
| PollRegistry.WrittenPollFails | include/tcx/services/poll_service.hpp:37-42 | one registered and ready descriptor is enough |
| PollRegistry.DistanceErasesAnother | include/tcx/services/poll_service.hpp:39-42 | what that index would do alone at any later position: the predecessor's completion is lost, and the predecessor is left with the one that was due |
| PollRegistry.ScanIsDueIff | include/tcx/services/poll_service.hpp:32-37 | what the scan of `res` entries would do alone: it fires what is due if and only if the ready entries come first |
| PollService.LowerBound | include/tcx/services/poll_service.hpp:21 | binary search finds the place of a descriptor |
| PollService.Service.AsyncPollAdd | include/tcx/services/poll_service.hpp:18-27 | the descriptor is registered with its events and completion, at mirrored places of the two vectors, and refused without any change if and only if it is registered already |
| PollService.Service.Poll | include/tcx/services/poll_service.hpp:29-45 | intended dispatch: fires the ready entries in order with their own completions and events, each as a handler of what is registered at that moment, up to the first callback that throws; fires all and ends normally when no callback can throw |
| PollService.DueOnce | include/tcx/services/poll_service.hpp:37-44 | no descriptor is due twice in a round, and each firing is a ready entry's |
| PollService.RoundMeaning | include/tcx/services/poll_service.hpp:37-44 | what did not fire survives with its completion, and was not ready or comes after the callback that threw; every other registration was made by a callback that fired |
| PollService.RoundTrace | include/tcx/services/poll_service.hpp:37-44 | the registrations before and after each firing: the descriptor is registered with the callback that is called, is taken out, and the callback is handled; only the last may throw |
| PollService.EscapesIff | include/tcx/services/poll_service.hpp:37-44 | a round ends in an exception if and only if the last callback is not lenient and asks for a descriptor registered at that moment or asked for earlier in its list |
| PollService.QuietRound | include/tcx/services/poll_service.hpp:37-44 | when every registered callback is lenient or asks for nothing, all that is due fires and the round ends normally |
| Sleep.TruncateMeaning | include/tcx/async/ioring/sleep.hpp:48-51 | truncation leaves a remainder smaller than the divisor that leans as what is divided |
| Sleep.SplitLosesNothing | include/tcx/async/ioring/sleep.hpp:48-51 | seconds and nanoseconds together are the direct truncation to nanoseconds |
| Sleep.NanosInRange | include/tcx/async/ioring/sleep.hpp:48-51 | the nanoseconds are less than a second and lean as the duration does |
| Sleep.ValidIff | include/tcx/async/ioring/sleep.hpp:67-70 | the result is a valid timespec if and only if the duration is not a whole nanosecond below zero |
| Sleep.SplitMonotone | include/tcx/async/ioring/sleep.hpp:67-70 | longer durations never give an earlier timespec |
| Clamp.UsualRanges | include/tcx/utilities/clamp.hpp:24-28 | the ranges of the 8-, 32- and 64-bit types, in numbers |
| Clamp.ConvertMeaning | include/tcx/utilities/clamp.hpp:18 | conversion gives the value itself when it fits, and always something that fits |
| Clamp.ConvertIsShift | include/tcx/utilities/clamp.hpp:18 | conversion changes a value by a multiple of the modulus |
| Clamp.StdClampMeaning | include/tcx/utilities/clamp.hpp:18 | the result is within the bounds, the argument itself when that is, and the nearest value there |
| Clamp.InOrderIff | include/tcx/utilities/clamp.hpp:24-28 | for every pair of types, exactly when the converted bounds are in order, as `std::clamp` requires |
| Clamp.ClampSaturates | include/tcx/utilities/clamp.hpp:24-28 | whenever they are, the argument comes out unchanged when the result type can hold it, and otherwise the end of that type's range on its side |
| Clamp.ClampBetweenIff | include/tcx/utilities/clamp.hpp:15-19 | for all types and bounds, exactly when saturation between them comes out for every argument: the converted bounds are the nearest values of the argument's type, or there is one value and it survives both conversions |
| Clamp.ClampBetweenSaturates | include/tcx/utilities/clamp.hpp:15-19 | with bounds that the argument's type can hold, the result is saturation between them |
| OpenMode.ParseMode | include/tcx/async/ioring/open.hpp:56-90 | rejected unless exactly one of `r`, `w`, `a` counts; otherwise each bit of the flags, in numbers, is set exactly for the letters it is for, and no other |
| OpenMode.LettersIff | include/tcx/async/ioring/open.hpp:57 | a letter counts if and only if it is in the string with neither a comma nor the end before it |
| OpenMode.MeaningBitByBit | include/tcx/async/ioring/open.hpp:81-88 | each bit of the flags by the letters, in numbers |
| OpenMode.OnlyLettersMatter | include/tcx/async/ioring/open.hpp:56-81 | order, repetition and whatever follows the comma do not matter |

## Left out

- UniqueFunction.Memory.Swap: excludes a wrapper with an inline callable swapped with itself; `SecondSourceIsLiveIff` says what goes wrong then.
- UniqueFunction.Memory.MoveAssign: excludes the same.
- UniqueFunction.Memory.NewReferent: excludes a referent stored inside a wrapper's block, which `swap` would take for an inline callable.
- UringLifecycle.MemorySafe: obliges the caller to handle the entries of one operation one at a time and in the order they came, which the source leaves to it; `UringLifecycle.OutOfOrderUsesFreed` says what happens otherwise.
- PollService.Service.Poll: models the intended dispatch, because the written one is undefined whenever something is ready (`PollRegistry.WrittenPollRunsOffIff`).
- PollService.DueOnce: is about that dispatch.
- PollService.RoundMeaning: is about that dispatch.
- PollRegistry.RoundEffect: is about that dispatch.
- PollRegistry.ErasureIsMapRemoval: is about the mirror position, which the index in `poll` as written is not (`PollRegistry.DistanceErasesAnother`).
- PollRegistry.DistanceErasesAnother: looks at one fault of the written loop by itself, as no defined execution gets to a second round.
- PollRegistry.ScanIsDueIff: looks at another of its faults by itself.
- Clamp.ClampBetweenSaturates: is for bounds that the argument's type can hold; all others are in `Clamp.ClampBetweenIff`.
- UringContext.Context.Submit: stops, in the middle of submitting, when the given kernel answers are used up while the queue is full.
- UringContext.Context.Complete: is for a callback that makes no calls on the same object; other callbacks are the calls they make between `BeginComplete` and `EndComplete`, and concurrent ones are in `UringLifecycle`.
- SynchronizedContext.PoppedOnceInOrder: takes the concurrent queue to be first-in first-out at the instants of its operations, and there is no separate object for this context.
- Memory orders weaker than sequential consistency of each atomic step.
- Negative updates of the semaphore, overflow of counters and durations, and durations with floating-point representation.
- The concurrent queue of the semaphore failing to dequeue although it is not empty.
- Executors or allocations that throw, except from tasks and completion callbacks.
- A task that calls `run` on its own context.
- Copies of a `unique_lock`, which C++ allows implicitly: guards are handed over.
- The inverted `has_value` and `has_error` of `native::result`: results are a plain sum type.
- The synchronised uring context: its kernel submission loop does not end on success, and its `wait_many` drains like the modelled one.
- The `async_*` preparation wrappers, liburing, `poll(2)` and the kernel, which appear only as an environment.
- `epoll_service`, whose event buffer is always empty, and the pending counters that nothing updates.
- Coroutine and future adapters, `function_view`, operation wrappers, concepts and allocator plumbing.
- The semaphore's debug destructor, whose test is the opposite of its message.
