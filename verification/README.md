# rFaaS: verified models of its protocols

rFaaS runs functions on leased nodes over RDMA. This project models, in Dafny, the parts of it whose
correctness depends on how several steps, threads or machines interleave, and proves what they promise.

Concurrent code is a step system: each access to something another thread can see is one step, a run
is any interleaving, and theorems hold for every state of every run. Sequential code that updates
fields or walks a list in place is a class whose methods are proved against functions on values.

| files | what they model |
|---|---|
| `Blocks`, `PowerOfTwo`, `Spsc*` | the lock-free queue between one producer and one consumer |
| `Semaphore`, `BlockingQueue` | its semaphore, and the blocking queue made of both |
| `Handoff*` | the executor manager's listener and poller, first on an atomic queue, then on the real one |
| `Worker*`, `Accounting`, `ExecutorThreads` | the executor thread's hot/warm polling, its billing, and the manager's counters |
| `Lease*` | the resource manager's executor database |
| `WireTags`, `Dispatch*` | immediates, invocation ids and the dispatch of completions |
| `Receives`, `ParallelExecute` | receive credits, batched refill, and credits across connections |
| `Numbers` | facts about products, quotients and remainders |

## Assumptions

- Memory is sequentially consistent; fences do nothing. The clock never runs backwards.
- A completion queue is a sequence with an armed flag and a count of pending events; a remote
  fetch-and-add is an atomic addition.
- Queue-pair numbers are never reused, and executor connections come only from spawned processes.
- `open_lease` takes the handle of a node before it erases the list entry
  (server/resource_manager/db.cpp:90-96 reads it afterwards).

## Where the code does not do what one would expect

Each of these is kept in the model and delimited by a condition, most with a concrete run as well.

- A thread that always polls warm can sleep on a completion when its receive buffer exceeds 32
  (`WorkerLostWakeup.NoLostWakeupIff`), and with any buffer when a poll fails
  (`WorkerLostWakeup.NoLostWakeupEverIff`).
- A thread that sleeps does not see the request to stop, and what it has not sent yet is lost
  (`WorkerStop.StopsIff`, `WorkerStop.SleepsThroughStop`). The same holds for one that waits for the
  function code, and for one in a batch of `hot` that does not end.
- A hot thread that stops does not bill what it has polled since its last bill (`WorkerTime.TimeIsAccounted`).
- The batch loop of `hot` does not end when a completion after the first one succeeded
  (`WorkerHotLoop.HotBatchEndsIff`): the assignment at server/executor/fast_executor.cpp:98 resets the loop's own index.
- A node that connects and registers before it is added is never leased, although the add reports
  success (`LeaseFreeList.AddListsIff`, `LeaseMisuse.RegisteredFirstIsNeverLeased`):
  server/resource_manager/executor.cpp:104 returns the temporary object instead of the stored one.
- Closing a lease twice returns its capacity twice (`LeaseMisuse.CloseConservesIff`).
- A request for a negative amount can overdraw a node (`LeaseMisuse.OverdraftIff`), and after 2^32 grants
  leases share their records (`LeaseRuns.GrantKeepsRecordedIff`, `LeaseMisuse.RepeatedIdBreaksConservation`).
- Fewer than 65535 outstanding invocations do not rule out a clash of ids; the condition is on the one
  made 65535 calls earlier (`Dispatch.NextIdIsFreeIff`, `Dispatch.FewOutstandingStillClash`). A clash
  costs a callback (`DispatchClash.ExactlyOnceIff`).
- The worker's own copy of an id from 32768 on is negative (`WireTags.WorkerIdIff`); the reply undoes that.
- `signal(0)` can hand out a permit that was never put in (`Semaphore.ConservedIff`).
- A failed poll or a short refill makes the credit counter too large for good (`Receives.CreditsExactIff`),
  and so does a second initialization on a queue deeper than the buffer (`Receives.ReinitializeExactIff`).
- A client's request that overtakes the announcement of its own connection is dropped
  (`HandoffLimits.RequestHeardIff`), as is a message for which no block can be allocated.
- A second lease request can attach connections of the first process to the second executor, and more
  than it has room for (`HandoffLimits.StrayConnection`, `HandoffOverrun.LeaseFitsIff`).

## Model

| member | source | states |
|---|---|---|
| `Blocks.ContentsLength` | server/common/readerwriterqueue.h:695-725 | a block holds as many elements as its indices are apart, and nothing exactly when they meet |
| `Blocks.AdvanceTail` | server/common/readerwriterqueue.h:556-568 | moving the tail behind a written slot appends exactly that element and keeps the spare slot |
| `Blocks.AdvanceFront` | server/common/readerwriterqueue.h:312-324 | moving the front takes exactly the first element off |
| `PowerOfTwo.CeilToPow2` | server/common/readerwriterqueue.h:654-666 | the result is the least power of two not below the input when the input is between 1 and 2^63, and 0 otherwise |
| `PowerOfTwo.MaskIsModulo` | server/common/readerwriterqueue.h:321 | masking with a power of two minus one is the remainder |
| `PowerOfTwo.MaskIsWrap` | server/common/readerwriterqueue.h:556 | the masked successor of a slot is the next slot of the ring |
| `SpscMask.SlotsAreMasked` | server/common/readerwriterqueue.h:556-568 | in every run every block, allocated ones included, has a power-of-two number of slots, and masking finds the slot that the run goes to |
| `SpscConsumer.ConsumerKeeps` | server/common/readerwriterqueue.h:285-376 | every access of the consumer is safe and keeps the ring, its occupancy, and contents equal to enqueued minus dequeued |
| `SpscProducer.ProducerKeeps` | server/common/readerwriterqueue.h:534-644 | every access of the producer keeps the same, including entering the next block and linking in a new one |
| `SpscTheorems.FifoOrder` | server/common/readerwriterqueue.h:285-644 | in every state of every run, what was dequeued followed by what a walk over the blocks finds is what was enqueued |
| `SpscTheorems.RefinesFifo` | server/common/readerwriterqueue.h:285-644 | every atomic access is a push, a pop or nothing on an abstract first-in-first-out queue |
| `SpscTheorems.AlwaysSafe` | server/common/readerwriterqueue.h:298-351 | no access follows a bad pointer or index and both internal assertions hold in every run |
| `SpscTheorems.BlockDiscipline` | server/common/readerwriterqueue.h:298-351 | the consumer leaves only drained blocks and enters only non-empty ones, the producer enters only empty ones, and blocks in between are full |
| `SpscTheorems.EmptyWhenRefused` | server/common/readerwriterqueue.h:285-376 | a dequeue is refused only if all that had been enqueued when it began is dequeued |
| `SpscProgress.EnqueueCall` | server/common/readerwriterqueue.h:534-644 | a whole enqueue, among any steps of the consumer, appends its own element once, unless it may not allocate and saw the circle full, or may allocate and was refused storage; one that may not allocate adds no block |
| `SpscProgress.EnqueueOutcome` | server/common/readerwriterqueue.h:572-636 | every enqueue of every run ends with its element appended, or with nothing appended for one of the two reasons, and storage is refused exactly when its size is not the one asked for |
| `SpscProgress.AllocationSucceedsIff` | server/common/readerwriterqueue.h:603-632 | with storage of twice the largest block, up to 512 slots, the call goes on to link it in, and otherwise it ends and nothing has changed |
| `SpscProgress.DequeueCall` | server/common/readerwriterqueue.h:285-376 | a whole dequeue takes the oldest element that is left, once, or takes nothing, and then everything enqueued before the call is dequeued |
| `SpscProgress.WaitFree` | server/common/readerwriterqueue.h:285-644 | each access of a call brings it nearer to its end whatever the other thread does: an enqueue takes at most 13 accesses and a dequeue 14 |
| `SpscProgress.CopiesSave` | server/common/readerwriterqueue.h:305-326 | a thread whose stale copy shows an element or a free slot is two accesses from its end |
| `SpscCapacity.CapacityGuarantee` | server/common/readerwriterqueue.h:556-636 | an enqueue that may not allocate is refused only if the queue held the requested number of elements at one of the two moments it looked |
| `SpscCapacity.BlockCountSuffices` | server/common/readerwriterqueue.h:117-137 | the computed number of blocks, less one, holds the requested size |
| `SpscCapacity.Construct` | server/common/readerwriterqueue.h:105-157 | for every 64-bit size the constructor links a circle of empty blocks; their capacity suffices for the size if and only if it is between 1 and 2^63 - 1, and then the block size is a power of two |
| `Semaphore.Conservation` | server/atomicops.h:585-663 | in every interleaving in which no zero signal finds somebody waiting, time-outs racing with signals included, waits that succeed never exceed signals, the count never falls below -1, and the kernel semaphore is zero and the count exact when both sides are idle |
| `Semaphore.RefusalTakesNothing` | server/atomicops.h:585-642 | a wait that is refused takes no permit, and is refused only when there is none |
| `Semaphore.WaitsInMode` | server/atomicops.h:585-652 | in every run `tryWait` never spins or sleeps and a wait without time never sleeps, and every wait ends by taking one permit or by one refusal |
| `Semaphore.AccessesInParts` | server/atomicops.h:585-642 | what each access of a wait adds to or takes from the count and the kernel semaphore |
| `Semaphore.SignalInParts` | server/atomicops.h:654-663 | a signal adds its count once and posts the kernel semaphore once, if and only if the count was negative |
| `Semaphore.NoLostPermit` | server/atomicops.h:585-663 | a waiter blocked in the kernel with an idle signaller means that there is no permit |
| `Semaphore.RetakeFindsPermit` | server/atomicops.h:619-631 | the repair loop always finds a permit when it subtracts again |
| `Semaphore.SignalKeepsAccountsIff` | server/atomicops.h:654-663 | a step of the signaller keeps the accounts if and only if it does not add zero while somebody waits |
| `Semaphore.ConservedIff` | server/atomicops.h:585-663 | in every run, with signals of any count, the accounts are kept all along if and only if no zero signal has found somebody waiting |
| `Semaphore.SignalZeroBreaksConservation` | server/atomicops.h:654-663 | a run with a zero signal in which more is taken out than was put in |
| `BlockingQueue.LengthIsPermits` | server/common/readerwriterqueue.h:822-829 | in every run the inner queue is as long as permits, enqueues not yet signalled and acquires not yet dequeued together |
| `BlockingQueue.DequeueNeverFails` | server/common/readerwriterqueue.h:861-903 | the dequeue after a successful wait always delivers an element |
| `BlockingQueue.SleepsOnlyWhenEmpty` | server/common/readerwriterqueue.h:876-903 | a consumer that sleeps while the producer is between calls sleeps on an empty queue |
| `WorkerHotLoop.HotBatchEndsIff` | server/executor/fast_executor.cpp:75-104 | from the start of a batch some run of the thread leaves the batch loop of `hot` if and only if no completion after the first one succeeded; otherwise every run stays in it |
| `WorkerExecutions.ExecutionsExact` | server/executor/fast_executor.cpp:30-104 | in every run executions, plus invocations being handled, plus those in the completion queue, are the invocations that arrived, plus one for each time `hot` repeats one; the repetition and request counters count executions |
| `WorkerModes.ModesChangeIff` | server/executor/fast_executor.cpp:68-122 | in every run a thread goes warm exactly when its 10000th poll since it looked at the time ends with the timeout reached, which is billed, goes hot exactly after a warm batch, and never changes when it is always hot or always warm |
| `WorkerModes.ReceivesExact` | server/executor/fast_executor.cpp:104-176 | in every run the credit counter is the receives posted or completed plus one for every failed poll, and each refill fills up exactly when the counter is below the buffer size and below 256 |
| `WorkerWakeup.NoLostWakeup` | server/executor/fast_executor.cpp:110-177 | in every interleaving of arrivals a sleeping thread's completion queue is empty and armed, for safe configurations as long as polls succeed and for robust ones whatever polls do |
| `WorkerLostWakeup.UnsafeConfigLoses` | server/executor/fast_executor.cpp:128-177 | every configuration that is not safe has a run without failing polls in which the thread sleeps on a completion |
| `WorkerLostWakeup.NoLostWakeupIff` | server/executor/fast_executor.cpp:110-177 | as long as polls succeed, no wake-up is lost in any run if and only if the thread is not always warm or its receive buffer is at most 32 |
| `WorkerLostWakeup.FragileConfigLoses` | rdmalib/lib/queue.cpp:34-37 | every always-warm configuration that takes invocations has a run in which one failing poll sends the thread to sleep on a completion |
| `WorkerLostWakeup.NoLostWakeupEverIff` | server/executor/fast_executor.cpp:134-177 | with failing polls, no wake-up is lost in any run if and only if the thread is not always warm or takes no invocations at all |
| `WorkerStop.StopsIff` | server/executor/fast_executor.cpp:240-250 | in every run a thread told to stop finishes its final flush by its own steps, however long they take, if and only if it is not asleep, not waiting for the function code, and not in a hot batch with a success behind the first completion |
| `WorkerStop.SleepsThroughStop` | rdmalib/lib/connection.cpp:358-364 | every always-warm configuration that takes invocations has a run that is told to stop while it sleeps, with any execution time up to a second unsent, and takes no step of its own any more |
| `WorkerBilling.NoDoubleBilling` | server/executor/fast_executor.cpp:39-114 | in every run all billed intervals are pairwise disjoint, so polling plus execution time never exceeds the time elapsed |
| `WorkerTime.TimeIsAccounted` | server/executor/fast_executor.cpp:39-114 | in every run the time that has passed is what is billed, plus what is yet to be billed, plus the set-up, warm waiting, the way from poll to call, and what a hot thread polled since its last bill when it stops |
| `WorkerBilling.BillingConservation` | server/executor/fast_executor.hpp:39-99 | at every point each total is the billed time, polling in full when its intervals are shorter than 2^32 ns, and is the unsent remainder plus everything sent; at most one second of execution is unsent, and nothing after the final flush |
| `ExecutorThreads.CountersAreTotals` | server/executor/fast_executor.cpp:247-250 | for any number of threads the manager's counters are what was sent, and after all final flushes the sums of the threads' totals modulo 2^64 |
| `Accounting.UpdateExecutionBalances` | server/executor/fast_executor.hpp:39-45 | recording execution time keeps total equal to unsent plus sent, modulo 2^64 |
| `Accounting.UpdatePollingBalances` | server/executor/fast_executor.hpp:68-75 | recording polling time, cut to 32 bits, keeps it too |
| `Accounting.SendsBalance` | server/executor/fast_executor.hpp:47-99 | sending keeps it and leaves at most one second unsent |
| `Accounting.TruncatedCuts` | server/executor/fast_executor.hpp:68-75 | the billed polling time is the interval when it is shorter than 2^32 ns, and otherwise differs from it by a multiple of that |
| `Accounting.BillInNumbers` | server/executor/fast_executor.hpp:39-99 | what is added to the record, modulo 2^64, and that a remainder is sent, all of it, exactly when it exceeds one second or is forced |
| `Accounting.Account.UpdateExecutionTime` | server/executor/fast_executor.hpp:39-45 | both fields grow by the interval modulo 2^64, and the record stays balanced |
| `Accounting.Account.SendUpdatedExecution` | server/executor/fast_executor.hpp:47-66 | the manager's counter grows by exactly what leaves the record |
| `Accounting.Account.UpdatePollingTime` | server/executor/fast_executor.hpp:68-75 | both fields grow by the returned time modulo 2^64, which is the interval when that is shorter than 2^32 ns and otherwise its remainder |
| `Accounting.Account.SendUpdatedPolling` | server/executor/fast_executor.hpp:77-99 | the manager's counter grows by exactly what leaves the record |
| `Leases.FirstFitIsFirst` | server/resource_manager/db.cpp:51-103 | the position found is the first usable one, and the end exactly when there is none |
| `Leases.LiveOnlyCounts` | server/resource_manager/db.cpp:58-63 | dropping dead handles keeps every live one as often as it was there |
| `Leases.OpenIsFirstFit` | server/resource_manager/db.cpp:46-103 | a lease is granted exactly when a listed node is alive, has a name, a connection and enough free cores and memory, on the first such node and under the next id; that node alone loses what was asked for, the lease is total exactly when no cores or no memory are left, and the list loses only dead handles and then that node |
| `Leases.AddInParts` | server/resource_manager/executor.cpp:92-112 | an add is refused exactly for names shorter than 32 or of a node with a name and a connection, and otherwise the node of that name has the given capacity, all free, and keeps its connection |
| `Leases.Int16Cuts` | server/resource_manager/executor.cpp:92 | the cores of a node are the given number cut to 16 bits with sign |
| `Leases.ConnectInParts` | server/resource_manager/executor.cpp:114-118 | the connection leads to a new object that has nothing else, and all others lead where they did |
| `Leases.RegisterInParts` | server/resource_manager/executor.cpp:120-160 | it fails exactly for an unknown connection, and otherwise name and connection lead to one object, the named one if there was one, which has the connection and keeps its capacity |
| `Leases.RemoveInParts` | server/resource_manager/executor.cpp:167-181 | it fails exactly for an unknown connection, and otherwise that connection and the name of its node lead nowhere and all others lead where they did |
| `LeaseRuns.RemovedIsGoneIff` | server/resource_manager/executor.cpp:167-181 | a removed node is dead if and only if no other name and no other connection leads to it |
| `LeaseRuns.GoneForGood` | server/resource_manager/db.cpp:60-70 | over every run a dead node stays dead and no lease is granted on it |
| `LeaseRuns.LeaseConservation` | server/resource_manager/db.cpp:46-130 | over every run of fewer than 2^32 grants that closes no lease twice, whatever the capacities and requests, free plus leased cores and memory of every live node are its cores and memory |
| `LeaseRuns.GrantKeepsRecordedIff` | server/resource_manager/db.cpp:84-97 | a grant leaves every open lease with a record of its own if and only if its id is not recorded yet or belongs to a closed lease just like it |
| `LeaseRuns.NextIdIsFreeIff` | server/resource_manager/db.cpp:84 | in every run the next lease id is unused if and only if fewer than 2^32 leases were granted |
| `LeaseMisuse.RepeatedIdBreaksConservation` | server/resource_manager/db.cpp:84-97 | a run of 2^32 leases, each closed once, after which a larger lease shares the first record and closing it, once, leaves the node short |
| `LeaseSolvency.NeverOverdrawn` | server/resource_manager/executor.cpp:49-75 | over every run whose requests are harmless no live node is overdrawn or offers more cores than it has |
| `LeaseMisuse.OverdraftIff` | server/resource_manager/executor.cpp:49-64 | a request can overdraw a node, in an otherwise sound run, if and only if it asks for negative cores, or for negative memory with fewer than 32767 cores |
| `LeaseFreeList.FreeListExact` | server/resource_manager/db.cpp:88-128 | over every run a live node made for a connection is never listed and never leased; every other live node is listed once when it has no open total lease and not at all otherwise, and has at most one |
| `LeaseFreeList.AddListsIff` | server/resource_manager/executor.cpp:92-112 | an add that reports success makes its node listed or totally leased if and only if the node was not made for a connection that registered first |
| `LeaseFreeList.AddListsIffUnconnected` | server/resource_manager/executor.cpp:92-112 | the same before the call, when no name is empty: if and only if the name is new or its node is not connected |
| `LeaseMisuse.RegisteredFirstIsNeverLeased` | server/resource_manager/executor.cpp:92-112 | a run in which a node of any capacity registers, is added successfully, is live and wholly free, and every request is refused |
| `LeaseSpare.ListedHasSpare` | server/resource_manager/db.cpp:88-128 | with positive capacities and requests that are not negative a live listed node has spare cores and memory |
| `LeaseMisuse.CloseConservesIff` | server/resource_manager/db.cpp:106-130 | closing a recorded lease keeps the accounts if and only if it is open, its node is gone, or it is empty |
| `LeaseMisuse.DoubleCloseOverdraws` | server/resource_manager/db.cpp:106-130 | a run in which a node of two cores offers three |
| `LeaseDatabase.ExecutorDB.Add` | server/resource_manager/db.cpp:17-36 | the database becomes the specified one, with the result code of each error case, and stays consistent and conserved |
| `LeaseDatabase.ExecutorDB.AddExecutor` | server/resource_manager/executor.cpp:92-112 | adding a node, including the dead handle listed for a name that was already there; conservation is kept |
| `LeaseDatabase.ExecutorDB.ConnectExecutor` | server/resource_manager/executor.cpp:114-118 | a nameless connected node becomes reachable by its connection and nothing else changes; conservation is kept |
| `LeaseDatabase.ExecutorDB.RegisterExecutor` | server/resource_manager/executor.cpp:120-160 | a connected node gets its name or is merged into the named one; conservation is kept |
| `LeaseDatabase.ExecutorDB.RemoveExecutor` | server/resource_manager/executor.cpp:167-181 | both entries of the node go, and the failure when there is none; conservation is kept |
| `LeaseDatabase.ExecutorDB.FindNode` | server/resource_manager/db.cpp:51-103 | the loop that erases while it walks ends, stops at the first usable node, and has dropped exactly the dead handles before it |
| `LeaseDatabase.ExecutorDB.OpenLease` | server/resource_manager/db.cpp:46-103 | the loop and the grant together are the specified first fit, and conservation is kept before ids repeat |
| `LeaseDatabase.ExecutorDB.CloseLease` | server/resource_manager/db.cpp:106-130 | capacity goes back to a live node, a total lease puts it back on the list, the record stays, and conservation is kept unless the lease was closed before |
| `WireTags.RequestRoundTripIff` | rfaas/include/rfaas/executor.hpp:236 | the worker decodes what the client packed if and only if the id fits 16 bits and the function index 15 |
| `WireTags.WorkerIdIff` | server/executor/fast_executor.cpp:83-86 | the worker's own sign-extended id is the packed one if and only if it fits 15 bits or is the negative number it turns into |
| `WireTags.ReplyRoundTrip` | server/executor/fast_executor.cpp:49-55 | the reply built from the sign-extended id decodes to the original id with return value 0 |
| `WireTags.RequestsDiffer` | rfaas/include/rfaas/executor.hpp:236 | different invocations have different immediates |
| `Dispatch.NextIdFollows` | rfaas/include/rfaas/executor.hpp:229-233 | the wrapping counter yields the ids 1 to 65535 in order, again and again |
| `Dispatch.IdsClashIff` | rfaas/include/rfaas/executor.hpp:229-233 | within 65535 calls of each other two invocations share an id if and only if they are exactly that far apart |
| `Dispatch.NextIdIsFreeIff` | rfaas/include/rfaas/executor.hpp:229-235 | in every run the next id belongs to an outstanding invocation if and only if the one made 65535 calls earlier is outstanding |
| `Dispatch.FewOutstandingStillClash` | rfaas/include/rfaas/executor.hpp:229-235 | a run with a single outstanding invocation whose id is taken next |
| `DispatchClash.ClashLosesCallback` | rfaas/lib/executor.cpp:348-358 | in every run the invocation whose id the first clashing call takes is owed a reply, and its callback never fires afterwards |
| `Dispatch.CompletionFires` | rfaas/lib/executor.cpp:348-358 | a completion fires a callback exactly when it is the last one its invocation waits for, and then that one with its tag; a duplicate fires nothing |
| `Dispatch.ExactlyOnce` | rfaas/lib/executor.cpp:348-358 | over every run the callbacks fired are those of the invocations with all their replies, each once, with its own id and tag |
| `Dispatch.CallbackFiresIff` | rfaas/include/rfaas/executor.hpp:275-283 | over every run the callback of a call that asked for r replies has fired, with that call's id and tag, if and only if exactly r completions were credited to it |
| `DispatchClash.ExactlyOnceIff` | rfaas/include/rfaas/executor.hpp:229-235 | in every run with calls that may clash, once all replies have come, every callback has fired exactly once with its own id and tag if and only if no call clashed |
| `DispatchClash.InvocationIsCall` | rfaas/include/rfaas/executor.hpp:235 | over every run with clashes an invocation waits for the replies its call asked for and has got those that came from it |
| `DispatchClient.AsyncClient.Async` | rfaas/include/rfaas/executor.hpp:229-235 | the call takes the next id; that differs from the id of every outstanding invocation if and only if there is no clash, and then an exact table stays exact |
| `DispatchClient.AsyncClient.Dispatch` | rfaas/lib/executor.cpp:352-357 | counting down and firing is the specified completion, and an exact table stays exact |
| `DispatchClient.AsyncClient.PollQueueOnce` | rfaas/lib/executor.cpp:345-358 | a polled batch is dispatched one completion after the other |
| `DispatchClient.ReplyFindsItsRequest` | server/executor/fast_executor.cpp:49-55 | from request over worker and reply to dispatch, the id found is that of the invocation |
| `Receives.RecvWorkCompletions.constructor` | rdmalib/lib/queue.cpp:98-117 | the 32 requests are chained; with a queue pair the first buffer of receives is posted and counted, without one, as connections are made, nothing is |
| `Receives.RecvWorkCompletions.PostBatchedEmptyRecv` | rdmalib/lib/queue.cpp:52-96 | for every count exactly that many receives are posted when there is room and otherwise as many as fit, with -1; the chain is whole again either way |
| `Receives.RecvWorkCompletions.Refill` | rdmalib/lib/queue.cpp:134-143 | below the threshold the buffer is filled up and counted as full, whether or not posting succeeded |
| `Receives.RecvWorkCompletions.Initialize` | rdmalib/include/rdmalib/queue.hpp:125-139 | the counter restarts and a whole buffer is posted |
| `Receives.RecvWorkCompletions.PollCompletions` | rdmalib/lib/queue.cpp:119-127 | the counter falls by the returned value, the error code included |
| `Receives.RecvWorkCompletions.UpdateRequests` | rdmalib/lib/queue.cpp:129-132 | the counter alone changes |
| `Receives.CutChain` | rdmalib/lib/queue.cpp:74-87 | a chain cut behind its first requests has exactly those |
| `Receives.CreditsExactIff` | rdmalib/lib/queue.cpp:119-143 | in every run, failures included, the counter never falls below the receives outstanding and equals them if and only if no poll failed and no refill was short of room; a poll takes what it returned off both, and a refill brings the counter to the buffer size exactly when it is below that and below 256 |
| `Receives.CreditsExact` | rdmalib/lib/queue.cpp:119-143 | with polls that succeed and a deep enough queue nothing is ever short, and the counter is exact and within the buffer size |
| `Receives.ReinitializeExactIff` | rdmalib/include/rdmalib/queue.hpp:125-139 | initializing again leaves the counter exact if and only if the queue is as deep as the buffer is large, or deeper with nothing outstanding |
| `ParallelExecute.PollAllConcat` | rfaas/include/rfaas/executor.hpp:472-476 | how the replies are divided into batches makes no difference |
| `ParallelExecute.RebalancedIff` | rfaas/include/rfaas/executor.hpp:461-499 | after a parallel execution every connection's counter is exact if and only if every connection answered exactly once |
| `ParallelExecute.ManyExecutionsExact` | rfaas/include/rfaas/executor.hpp:461-499 | any number of such executions leaves every counter exact |
| `ParallelExecute.ParallelClient.PollShared` | rdmalib/lib/queue.cpp:119-127 | a batch takes a receive of each reply's owner and charges connection 0 for all of them |
| `ParallelExecute.ParallelClient.PollReplies` | rfaas/include/rfaas/executor.hpp:472-491 | for every sequence of batches of which some bring exactly the expected number of replies the loop ends there, charges them all, and reports success exactly when all returned 0 |
| `ParallelExecute.ParallelClient.Execute` | rfaas/include/rfaas/executor.hpp:461-499 | refill, polling and rebalancing on the objects are the specified execution |
| `HandoffTheorems.StepKeeps` | server/executor_manager/manager.cpp:138-504 | every step of either thread keeps tables, messages on their way, processes and executors consistent |
| `HandoffTheorems.AlwaysSafe` | server/executor_manager/manager.cpp:395-411 | no run reaches a state in which an executor is attached through a null pointer |
| `HandoffTheorems.ExecutorFindsClient` | server/executor_manager/manager.cpp:395-411 | when an executor's connection is handled its client was inserted, and is there with an executor or was removed by the poller itself, never for having hung up; the executor is that of its own process if and only if no later one was spawned |
| `HandoffTheorems.DisconnectFindsClient` | server/executor_manager/manager.cpp:424-438 | a client's disconnection is handled after its connection, unless that message was lost, and leaves it out of the table |
| `HandoffTheorems.NoClientOutlivesConnection` | server/executor_manager/manager.cpp:158-202 | when no message is on its way the listener's set is exactly the live clients, the table keeps a client that is gone exactly when its disconnection was lost, and misses a live one exactly when it was removed or its announcement was lost |
| `HandoffTheorems.TableChangesIff` | server/executor_manager/manager.cpp:395-459 | over every run a client enters the table exactly when its announcement is handled and leaves it exactly when its disconnection is handled, it asks to leave, or it is removed because its executor finished |
| `HandoffTheorems.ExecutorChangesIff` | server/executor_manager/manager.cpp:302-379 | a client loses its executor exactly when a check finds it finished, and gets one, of the asked cores and without connections, exactly by a lease |
| `HandoffTheorems.ExecutorAcceptedIff` | server/executor_manager/manager.cpp:170-191 | the listener takes an executor's connection exactly while its client is live |
| `HandoffCapacity.CapacityInvariant` | server/executor_manager/manager.cpp:395-411 | in every run what is attached or on its way from a process is no more than it opened, and executors hold connections of their own client only |
| `HandoffCapacity.ConnectionsFit` | server/executor_manager/executor_process.cpp:27-31 | while a client has asked for one lease its executor's array is never overrun and holds only connections of its own process |
| `HandoffOverrun.LeaseFitsIff` | server/executor_manager/manager.cpp:302-313 | a lease never leads to more connections than cores, whatever follows before the client's next lease, if and only if all its earlier processes have connected fully and been handled, or, once it has hung up, no more connections are on their way than there are cores |
| `HandoffLimits.RequestHeardIff` | server/executor_manager/manager.cpp:440-459 | a lease request is heard if and only if its client's announcement is no longer on its way and was not lost, and the client was not removed |
| `HandoffLimits.EarlyRequestDropped` | server/executor_manager/manager.cpp:193-202 | a run in which an accepted client's request is dropped |
| `HandoffLimits.StrayConnection` | server/executor_manager/manager.cpp:302-313 | a run in which an executor of one core ends with two connections, one from the process before |
| `HandoffQueue.ManagerRefines` | server/executor_manager/manager.cpp:381-393 | the two threads on the lock-free blocking queue, access by access and with allocations that may fail, reach only states that they reach on an atomic queue, with the same messages queued |
| `HandoffQueue.DeliveryFindsClient` | server/executor_manager/manager.cpp:467-482 | whatever the lock-free queue delivers can be handled, and an executor's connection finds its client inserted |

## Left out

- Weak memory ordering: the fences of the queue are taken as given.
- The queue's `peek`, `pop`, `size_approx`, `max_capacity`, moves, destructors and storage layout.
- Semaphore.Conservation: runs in which no zero signal finds somebody waiting; ConservedIff says that others do not keep the accounts.
- Semaphore.RefusalTakesNothing: the same.
- Semaphore.NoLostPermit: the same.
- Semaphore.RetakeFindsPermit: the same.
- Dispatch.ExactlyOnce: calls whose id does not clash; DispatchClash.ExactlyOnceIff has those that do.
- LeaseSolvency.NeverOverdrawn: nodes of capacities that are not negative; one with a negative capacity is overdrawn from the start.
- LeaseFreeList.AddListsIffUnconnected: runs in which no node has the empty name; AddListsIff has all runs.
- HandoffCapacity.ConnectionsFit: a sufficient condition; HandoffOverrun.LeaseFitsIff has the exact one.
- WorkerWakeup.NoLostWakeup: the poll for the function code does not fail, and the receive queue has room for the buffer.
- HandoffTheorems.StepKeeps: the poller may stop draining at any time, not only when the queue is empty; lifetimes of connection objects are not modelled, nor is a disconnection event for one the poller has deleted.
- The sleeping variant of the manager's poller, `_process_events_sleep`, and the manager's lease table.
- LeaseRuns.LeaseConservation: runs of fewer than 2^32 grants; after that records are shared, as GrantKeepsRecordedIff says. Memory and free counters are unbounded integers.
- Node objects of the resource manager are values in a table addressed by handle; addresses and ports are not copied.
- DispatchClient.AsyncClient.Async: one table stands for the callbacks and for the futures of the vector form; the single-buffer `async`, whose counter does not wrap, is excluded.
- DispatchClient.AsyncClient.Dispatch: a completion whose id was never registered is excluded, since the source follows an end iterator.
- Credits when several connections poll one queue through `poll_queue_once2`: they are charged to whichever polled.
- ParallelExecute.ParallelClient.Execute: batches of which some bring exactly as many replies as there are connections; otherwise the loop's counter passes zero and the loop goes on.
- ParallelExecute.ParallelClient.PollReplies: the same.
- Which receive slot a message lands in: refills restart at slot 0, so outstanding receives can share one.
- Send completions, private data of connections, memory registration, sockets, and all other ibverbs calls.
- Process start-up, Docker, ELF loading, HTTP, settings, benchmarks and examples.
