# Verified model of the shopping agent's core

This project models the parts of the shopping-agent service that carry state, ordering or exact arithmetic, and proves
what they guarantee over all inputs and all runs. `dafny verify dfyconfig.toml` checks everything; there is nothing to
execute.

| module | what it models |
|---|---|
| `TaskLifecycle`, `TaskProtocol` | the event-sourced task of the API server: recording events, persistence, crash recovery by owner lock, clarification, tombstoned deletion, and what a live socket sees over a whole run |
| `Transport` | the connection manager (sockets, bounded history, generations) and the ordered hand-over by the monitor |
| `Lineage` | idempotent rerun and relaxation commands and the snapshot forest they build |
| `Heap`, `RequestQueue`, `QueueProtocol` | the priority request queue: `heapq` on a list, the two pools, and all callers interleaved under the condition variable |
| `CircuitBreaker` | the provider circuit breaker under interleaved calls, and the retry loop |
| `ContextWindow` | token-budgeted context compression with truncation and re-compression |
| `RecallMetrics` | deduplication, recall, reciprocal rank and NDCG |
| `IdentityMatcher` | same-product matching and the split into a matching group and alternatives |
| `DecisionEngine`, `ConstraintRelaxations` | constraint evaluation, buckets, preferences, ranking, and relaxing constraints |
| `ImportTax` | the four tax regimes with rounding to cents |
| `RateLimiter` | the per-key request limiter |
| `Sorting`, `Common` | Python's stable sort; options and results |

Objects that the service updates in place are classes (`PriorityRequestQueue`, `TaskServer`, `CommandServer`,
`ConnectionManager`, `ProviderResilience`, `SlidingWindowRateLimiter`); each method is proved equal to a transition
function, and the protocol modules prove properties of all runs of those transitions. Pure code is functions with lemmas.

## Assumptions

- One worker acts on a task id at a time; other processes may read and recover at any moment (`k8s/README.md:8`
  promises stable routing by `thread_id`). `TaskProtocol` models the acting worker's record, its lock, the command
  that holds the task lock, the disk and the readers. A second worker with a record of its own could overwrite
  newer state (`app/api/server.py:2787-2806`).
- An `emit` is not cancelled between recording an event and sending it (needed for gap-free sockets only).
- A stretch of one process without an await is one step, except where another process can act in between:
  reading a file and taking the owner lock are separate steps. A send either arrives or fails; which one is an input.
- A snapshot write replaces the file atomically or leaves it unchanged.
- Random ids are fresh. The queue's requests are distinct objects, so they carry distinct identities.

## Where the code falls short of its design

Each of these comes with the exact condition under which the property holds, and with a run or input that shows it
fail.

- **Queue removal is by priority, not by identity.** `PrioritizedRequest` compares `priority` only
  (`app/resilience/request_queue.py:33-41`), and `queue.remove` uses that comparison. The unconditional `discard` at the end
  of every task (`app/api/server.py:1111-1112`) therefore takes another waiting request of equal priority out of the queue,
  and its caller then waits forever: `FinishedTaskDropsBystander`, `LostForever`. Waiters are kept exactly in the runs in
  which every removal is harmless: `RunKeepsWaitersIffHarmless`.
- **A free worker beside a sleeping head.** `acquire` pops the queue without notifying, so the new head may sleep although
  its pool has a free slot. This happens in some run of a class iff the class has two workers or more: `HeadMaySleepIff`,
  with the run in `HeadMaySleepBesideFreeSlot`. It is not a deadlock: `DeadlockFreedom`, `EveryWaiterCanBeServed`.
- **An ended task can be overwritten.** In every reachable state a step does so iff the file holds an ended task and it is
  an event accepted while memory differs from the file, the last stretch of `create_task`, or a recovery: `StepLosesIff`.
  Memory, file and lock stay in agreement, and the file drops nothing, iff every step finds what it relies on
  unchanged: `CoherentIffOrdinary`; ordinary runs lose nothing: `OrdinaryNeverLoses`. Four runs show the ways to lose a task:
  - `RefusedResumeLosesEndedTask`: a resume refused by the release gate, for example outside the canary traffic, keeps a
    running record without the owner lock (`app/api/server.py:2564-2595`), and `create_task` trusts the record.
  - `AnswerWithoutLockLosesEndedTask`: the finishing run releases the lock an answer reuses, before or after the answer
    is recorded (`app/api/server.py:2542-2543`, `app/api/server.py:1278-1281`).
  - `CreateRaceLosesEndedTask`: `create_task` tests the status, then waits for the cancelled run and for a socket to
    close, and never tests again (`app/api/server.py:1831-1895`); a reader recovers the task in between.
  - `StaleReaderLosesEndedTask`: `_load_snapshot` reads the file before it has the owner lock and not again
    (`app/api/server.py:530-565`); the owner in another process records the result in between.
- **A cancelled probe locks a provider out.** `execute` re-raises a cancellation without reporting
  (`app/provider_resilience.py:116-117`), which leaves the circuit half-open with nobody in flight: `LockedOutIff`. Every
  setting has a run that gets there: `CancelledProbeLocksOut`.
- **Cross-border tax can exceed general-trade tax by rounding**, in exactly one family of inputs with a customs value of
  one cent: `CrossBorderNeverDearerIff`; an example is `OneCentDearer`.
- **Re-compression is not the identity on degraded contexts**: `RecompressionIsIdentityIff`. It never is on those, and what
  it gives is then settled: `LastResortIsNotFixed`.
- **Truncation to 25-29 characters returns 30**: `FitTextKeepsEnds`, `FitTextTokens`. No window exceeds its budget because
  of it, but it can cost the newest message its last token: `WindowKeepsNewest`.
- **A tool bound below 13 characters is exceeded by its own suffix**: `ToolBoundIff`, `SmallToolBoundExceeded`. The service
  itself only uses the default of 2000.
- **Same-product matching with identifiers is not transitive**: `MatchIsNotTransitive`, `ChainClosesIff`.
- **A removed constraint cannot be put back** by a relaxation that names it, while a replaced one can: `UndoRestoresIff`,
  `RemovedConstraintStaysAway`.

## Model

| member | source | states |
|---|---|---|
| TaskLifecycle.AfterFaithful | app/api/server.py:887-1008 | recording any allowed event keeps status, pending question, answers, result, error and intent equal to the projections of the log, whose sequences stay 1..n of one run; without an event that names one the intent is that of creation |
| TaskLifecycle.FieldsByStatus | app/api/server.py:926-1003 | in a faithful snapshot a clarification is present iff awaiting, a result iff completed, error code and message iff failed; results and recovery never clear the question, so this rests on the log |
| TaskLifecycle.SnapshotShowsLastDecision | app/api/server.py:926-1003 | which status, result, question or error a snapshot shows after each kind of deciding event, by the last such event of its log |
| TaskLifecycle.SnapshotHoldsLastAnswers | app/api/server.py:930-1003 | for every field the last answer in the log, and the intent named last or that of creation |
| TaskLifecycle.RecoveredFaithful | app/api/server.py:538-565 | crash recovery of a running snapshot appends one event and stays faithful although it touches neither result nor clarification |
| TaskLifecycle.InitialFaithful | app/api/server.py:1856-1872 | a newly created snapshot is faithful to its empty log |
| TaskLifecycle.TaskServer.PersistSnapshot | app/api/server.py:241-263 | the file is replaced exactly if the task is not deleted and the write succeeds |
| TaskLifecycle.TaskServer.RecordEvent | app/api/server.py:887-1008 | an event is recorded iff the task is live here, the event belongs to its run, its status accepts it, a report can be made and the write succeeds; the first failing test decides the error; disk and memory both get the new snapshot; a result comes right behind its report (lines 761-884) |
| TaskLifecycle.AcceptedByStatus | app/api/server.py:904-926 | the table of allowed events read by status |
| TaskLifecycle.RecordedIff | app/api/server.py:896-929 | acceptance over record, tombstone, run and status, without reference to the order of the tests |
| TaskLifecycle.RefusedBecause | app/api/server.py:896-929 | which refusal: the exact condition of each error |
| TaskLifecycle.TaskServer.ReadSnapshot | app/api/server.py:522-533 | a deleted task is not found; a running one without a record in this process is to be recovered |
| TaskLifecycle.TaskServer.Recover | app/api/server.py:534-569 | while somebody holds the owner lock the snapshot is returned untouched; otherwise what was read before is interrupted and written, unless the task is deleted or the write fails |
| TaskLifecycle.FaithfulIsDetermined | app/api/server.py:887-1008 | a faithful snapshot is a function of its run, its first intent and its log |
| TaskLifecycle.TaskServer.BeginCreate | app/api/server.py:1822-1853 | the refusal reasons of the first stretch in order; the file is only consulted without a record; a live run is dropped |
| TaskLifecycle.TaskServer.CommitCreate | app/api/server.py:1873-1908 | lock, tombstone and write decide in this order whether the new snapshot replaces the file and gets a record; the old status plays no part |
| TaskLifecycle.TaskServer.BeginDelete | app/api/server.py:2656-2681 | the record stops accepting events and the tombstone is written, or the record goes on as before |
| TaskLifecycle.TaskServer.FinishDelete | app/api/server.py:2699-2712 | record and lock are gone whether or not the directory could be removed |
| TaskProtocol.EverySnapshotIsFaithful | app/api/server.py:887-1008 | in every reachable state, with no assumption on the run, the snapshots on disk, in memory and in the hands of readers and commands are what their own logs say |
| TaskProtocol.EmittedEventsStayInTheirRun | app/api/server.py:902-903 | in every run an event emitted by a run enters only snapshots of that run, as the last event of the log, on disk and in memory |
| TaskProtocol.TombstoneIsFinal | app/api/server.py:327-350 | once a tombstone exists no interleaving writes the snapshot again |
| TaskProtocol.SocketSeesEveryEventOnce | app/api/monitor.py:67-98 | in every run, after dropping repeats a socket that connected at any moment has seen exactly 1,2,3,... up to the end of the log except at most the one unsent batch of at most two events |
| TaskProtocol.SeenNumbers | app/api/connection.py:62-65 | replaying a whole log to a new socket shows it exactly 1..n |
| TaskProtocol.RunInv | app/api/server.py:522-570 | in every state of every run the file holds what memory holds unless a recovery wrote it, the owner lock excludes a recovering reader, and the file continues what a pending reader has read |
| TaskProtocol.AtMostOneBatch | app/api/monitor.py:67-98 | in every run at most two recorded events are unsent, and they are the tail of the log |
| TaskProtocol.StepLosesIff | app/api/server.py:241-263 | in every reachable state a step overwrites an ended task iff it is an accepted event while memory differs from the file, a creation that gets lock and write, or a recovery that gets its write |
| TaskProtocol.EndedTaskIsFinal | app/api/server.py:896-926 | in every run, until such a step, an ended snapshot never changes except for appended report events, or it is deleted |
| TaskProtocol.OrdinaryNeverLoses | app/api/server.py:896-926 | in an ordinary run there is no such step |
| TaskProtocol.RecoveryAppendsOne | app/api/server.py:534-569 | a recovery happens while no run holds the lock, ends the task, and appends exactly one event to what the reader had read |
| TaskProtocol.RecoveryHappensOnce | app/api/server.py:522-570 | in every run, between two recoveries some step has overwritten an ended task |
| TaskProtocol.CreateReplacesEndedTaskIff | app/api/server.py:1831-1895 | on any store the last stretch of `create_task` replaces an ended snapshot iff lock, tombstone and write let it, and the first stretch lets one pass iff the process holds a record that has not ended |
| TaskProtocol.CoherentIffOrdinary | app/api/server.py:522-570 | from a reachable state where memory, file and lock agree a step keeps that, and the file drops nothing, iff it is ordinary: a condition on each of the six kinds of step that rely on an earlier read or on the lock |
| TaskProtocol.RefusedResumeLosesEndedTask | app/api/server.py:2564-2595 | a run in which a resume refused by the release gate lets `create_task` erase an ended task |
| TaskProtocol.AnswerWithoutLockLosesEndedTask | app/api/server.py:1278-1281 | two runs in which a result overwrites an ended task because the answered run has lost its lock |
| TaskProtocol.CreateRaceLosesEndedTask | app/api/server.py:1831-1895 | a run, ordinary but for its last step, in which a creation erases a task that ended after the test |
| TaskProtocol.StaleReaderLosesEndedTask | app/api/server.py:530-565 | a run, ordinary but for its last step, in which a reader overwrites a completed task by an interruption |
| Transport.ConnectionManager.Connect | app/api/connection.py:24-79 | a stale or discarded connect changes nothing but closes its socket; an admitted one replaces and closes the previous socket, gets the whole opening in order or is dropped and closed; other tasks are untouched |
| Transport.ConnectionManager.SendAll | app/api/connection.py:87-89 | a replay delivers a prefix, the whole list iff the socket survives |
| Transport.OpeningShape | app/api/connection.py:61-67 | a new socket gets the snapshot and then each of its events in order, or else the history in order |
| Transport.DeliveredIsPrefix | app/api/connection.py:87-89 | what arrives is a prefix as long as the socket takes |
| Transport.ConnectionManager.SendToThread | app/api/connection.py:96-110 | the history keeps the newest events, the live socket and nobody else gets the event, and a failing socket is dropped |
| Transport.ConnectionManager.Disconnect | app/api/connection.py:91-94 | only the socket that is still the active one is dropped |
| Transport.ConnectionManager.Clear | app/api/connection.py:125-140 | allows the id again, forgets the history and closes the socket only on request |
| Transport.ConnectionManager.Discard | app/api/connection.py:155-171 | raises the generation, forbids the id, forgets the history and closes the socket |
| Transport.EmitBatch | app/api/monitor.py:96-98 | the live socket gets the recorded batch in order up to its first failed send and is dropped there; the history gets all of it |
| Transport.StaleConnectRefusedIff | app/api/connection.py:30-54 | over any steps a connect that began earlier is admitted iff nothing was discarded since and the id is not discarded |
| Transport.HistoryIsNewest | app/api/connection.py:96-101 | over any steps the history is the suffix, of at most the bound, of the events accepted since it was last emptied |
| Lineage.CommandServer.FindIdempotentChild | app/api/server.py:1982-1998 | returns a live child of the command, or there is none |
| Lineage.CommandServer.IssueCommand | app/api/server.py:2222-2412 | a known key returns its child and changes nothing; an unknown one creates exactly the child under the new id; the exact refusal condition |
| Lineage.CreatesChildIff | app/api/server.py:2222-2412 | a command creates something iff its parent is visible to the caller, completed, not overwritten and has an intent, no child answers it yet, and a relaxation names known constraints; everything else stays as it is |
| Lineage.AtMostOneChildPerCommand | app/api/server.py:2251-2287 | over any interleaving at most one undeleted child per parent, relation, key, user and tenant |
| Lineage.RepeatedCommandIsIdempotent | app/api/server.py:1982-1998 | once a command has its child, repeating it any time later is a no-op as long as the child is neither deleted nor resubmitted |
| Lineage.LineageIsForest | app/api/server.py:2001-2053 | in every reachable state, even with completed tasks overwritten by an interruption, exactly `depth` parent hops lead to the recorded root, with user, tenant and data mode constant on the way |
| Lineage.AncestorChain | app/api/server.py:2001-2020 | every hop lowers the depth by one and keeps the root |
| Heap.SiftDown | app/resilience/request_queue.py:135-144 | the sift that `heappush` ends with restores the heap as a permutation |
| Heap.SiftUp | app/resilience/request_queue.py:146-155 | the sift that `heappop` and `heapify` use: down to a leaf and up again restores the heap from one bad root |
| Heap.HeapPush | app/resilience/request_queue.py:135-144 | the pushed list is a heap with exactly one more request |
| Heap.HeapPop | app/resilience/request_queue.py:163-179 | pops the root and leaves a heap of the rest |
| Heap.Heapify | app/resilience/request_queue.py:146-155 | any list becomes a heap of the same requests |
| Heap.RootIsMinimal | app/resilience/request_queue.py:163-179 | the root has the smallest priority of the heap |
| RequestQueue.PriorityRequestQueue.constructor | app/resilience/request_queue.py:53-74 | empty heaps, full heavy limit, threshold at least 1 |
| RequestQueue.PriorityRequestQueue.RebalanceLocked | app/resilience/request_queue.py:100-106 | only the heavy limit moves: to max(1, half) above the threshold, to all heavy workers at a quarter of it or less, and not at all in between |
| RequestQueue.PriorityRequestQueue.PositionLocked | app/resilience/request_queue.py:108-114 | the place of the request in the stably sorted queue, 0 if absent |
| RequestQueue.PositionIsRank | app/resilience/request_queue.py:108-114 | the reported position counts the requests that are ahead: 1 iff the request is the heap root |
| RequestQueue.PriorityRequestQueue.Enqueue | app/resilience/request_queue.py:135-144 | the class queue gains exactly this request, the other queue and both counters are kept |
| RequestQueue.PriorityRequestQueue.TryAcquire | app/resilience/request_queue.py:163-181 | admits exactly the heap root below capacity and takes it out, or changes nothing |
| RequestQueue.PriorityRequestQueue.Remove | app/resilience/request_queue.py:146-155 | the first request of equal priority goes, everything else stays, and waiters are notified iff something was removed |
| RequestQueue.PriorityRequestQueue.Release | app/resilience/request_queue.py:185-191 | gives one lease of the class back and rebalances |
| RequestQueue.DiscardExactness | app/resilience/request_queue.py:33-41 | removal by priority takes this request or nothing, and keeps the rest, iff no other request of its priority comes first |
| RequestQueue.IdentityDiscardExact | app/resilience/request_queue.py:146-155 | removal by identity always takes this request or nothing |
| RequestQueue.RebalanceHysteresis | app/resilience/request_queue.py:100-106 | the heavy limit is always the full count or max(1, half), it drops and rises only in disjoint backlog ranges |
| RequestQueue.RebalanceFits | app/resilience/request_queue.py:100-106 | whatever happened to the queues before, the limit fits the backlog afterwards |
| QueueProtocol.RunInv | app/resilience/request_queue.py:135-191 | over every interleaving of enqueue, test, cancel, release, discard (also of a caller that never reaches `acquire`) and rebalance the queues hold exactly the waiting callers, each once, as heaps, and active counts are the live leases |
| QueueProtocol.DeadlockFreedom | app/resilience/request_queue.py:162-191 | with waiters and no lease in a class, its head is not asleep and its next test succeeds |
| QueueProtocol.EveryWaiterCanBeServed | app/resilience/request_queue.py:162-191 | from every good state every waiting caller has a schedule of tests and releases that gives it a worker |
| QueueProtocol.ActiveCountsLeases | app/resilience/request_queue.py:91-106 | active equals the number of running callers, never exceeds the workers, and queue length equals the number of waiting callers |
| QueueProtocol.LimitFollowsBacklog | app/resilience/request_queue.py:100-106 | in every state of every run, under either comparison: max(1, half) while the backlog is above the threshold, all heavy workers at a quarter of it or less |
| QueueProtocol.BacklogHoldsHeavyBack | app/resilience/request_queue.py:171-177 | a heavy request admitted while the backlog is above the threshold finds fewer than max(1, half) heavy tasks running |
| QueueProtocol.ReleaseInv | app/resilience/request_queue.py:185-191 | every release lowers the count by exactly one: `max(0, ...)` never clamps |
| QueueProtocol.AdmittedAtMostOnce | app/resilience/request_queue.py:163-181 | no request is admitted twice in any run |
| QueueProtocol.AdmittedIsMinimal | app/resilience/request_queue.py:163-181 | whoever is admitted has minimal priority among all waiting callers of its class and the class is below its current capacity |
| QueueProtocol.HeadMaySleepIff | app/resilience/request_queue.py:163-181 | for every setting and either class: some run ends with the head asleep beside a free slot iff the class has at least two workers |
| QueueProtocol.HeadMaySleepBesideFreeSlot | app/resilience/request_queue.py:163-181 | that run, for every such setting and any two requests of one priority |
| QueueProtocol.KeepsWaitersIffHarmless | app/resilience/request_queue.py:146-160 | with the code's comparison a step keeps every waiter queued iff its removal hits its own request or nothing |
| QueueProtocol.RunKeepsWaitersIffHarmless | app/resilience/request_queue.py:146-160 | the same over whole runs |
| QueueProtocol.LostForever | app/resilience/request_queue.py:163-191 | a caller whose request was taken out never gets a worker, whatever happens next |
| QueueProtocol.FinishedTaskDropsBystander | app/api/server.py:1111-1112 | for every setting and either class, two tasks of one priority: the first finishes normally and the second is lost |
| Sorting.SortSorted | app/resilience/request_queue.py:108-114 | the sort that positions and rankings rely on is an ordered permutation |
| Sorting.SortIndex | app/resilience/request_queue.py:108-114 | a stable sort puts an element right behind those that are smaller, or equal and earlier |
| Sorting.FilterCommutesWithSort | app/tools/decision_engine.py:493-510 | dropping elements before and after a stable sort is the same |
| CircuitBreaker.CircuitInvKept | app/provider_resilience.py:65-106 | window length, failure count, half-open implies open, and open implies that the trip condition still holds are kept by every operation |
| CircuitBreaker.FailureKeepsTripped | app/provider_resilience.py:92-106 | appending a failure, even when it pushes an outcome out, never makes a bad window good |
| CircuitBreaker.FailureWhileOpenRestarts | app/provider_resilience.py:92-106 | every failed probe opens the circuit again with a fresh quarantine |
| CircuitBreaker.RunCircuitInv | app/provider_resilience.py:65-130 | the invariant holds in every state of every interleaving, cancelled calls included |
| CircuitBreaker.WindowHoldsNewest | app/provider_resilience.py:77-98 | in every state of every run the window is the suffix, of at most its size, of the outcomes reported since the last successful probe |
| CircuitBreaker.ConsecutiveFailuresOpen | app/provider_resilience.py:92-106 | from every reachable state as many failures as the threshold without a success leave the circuit open, whatever begins, is refused or is cancelled in between |
| CircuitBreaker.FailureOpensIff | app/provider_resilience.py:100-106 | exactly when a failure opens the circuit, over the newest reported outcomes: the threshold, or the rate among at least five or a window full |
| CircuitBreaker.HalfOpenHasProbe | app/provider_resilience.py:65-130 | without cancellation a half-open circuit always has a probe in flight |
| CircuitBreaker.NothingAdmittedInQuarantine | app/provider_resilience.py:65-75 | after an opening and until a success nothing is admitted before the reset time, whatever late failures come in |
| CircuitBreaker.LockedOutIff | app/provider_resilience.py:116-117 | no schedule ever gets a call admitted iff the circuit is half-open and no call is in flight |
| CircuitBreaker.CancelledProbeLocksOut | app/provider_resilience.py:92-117 | for every setting a run from the start reaches that state: failures until the circuit opens, a wait, a cancelled probe |
| CircuitBreaker.ProviderResilience.BeforeCall | app/provider_resilience.py:65-75 | admission as specified, other providers untouched |
| CircuitBreaker.ProviderResilience.Success | app/provider_resilience.py:77-90 | closes the circuit; a probe's success also clears the window |
| CircuitBreaker.ProviderResilience.Failure | app/provider_resilience.py:92-106 | appends the failure, keeps the window length, opens iff the window trips |
| CircuitBreaker.ProviderResilience.Push | app/provider_resilience.py:77-100 | appending and trimming leaves the newest outcomes, oldest first, up to the window size |
| CircuitBreaker.RetryLoop | app/provider_resilience.py:111-130 | at most the configured attempts, going on only after retryable errors, with bounded pauses in between; the report is success iff the last attempt was answered and absent iff it was cancelled |
| CircuitBreaker.ProviderResilience.Execute | app/provider_resilience.py:108-130 | a refused call changes nothing; an admitted one that is not cancelled updates the circuit by exactly one success or failure, and a cancelled one leaves it as admitted |
| CircuitBreaker.PauseIsSound | app/provider_resilience.py:122-126 | a pause is at least the backoff, at most a quarter more, and bounded by the configured maximum |
| CircuitBreaker.BackoffDoubles | app/provider_resilience.py:122-125 | the backoff starts at the configured value, doubles, and stays at the maximum |
| ContextWindow.EstimateContextTokens | app/compress/compressor.py:112-122 | the loop computes the estimate that all budgets speak about |
| ContextWindow.TextTokensIsCeiling | app/compress/compressor.py:104-109 | one token for every four characters, rounded up |
| ContextWindow.FitTextTokens | app/compress/compressor.py:666-674 | a text fitted to a token budget stays within it except for one token at a budget of exactly 7, and is never empty |
| ContextWindow.FitTextKeepsEnds | app/compress/compressor.py:666-674 | a cut text keeps equally much of both ends; its exact length, 30 for limits of 25 to 29 |
| ContextWindow.WindowFits | app/compress/compressor.py:604-652 | summary and kept messages cost at most the budget |
| ContextWindow.WindowKeepsNewest | app/compress/compressor.py:604-640 | the kept messages are a run of the newest or the newest alone and cut; it survives always, and verbatim exactly if its cost is at most max_tokens - 4 and not the one digest case |
| ContextWindow.WindowIsMaximal | app/compress/compressor.py:622-637 | whatever a window holds, one more older message would exceed the budget |
| ContextWindow.CutFillsWindow | app/compress/compressor.py:627-636 | a newest message that has to be cut fills the window to the last token |
| ContextWindow.SummaryTakesTheRest | app/compress/compressor.py:607-618 | the summary is cut only if it does not fit beside the newest message, and then it takes all that is left, and one token more in the digest case |
| ContextWindow.FittingWindowIsFixed | app/compress/compressor.py:604-652 | a window that fits is left as it is |
| ContextWindow.KeepNewest | app/compress/compressor.py:622-637 | the backward loop keeps exactly the messages the recursive specification keeps |
| ContextWindow.TrimToBudget | app/compress/compressor.py:639-652 | the trimming loop and the last fallback reach the budget from any start and do nothing to a window that fits |
| ContextWindow.FitModelWindow | app/compress/compressor.py:604-652 | the whole function: its result is the untrimmed window, within budget, with its own exact estimate |
| ContextWindow.CompressAfterBreakpoint | app/compress/breakpoint.py:98-123 | messages before the breakpoint are untouched and long tool results behind it are cut, for any breakpoint value |
| ContextWindow.BreakpointIff | app/compress/breakpoint.py:81-95 | behind the breakpoint lie the newest `keep_recent` tool messages, if there are more than that |
| ContextWindow.CutKeepsBeginning | app/compress/breakpoint.py:110-116 | a cut tool result keeps its beginning, ends in the suffix and is exactly as long as allowed |
| ContextWindow.CondensedIs | app/compress/compressor.py:230-232 | message by message: only tool results of more than 2000 characters among those are cut, to 2000 |
| ContextWindow.ToolBoundIff | app/compress/breakpoint.py:98-123 | a cut tool result meets its bound iff the bound holds the suffix or it was short anyway |
| ContextWindow.SmallToolBoundExceeded | app/compress/breakpoint.py:110-116 | at a bound of twelve every longer tool result becomes thirteen characters |
| ContextWindow.CondensedIsFixed | app/compress/breakpoint.py:81-123 | cutting tool results is idempotent and moves no breakpoint |
| ContextWindow.CompressedFitsBudget | app/compress/compressor.py:189-271 | every context that compression returns is within budget and its estimate is that of its own model messages |
| ContextWindow.SafeBoundedFitsBudget | app/compress/compressor.py:344-377 | so is every last-resort context, with a given, inherited or missing summary, from a message list or a context |
| ContextWindow.CompressedKeepsNewest | app/compress/compressor.py:189-271 | which messages a returned context holds on each path; the newest is never dropped, and is verbatim iff the context is below the threshold or it fits beside its summary |
| ContextWindow.CompressedKeepsMost | app/compress/compressor.py:259-261 | a returned context holds the last `keep_recent` messages or as many as the budget allows: the next older one would exceed it; if they all fit beside the summary they are all kept as they are |
| ContextWindow.SafeBoundedKeepsNewest | app/compress/compressor.py:344-377 | the same for last-resort contexts |
| ContextWindow.SafeBoundedKeepsMost | app/compress/compressor.py:344-377 | the same for last-resort contexts, with their counts |
| ContextWindow.CompressionStatus | app/compress/compressor.py:233-271 | when a context is left as it is, compressed or degraded, and what it counts in each case |
| ContextWindow.RecompressionIsIdentityIff | app/compress/compressor.py:201-271 | compressing a returned context again gives an equal context in every field iff it is not degraded |
| ContextWindow.LastResortIsNotFixed | app/compress/compressor.py:344-377 | a last-resort context always changes when it is compressed again, and then no more |
| RecallMetrics.Unique | app/eval/recall_metrics.py:13-21 | the first occurrences, all distinct, of exactly the given ids |
| RecallMetrics.UniqueOfGrows | app/eval/recall_metrics.py:13-21 | ids keep the order of their first occurrences |
| RecallMetrics.NdcgBounds | app/eval/recall_metrics.py:49-66 | NDCG is in [0,1] for all lists and k, and 1 iff something is relevant and the distinct results start with the first k relevant ids |
| RecallMetrics.GainIs | app/eval/recall_metrics.py:55-57 | grades go down by one from the first relevant id to the last |
| RecallMetrics.SwapGain | app/eval/recall_metrics.py:58-65 | of two neighbouring results, putting the better one first raises the discounted sum by the difference of grades times the difference of discounts |
| RecallMetrics.DominatedDcg | app/eval/recall_metrics.py:58-66 | summation by parts: dominated prefix sums give a smaller discounted sum under every strictly decreasing positive discount, equal only for equal gains |
| RecallMetrics.DistinctSumBound | app/eval/recall_metrics.py:55-65 | distinct positive grades sum to at most the largest ones |
| RecallMetrics.RecallBounds | app/eval/recall_metrics.py:29-36 | recall is in [0,1], and 1 iff all relevant ids are among the first k distinct results |
| RecallMetrics.RecallIs | app/eval/recall_metrics.py:29-36 | recall counts the relevant ids among the first k distinct results over all relevant ids |
| RecallMetrics.Mrr | app/eval/recall_metrics.py:39-46 | 1/(n+1) if the first relevant distinct result has index n, 0 iff nothing relevant was retrieved, 1 iff the first result is relevant |
| RecallMetrics.EvaluateRecall | app/eval/recall_metrics.py:83-99 | averages of the three metrics, all within the schema's bounds; an error iff k < 1 |
| RecallMetrics.TotalConcat | app/eval/recall_metrics.py:90-99 | the sums that are averaged go sample by sample |
| IdentityMatcher.VariantFacts | app/tools/identity_matcher.py:85-94 | the loops that overwrite from variants and only default from attributes compute the specified fact map |
| IdentityMatcher.VariantFactsAre | app/tools/identity_matcher.py:85-94 | a fact is the last variant attribute of its name, or else, for known names, the first plain one |
| IdentityMatcher.IdentityFactsAre | app/tools/identity_matcher.py:97-103 | a present brand or model is a fact, every other fact is as before |
| IdentityMatcher.AuthorityIdentifierIs | app/tools/identity_matcher.py:106-113 | a non-blank GTIN identifies, only without one a non-blank MPN |
| IdentityMatcher.MaterialComparison | app/tools/identity_matcher.py:134-187 | the verdict does not depend on the order of fields: agreeing, one-sided and disagreeing fields decide it |
| IdentityMatcher.MatchIsSymmetric | app/tools/identity_matcher.py:190-214 | verdict and evidence are the same both ways |
| IdentityMatcher.EvidenceShows | app/tools/identity_matcher.py:134-187 | field by field which names are matched, missing and conflicting, and the basis of the verdict |
| IdentityMatcher.DifferentIdentifiers | app/tools/identity_matcher.py:190-214 | different identifiers conflict, and one on a single side is missing on the other |
| IdentityMatcher.MatchWithoutIdentifiersIff | app/tools/identity_matcher.py:134-214 | without identifiers offers match iff their fact maps are equal and contain brand and model |
| IdentityMatcher.MatchIsEquivalenceWithoutIdentifiers | app/tools/identity_matcher.py:190-214 | so it is an equivalence on the offers with brand and model |
| IdentityMatcher.MatchWithIdentifiersIff | app/tools/identity_matcher.py:190-214 | with identifiers offers match iff these agree and no common fact disagrees |
| IdentityMatcher.ChainClosesIff | app/tools/identity_matcher.py:190-214 | two matches compose iff no field the middle offer is silent about differs between the outer ones |
| IdentityMatcher.MatchIsNotTransitive | app/tools/identity_matcher.py:190-214 | three offers whose matching does not compose |
| IdentityMatcher.ReferenceIsMaximal | app/tools/identity_matcher.py:262-278 | no offer beats the reference in (matches, strength) and the earlier ones are strictly worse |
| IdentityMatcher.CountIsOthers | app/tools/identity_matcher.py:265-271 | the match count is the number of other offers that match |
| IdentityMatcher.ReferenceIsBest | app/tools/identity_matcher.py:217-224 | nobody beats the reference in matches, then identifier, then brand and model, then number of facts, then place |
| IdentityMatcher.SingleOfferShows | app/tools/identity_matcher.py:227-238 | what the evidence of an unmatched offer shows and asks for |
| IdentityMatcher.FindReference | app/tools/identity_matcher.py:262-278 | the best-so-far loop finds that reference |
| IdentityMatcher.SplitAround | app/tools/identity_matcher.py:280-304 | every offer is labelled once, in input order, with the evidence the code attaches |
| IdentityMatcher.ClassifyExactOffers | app/tools/identity_matcher.py:250-308 | a partition in input order into a group of zero or at least two, which is all that matches the reference, and empty iff no two offers match |
| DecisionEngine.NegationFlipsVerdict | app/tools/decision_engine.py:120-226 | on the same evidence a negated constraint is satisfied where the original is violated, and unknown where it is unknown |
| DecisionEngine.NumericVerdict | app/tools/decision_engine.py:120-162 | satisfied, violated or unknown over the numeric evidence, with the boundary of each operator |
| DecisionEngine.TextVerdict | app/tools/decision_engine.py:165-213 | the same over the textual evidence: required and forbidden text, equality and inequality, and the title where it may decide |
| DecisionEngine.LooserBoundKeepsOffer | app/tools/decision_engine.py:120-162 | loosening a numeric bound never turns a satisfied offer away |
| DecisionEngine.EligibleIffAllSatisfied | app/tools/decision_engine.py:448-472 | an offer is recommended iff every constraint is satisfied |
| DecisionEngine.EligibleIffMeetsAll | app/tools/decision_engine.py:448-472 | an offer is recommended iff its evidence meets every constraint, said without the evaluation |
| DecisionEngine.OtherBuckets | app/tools/decision_engine.py:452-471 | unverified iff something is unknown, excluded iff nothing is and something is violated |
| DecisionEngine.BucketInOrder | app/tools/decision_engine.py:448-472 | buckets keep the order of the offers |
| DecisionEngine.CurrentPreferencesIff | app/memory/injector.py:31-43 | what the request states, by its lists and its material constraints |
| DecisionEngine.RememberedAppliesIff | app/memory/injector.py:31-112 | a remembered preference counts iff the request is silent on its field and does not speak about it |
| DecisionEngine.MatchedTermsBounds | app/tools/decision_engine.py:292-308 | the score's numerator is full iff every term is present or absent as wanted, and zero iff none is |
| DecisionEngine.PreferenceTermsIff | app/tools/decision_engine.py:266-282 | which terms count, with which polarity, each once |
| DecisionEngine.PreferenceScoreIs | app/tools/decision_engine.py:292-308 | the rounded share of matched terms, one half without any |
| DecisionEngine.DictionaryOrder | app/tools/decision_engine.py:507 | texts in the sort key compare by the first differing character, a prefix first |
| DecisionEngine.RankedLeIsTotalPreorder | app/tools/decision_engine.py:493-507 | the sort key orders all offers |
| DecisionEngine.RankingMembers | app/tools/decision_engine.py:474-509 | the ranking lists exactly the offers whose evidence meets every constraint, each with its own key |
| DecisionEngine.RankingHonoursPriorities | app/tools/decision_engine.py:493-509 | earlier means more relevant; ties go to the first priority of the profile, then the next, then cost, delivery time, platform and item id |
| DecisionEngine.Decide | app/tools/decision_engine.py:413-525 | the three buckets in input order and the first one to three places of the ranking |
| DecisionEngine.SameRank | app/memory/injector.py:31-43 | removing a constraint that does not speak about material changes no offer's key |
| DecisionEngine.RemovalKeepsEligible | app/tools/decision_engine.py:448-472 | removing a constraint keeps eligible offers eligible |
| DecisionEngine.RemovalKeepsRelativeOrder | app/tools/decision_engine.py:448-510 | removing a non-material constraint leaves the old ranking embedded in the new one in the same order |
| DecisionEngine.FirstPlaceLostOnlyToNewcomer | app/tools/decision_engine.py:448-510 | the old first place is lost only to an offer that was not eligible before |
| ConstraintRelaxations.ApplyRelaxations | app/agent/main_agent.py:140-175 | the loop's result and its two errors; the last change listed for an id counts |
| ConstraintRelaxations.ChangeForIsLast | app/agent/main_agent.py:149-155 | the last change listed for an id is the one that applies |
| ConstraintRelaxations.RelaxedInOrder | app/agent/main_agent.py:154-173 | a plan is relaxed constraint by constraint, in order |
| ConstraintRelaxations.OneRelaxed | app/agent/main_agent.py:154-173 | one constraint is kept, dropped or replaced, and the record says what was done |
| ConstraintRelaxations.ReplacementShape | app/agent/main_agent.py:154-173 | replacements keep every constraint's place and id |
| ConstraintRelaxations.UndoRestoresIff | app/agent/main_agent.py:140-175 | putting the recorded previous constraints back restores the plan exactly iff nothing was removed |
| ConstraintRelaxations.RemovedConstraintStaysAway | app/agent/main_agent.py:148-152 | a plan whose only constraint was removed refuses to put it back |
| ImportTax.GeneralRoundingBound | app/tools/import_tax.py:44-59 | the general-trade total is within 1/2 + (1+v)(1 + k/(2(1-k))) cents of the exact formula |
| ImportTax.GeneralMonotone | app/tools/import_tax.py:44-59 | every general-trade component is non-decreasing in the customs value |
| ImportTax.CrossBorderMonotone | app/tools/import_tax.py:60-74 | so is every cross-border component |
| ImportTax.PostalCliff | app/tools/import_tax.py:75-91 | across the exemption limit: exempt and payable parts add up, nothing up to the limit is paid, more value never costs less |
| ImportTax.TotalMonotone | app/tools/import_tax.py:19-131 | in every regime the total is non-decreasing in the value it taxes |
| ImportTax.TotalIsSumOfComponents | app/tools/import_tax.py:59-126 | the reported total is the sum of the reported components, or the unexempted postal tax |
| ImportTax.GeneralReports | app/tools/import_tax.py:44-59 | each reported tax is its rate on the value and the taxes before it, rounded half up |
| ImportTax.CrossBorderReports | app/tools/import_tax.py:60-74 | no tariff, and 70% of consumption tax and VAT on the value with consumption tax in it, rounded half up |
| ImportTax.PostalReports | app/tools/import_tax.py:75-91 | the rate on the assessed value, waived up to the rounded threshold and due in full above it |
| ImportTax.SellerReports | app/tools/import_tax.py:92-95 | a collected tax is passed on as quoted, in cents |
| ImportTax.CrossBorderNeverDearerIff | app/tools/import_tax.py:44-74 | the cross-border total exceeds the general-trade total iff the value is one cent, 30% < k < 1/3, tariff and VAT are below 50% and 1.4 v >= 1 - k |
| ImportTax.OneCentDearer | app/tools/import_tax.py:44-74 | an input of that family |
| RateLimiter.SlidingWindowRateLimiter.Allow | app/security.py:163-171 | acceptance, stored window and retry time as specified; other keys untouched |
| RateLimiter.AcceptsBounded | app/security.py:163-171 | no half-open interval of the window's length contains more than 2 limit - 1 accepted calls |
| RateLimiter.BoundIsReached | app/security.py:163-171 | for every limit and window a trace reaches that bound |
| RateLimiter.NothingAccepted | app/security.py:163-171 | a limit below one refuses everything |
| RateLimiter.RetryTimeIsExact | app/security.py:163-171 | after a refusal everything before the announced time is refused and the first call at or after it is accepted |

## Left out

- HTTP, WebSocket, JSON and file mechanics, authentication, uploads, report rendering, tracing: a write or send either succeeds or leaves its target unchanged, and which one is an input.
- Language models, search, embeddings, exchange-rate and customs lookups: their results are arbitrary inputs.
- Floating point and `Decimal` precision: amounts, rates, scores and times are exact reals, cents after rounding are integers, the rank discount 1/log2 is any strictly decreasing positive function, and the content digest is any function to twelve characters.
- Text normalisation, number parsing, unit conversion, product text search and rounding of scores to four places are function parameters.
- `PriorityRequestQueue.reset` and a cancellation inside the release block, which break lease accounting by themselves; first-in-first-out order among equal priorities, which the code does not promise; `classify`, tier priorities and wait-time estimates.
- `create_task` raises its drain counter before some refusals; the counter is not modelled.
- `TaskLifecycle.TaskServer.CommitCreate`: whether somebody holds the owner lock is an input of the method; in `TaskProtocol` it is true whenever the worker or a reader holds it, and may be true otherwise.
- `TaskLifecycle.TaskServer.BeginDelete`: the authorisation of the caller is not modelled; the wait for the cancelled run lies between it and `FinishDelete`.
- Cancelling a task is the event `task_cancelled` followed by the end of the run; the shielded wait for the run's end is not modelled.
- Legacy snapshot migration, readiness reporting and the pruning schedule; a pruned record is a step that may happen at any time after the run.
- `Lineage.CommandServer.IssueCommand`: the caller supplies the list of its snapshots, whose order does not matter; starting the child's run is outside the model, and a failure to start it is not modelled.
- `CircuitBreaker.ProviderResilience.Execute`: stated for one call without others in between, which `RunCircuitInv` and its companions add; the per-provider semaphore and a cancellation while waiting for it are not modelled; settings are fixed during a run.
- `ContextWindow.CompressedFitsBudget`: messages are typed messages that do not become blank by truncation; dictionaries and other message objects, and the rendering of summaries, are not modelled.
- `IdentityMatcher.ClassifyExactOffers`: offers are referred to by their index and evidence; explanation texts are left out and sorted field lists are sets.
- `DecisionEngine.Decide`: the offers are those left after identity matching, which is `IdentityMatcher`'s result in exact-offer mode; reasons, score displays, preference decision records and relaxation suggestions are left out.
- `ConstraintRelaxations.ApplyRelaxations`: the reason text of a change is left out.
- `RecallMetrics`: the release gate is a comparison with fixed thresholds and is left out.
- `RateLimiter`: statements about traces fix one key with one limit and window length.
