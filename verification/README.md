# Verified models of KRCORE's RDMA stack

Dafny models of the stateful core of this repository, with proofs about every run
of it.  `dafny verify dfyconfig.toml` checks the whole project.

What is modelled, in the system's own terms:

- **Cooperative runtime** (`RuntimeModel`, `RuntimeSafety`, `RuntimeRuns`,
  `RuntimeLife`, `RuntimeWorker`).  A worker with its spawner queue, its run queue of 1024 slots,
  its task map and `WAITING`.  Tasks are arbitrary programs that yield, wait or
  return.  The `Wait` future completes on its second poll whatever the waitable
  says; `WaitOnGuarantee` is the proof that this is right all the same.
- **r2 coroutine scheduler** (`RingList`, `CoroutineModel`, `CoroutineSafety`,
  `CoroutineLife`, `CoroutineRuns`, `CoroutineErrors`, `CoroutineScheduler`).  The intrusive ring on the
  heap, whose header has a stale `prev`, and above it the pending-future counts and the
  order of execution.  A future's report names a coroutine, which need not be the one
  that registered the future.
- **RC connections** (`QueuePairs`, `UserCm`, `UserCmSafety`, `UserCmLaws`, `KernelCm`,
  `KernelCmSafety`, `KernelCmLaws`, `CmEndpoints`).  Bring-up from RESET to RTS as in section 10.3.1
  of the InfiniBand Architecture Specification, Volume 1, and two distributed
  protocols above it: JSON messages over TCP streams in user mode, and the
  connection manager messages of chapter 12 of that volume in kernel mode.
- **Meta-KV directory** (`MetaKvModel`, `MetaKvSafety`, `MetaKvQueries`,
  `MetaKvOverlap`, `MetaKvLaws`, `MetaKvServer`).  A map published as a flat image on
  twelve pages that clients read one-sidedly.  Each entry copy and each read is a step
  of its own.
- **Virtual-queue pushes** (`BindServer`, `BindServerFaults`, `ChunkedPush`, `PushNic`).
  Selective signalling with receive replenishment on a bound server, and chunked
  submission with a migration from DC to RC under way.
- **Doorbell batching** (`DoorbellModel`, `DoorbellNic`, `Doorbell`).  The circular array
  of work requests, cut, posted and closed again, against single posts and against what
  the requests ask for.
- **Smaller parts**: the life of cm ids (`CmLifetime`, `CmLifetimeLaws`), the bump
  allocator behind jemalloc's extent hook (`ExtentAllocator`), and the 48-bit generator (`Lcg`).

Each component is a state machine over values, a theorem about all its runs, and,
where the code updates objects in place, a class whose methods are proved equal to
the machine's steps.  Beside the invariants there are laws that say what the state is
in terms of the steps of a run alone: who is where, what is stored, what was answered.
`Collections`, `Remainders`, `Histories` (the last step that put a value and none that
took it away) and `NicMemory` (bytes by key and address) are shared.

Inputs of a step stand for what the code cannot control: which verb fails, what a
waitable or future reports, which message is lost, what address the heap returns,
before which chunk the migration thread fires.

Where a promised property does not hold for all inputs, the exact condition is
proved and an example is given:

- A batch of the bound server with a client id divisible by 12 is sent, although
  the code calls such an id invalid, and its slot is never settled
  (`BindServer.BalancedExactly`, `BindServer.ZeroSlotLeaks`).
- A push without a local DC returns "nil" per chunk, which does not stop the loop; if
  RC arrives later, the call succeeds without its first chunks
  (`ChunkedPush.SilentDropExactly`, `ChunkedPush.SilentDrop`).
- The kernel server's documentation calls the cm id's address a safe key; an entry is
  replaced exactly if its connection lost its cm id before its DREQ was handled
  (`KernelCmSafety.ReplacedExactly`, `KernelCmSafety.StaleKeyReached`).
- A cm id whose callback failed is destroyed and freed by the kernel; its owner's later
  drop still goes to the address (`CmLifetime.FaultExactly`,
  `CmLifetime.ForeignDestroyed`).
- The one-sided image agrees with the directory exactly for endpoints registered under
  their own gid (`MetaKvQueries.AgreementExactly`); during registrations a query can
  miss a gid exactly if one of them copies another gid into the slot that it had when
  the count was read (`MetaKvOverlap.MissExactly`, `MetaKvOverlap.ConcurrentQueryCanMiss`,
  `MetaKvOverlap.TwoRegistrationsCanMiss`).
- A coroutine's own count is what its own futures owe exactly as long as every future
  reports about its own coroutine, which the futures of the repository do not
  (`CoroutineSafety.OwnExactly`, `CoroutineRuns.CrossedReports`).
- An error leaves its coroutine's count where it was; the coroutine's next successful
  wait wakes it exactly if there was no error before (`CoroutineErrors.LastWord`,
  `CoroutineErrors.LostForGood`, `CoroutineErrors.ErrorThenLost`).
- A registration whose response cannot be serialized leaves a queue pair registered that
  nobody has the key of (`UserCmLaws.Refused`).
- A posted range of 2^32 bytes or more is cut (`DoorbellNic.WholeExactly`).
- The last byte of the allocator's region is never handed out
  (`ExtentAllocator.RefusedExactly`).

## Model

| member | source | states |
|---|---|---|
| RuntimeRuns.SchedulerInvariant | KRdmaKit/src/runtime/worker.rs:84-122 | In every run whose id counter has not wrapped and whose queue has not overflowed, each drained unfinished task is in exactly one of the run queue (once) and `WAITING`, and the number of tasks is the sum of both |
| RuntimeLife.NobodyLost | KRdmaKit/src/runtime/worker.rs:84-167 | After any run without an overflow, an id is in exactly one of the spawner, the run queue and `WAITING`, and once, if and only if its spawn found room and no poll of the run has run it to its end; ids count the spawns |
| RuntimeLife.StepMoves | KRdmaKit/src/runtime/worker.rs:84-167 | Where every step puts every task: a drain the oldest spawned one into the queue, a poll its head back into it, into `WAITING` or nowhere, a wait round the finished ones back; all others stay |
| RuntimeLife.PollEffect | KRdmaKit/src/runtime/worker.rs:84-99 | A poll takes the head of the queue; one that yields is at the back afterwards, one that waits in `WAITING`, one that returns nowhere |
| RuntimeLife.RoundEffect | KRdmaKit/src/runtime/worker.rs:101-122 | A wait round appends exactly the tasks whose waitables are finished, in ascending order of their ids, and leaves exactly the others waiting |
| RuntimeLife.ResumedWhenPolled | KRdmaKit/src/runtime/waitable.rs:62-90 | After any run, the next poll of a task resumes every wait that the task has suspended in and not been resumed from |
| RuntimeRuns.WaitOnGuarantee | KRdmaKit/src/runtime/waitable.rs:62-90 | In every run, each resumption of a task suspended in `wait_on` comes after that suspension and after a Ready or Error report of its own waitable in between; it yields Ok exactly for Ready; no freed cell is ever touched |
| RuntimeRuns.PanicExactly | KRdmaKit/src/runtime/worker.rs:84-122 | A step fails on a full queue if and only if it needs more runnable tasks than the 1024 slots: a drain one more, a wait round one per finished waitable |
| RuntimeRuns.FitsNeverPanics | KRdmaKit/src/runtime/worker.rs:131-167 | No push fails in a run that never has more than 1024 live tasks |
| RuntimeRuns.BoundedWaiting | KRdmaKit/src/runtime/worker.rs:155-167 | The id at position k of the run queue is the one found by the (k+1)-th poll, whatever is spawned, drained, yielded or woken in between |
| RuntimeRuns.Fifo | KRdmaKit/src/runtime/worker.rs:155-167 | After any run with n polls, the queue still starts with what it held behind its first n entries |
| RuntimeRuns.IdsUnique | KRdmaKit/src/runtime/tid.rs:18-20 | Two generated ids are equal if and only if their calls are a multiple of 2^64 apart |
| RuntimeRuns.RunGood | KRdmaKit/src/runtime/worker.rs:67-127 | Every run keeps the global invariant, up to the step that overflows the queue |
| RuntimeRuns.StepGood | KRdmaKit/src/runtime/worker.rs:67-127 | Every step keeps it |
| RuntimeRuns.SpawnInv | KRdmaKit/src/runtime/worker.rs:131-146 | A spawn keeps the invariant: its id is new |
| RuntimeRuns.DrainInv | KRdmaKit/src/runtime/worker.rs:155-167 | Draining one spawned task keeps the invariant and replaces no live task; it fails exactly on a full queue |
| RuntimeRuns.PollInv | KRdmaKit/src/runtime/worker.rs:84-99 | A poll keeps the invariant, and the polled task never fails to re-queue itself |
| RuntimeRuns.RoundInv | KRdmaKit/src/runtime/worker.rs:101-122 | A wait round appends exactly the finished tasks, each once, to the queue, and fails exactly if they do not fit |
| RuntimeSafety.TaskCount | KRdmaKit/src/runtime/worker.rs:84-122 | Under the invariant the queue and `WAITING` partition the tasks |
| RuntimeWorker.DrainAllIsRun | KRdmaKit/src/runtime/worker.rs:155-167 | Draining the whole spawner is a run of single drains |
| RuntimeWorker.VisitsAreRun | KRdmaKit/src/runtime/worker.rs:84-99 | The loop over the tasks of a round is a run that polls once per visit, each time with nothing left in the spawner, and besides only drains |
| RuntimeWorker.TurnsAreRun | KRdmaKit/src/runtime/worker.rs:78-124 | Everything the loop of `start` does is one of the runs: turn by turn the spawns that came in, a poll per visit with the spawner empty, and one pass over all waitables |
| RuntimeWorker.Worker.StartLoop | KRdmaKit/src/runtime/worker.rs:78-124 | The loop of `start` equals the recursive specification of its turns |
| RuntimeWorker.Worker.Spawn | KRdmaKit/src/runtime/worker.rs:131-146 | The object after `spawn` is the state machine after its spawn step; a full spawner refuses |
| RuntimeWorker.Worker.PushId | KRdmaKit/src/runtime/task.rs:68-70 | A push appends or fails on a full queue |
| RuntimeWorker.Worker.FindTask | KRdmaKit/src/runtime/worker.rs:155-167 | Drains the spawner, then takes the oldest id of the run queue |
| RuntimeWorker.Worker.ResumeTask | KRdmaKit/src/runtime/waitable.rs:62-90 | The second poll of a suspended future: its result is what the cell says, and the cell is freed |
| RuntimeWorker.Worker.SuspendTask | KRdmaKit/src/runtime/task.rs:85-105 | Yield, wait or return: behind the queue again, in `WAITING` with a fresh cell, or out of the task map |
| RuntimeWorker.Worker.PollTask | KRdmaKit/src/runtime/worker.rs:84-99 | A poll of an id: nothing if it has no task, else resume and run on to the next suspension |
| RuntimeWorker.Worker.VisitOnce | KRdmaKit/src/runtime/worker.rs:84-99 | One turn of the task loop |
| RuntimeWorker.Worker.RunTasks | KRdmaKit/src/runtime/worker.rs:84-99 | The task loop equals the recursive specification of its turns |
| RuntimeWorker.Worker.PollWaitable | KRdmaKit/src/runtime/waitable.rs:20-22 | One waitable is polled and a final status is written to its cell |
| RuntimeWorker.Worker.PollWaitables | KRdmaKit/src/runtime/worker.rs:101-122 | The loop over all waitables: reports in key order and collects exactly the finished ids |
| RuntimeWorker.Worker.WakeTask | KRdmaKit/src/runtime/task.rs:68-70 | A finished waitable leaves `WAITING` and its task id goes to the back of the queue |
| RuntimeWorker.Worker.WaitRound | KRdmaKit/src/runtime/worker.rs:101-122 | The whole wait round equals its specification |
| RingList.FollowRing | deps/r2/src/linked_list.hh:38-72 | Walking `next` from the header visits every runnable coroutine once, in order, and returns to the header |
| RingList.Bypassed | deps/r2/src/linked_list.hh:62-72 | A ring in which one node other than the header is bypassed is a ring of the others |
| RingList.LinkedList.Add | deps/r2/src/linked_list.hh:38-55 | Adding a node keeps the ring shape and appends it, although the header's `prev` is never written |
| RingList.LinkedList.LeaveOne | deps/r2/src/linked_list.hh:62-72 | Unlinking a node other than the header keeps the ring shape without it and returns its successor |
| CoroutineSafety.PendingConservation | deps/r2/src/sshed.cc:61-99 | In every disciplined error-free run, whichever coroutine's requests the futures report: the sum of all pending counts and the sum of what all futures have not reported differ exactly as what was waited for and what was entrusted to futures; no assertion failed; the ring has no duplicate and starts at coroutine 0; and a live coroutine other than the running one is in the ring if and only if nothing of it is pending |
| CoroutineSafety.PausedMeansFuture | deps/r2/src/sshed.hh:79-82 | With `emplace_for_routine` alone both sums are equal, so while anything is pending a future is registered |
| CoroutineLife.PendingExactly | deps/r2/src/sshed.cc:61-99 | In every disciplined error-free run: what is pending of a coroutine is what it has waited for less what reports have named as its own, and what the futures have not reported is what was entrusted to them less all reports |
| CoroutineLife.RunnableExactly | deps/r2/src/sshed.cc:28-99 | And a coroutine that is not running is in the ring if and only if it was spawned, has not taken its exit, and all it has waited for was reported |
| CoroutineLife.ExitedForGood | deps/r2/src/sshed.cc:47-59 | Once a coroutine has taken its exit it is in no ring and never runs again, in any continuation |
| CoroutineLife.ExitKeepsOthers | deps/r2/src/sshed.cc:47-59 | An exit takes exactly the running coroutine out of the ring, keeps the order of the others, and runs the one behind it |
| CoroutineSafety.HonestExactly | deps/r2/src/sshed.cc:61-99 | A report keeps the invariant if and only if it is honest: about a coroutine that has that much pending, less than the future has left, or exactly that as its last word; errors never do |
| CoroutineSafety.OwnExactly | deps/r2/src/rdma/async_op.hh:44-66 | That every coroutine's own count equals what its own futures have left survives an honest report if and only if the report names the coroutine of the future, or nothing |
| CoroutineRuns.CrossedReports | deps/r2/src/rdma/sop.hh:180-196 | An error-free run from the start in which one future polls the completion of another coroutine: that one is runnable with its future still registered, and the future's own coroutine waits without a future |
| CoroutineRuns.SpentFutureBreaks | deps/r2/src/sshed.cc:61-99 | A run from the start: a future that reports everything through NearOk stays registered, its coroutine runs, and its Ok with nothing left fails the `active == false` assertion |
| CoroutineErrors.ErrorsKeepRing | deps/r2/src/sshed.cc:61-99 | With one future per coroutine and reports about its own coroutine, errors included, every run keeps the assertions and the ring without duplicates, and who is outside it is inactive and waits |
| CoroutineErrors.LastWord | deps/r2/src/sshed.cc:71-97 | The last report of a future wakes its coroutine if and only if it is an error or the coroutine has no debt, that is, nothing pending beyond what its future has left |
| CoroutineErrors.DebtAfter | deps/r2/src/sshed.cc:71-97 | A debt changes by an error alone, which adds what the future had not reported |
| CoroutineErrors.LostForGood | deps/r2/src/sshed.cc:71-97 | A coroutine that waits with a debt is never woken in any continuation in which it gets no further error |
| CoroutineErrors.ErrorThenLost | deps/r2/src/sshed.cc:71-97 | A run from the start: a first request fails, the coroutine goes on with a second one, and its success does not wake it |
| CoroutineErrors.RunInv | deps/r2/src/sshed.cc:28-99 | Every such run keeps the invariant with errors |
| CoroutineSafety.RoundRobin | deps/r2/src/sshed.hh:103-122 | Without spawns, a runnable coroutine is executed after exactly as many switches as its ring distance, which is below the ring size |
| CoroutineSafety.SwitchCloser | deps/r2/src/sshed.hh:103-122 | Every yield, pause or exit brings every other runnable coroutine exactly one step closer |
| CoroutineSafety.OtherwiseSame | deps/r2/src/sshed.cc:61-99 | Everything else but a spawn, waking included, leaves every ring distance as it is |
| CoroutineSafety.RunInv | deps/r2/src/sshed.cc:28-99 | Every run keeps the scheduler invariant |
| CoroutineSafety.StepInv | deps/r2/src/sshed.cc:28-99 | Every step keeps it |
| CoroutineSafety.PollAtInv | deps/r2/src/sshed.cc:61-99 | An honest report keeps the invariant, so the coroutine it completes is outside the ring and inactive |
| CoroutineSafety.PollFromInv | deps/r2/src/sshed.cc:61-99 | The whole polling loop keeps it under honest reports and only appends to the ring |
| CoroutineSafety.HonestAddable | deps/r2/src/sshed.cc:61-99 | Honest reports never add a coroutine to the ring it is in, so the polling loop may be called in every state the runs reach |
| CoroutineSafety.PendingParked | deps/r2/src/sshed.cc:90-97 | While coroutine 0 polls, a coroutine with something pending is inactive, outside the ring and has not exited |
| CoroutineScheduler.SScheduler.constructor | deps/r2/src/sshed.cc:13-26 | The polling coroutine is header and current |
| CoroutineScheduler.SScheduler.Spawn | deps/r2/src/sshed.cc:28-45 | The heap after `spawn` is the state machine after its spawn step |
| CoroutineScheduler.SScheduler.EmplaceForRoutine | deps/r2/src/sshed.hh:79-82 | Both of them: a wait and the future for it |
| CoroutineScheduler.SScheduler.EmplaceFuture | deps/r2/src/sshed.hh:72 | Registers a future and raises no count |
| CoroutineScheduler.SScheduler.WaitNum | deps/r2/src/sshed.hh:83 | Raises a count and registers nothing |
| CoroutineScheduler.SScheduler.Execute | deps/r2/src/routine.hh:51-54 | The coroutine becomes current and active |
| CoroutineScheduler.SScheduler.YieldToNext | deps/r2/src/sshed.hh:116-122 | Refines the yield step |
| CoroutineScheduler.SScheduler.LeaveCurrent | deps/r2/src/linked_list.hh:62-72 | The running coroutine leaves the ring; its ring successor is returned |
| CoroutineScheduler.SScheduler.PauseAndYield | deps/r2/src/sshed.hh:103-108 | Refines the pause step |
| CoroutineScheduler.SScheduler.Pause | deps/r2/src/sshed.hh:110-114 | Pauses exactly while something is pending |
| CoroutineScheduler.SScheduler.Exit | deps/r2/src/sshed.cc:47-59 | Refines the exit step of a coroutine other than 0: its node leaves the ring and no other does |
| CoroutineScheduler.SScheduler.AddBack | deps/r2/src/sshed.cc:90-97 | Puts an inactive coroutine that is outside the ring back at the tail; an active one fails the assertion |
| CoroutineScheduler.SScheduler.CreditRoutine | deps/r2/src/sshed.cc:71-79 | Lowers a count and puts the coroutine back when it reaches 0 |
| CoroutineScheduler.SScheduler.FailRoutine | deps/r2/src/sshed.cc:81-97 | An error marks the coroutine and puts it back, leaving its count alone |
| CoroutineScheduler.SScheduler.HandleReport | deps/r2/src/sshed.cc:61-99 | One turn of the polling loop refines the report step, whichever coroutine the report names, errors, too much and unknown ids included |
| CoroutineScheduler.SScheduler.PollAllFutures | deps/r2/src/sshed.cc:61-99 | The polling loop, which erases from the list it walks, refines the recursive specification, errors and foreign ids included |
| QueuePairs.BringUpExactly | KRdmaKit/src/queue_pairs/operations_user.rs:588-700 | A queue pair is in RTS afterwards if and only if it was before, or it is an RC queue pair in RESET and no verb fails; it then has the given peer, number and PSN; outside RESET it is untouched; a failing verb leaves it in the state the verb before it reached; the call succeeds from RESET exactly if RTS is reached |
| QueuePairs.QueuePair.BringUpRcInner | KRdmaKit/src/queue_pairs/operations_user.rs:588-700 | The three modify steps, each possibly failing, equal the bring-up function; Ok exactly if they succeed |
| UserCmSafety.ConnectedIsMirrored | KRdmaKit/src/services_user/cm.rs:121-180 | In every run with any number of clients, lost messages, failing verbs and reused addresses: a live client queue pair with a key has an RTS queue pair under that key in `registered_rc`, and both mirror each other in number, address and PSN |
| UserCmSafety.KeysAreExclusive | KRdmaKit/src/services_user/cm.rs:121-170 | No two connected clients hold the same key |
| UserCmSafety.OthersUndisturbed | KRdmaKit/src/services_user/cm.rs:172-180 | No step of anybody changes or removes the registered queue pair of a connected client |
| UserCmSafety.ServeDeregInv | KRdmaKit/src/services_user/cm.rs:172-180 | A deregistration under way never names the key of a connected client |
| UserCmSafety.RunInv | KRdmaKit/src/queue_pairs/handshake_user.rs:23-163 | Every run keeps the protocol invariant: each key has at most one holder among responses, clients and deregistrations |
| UserCmSafety.StepInv | KRdmaKit/src/queue_pairs/handshake_user.rs:23-163 | Every step keeps it |
| UserCmLaws.RegisteredExactly | KRdmaKit/src/services_user/cm.rs:121-180 | After any run a queue pair is registered under a key if and only if a request was served under it without a failure before the store, no deregistration of it since; it is in RTS and points to where the last such request came from |
| UserCmLaws.ServedExactly | KRdmaKit/src/services_user/cm.rs:121-170 | From any state of the invariant: serving a waiting client's request puts a response with the key of a registered queue pair that points to the client under way if and only if nothing fails, and an error otherwise; nobody else is touched |
| UserCmLaws.ReceivedExactly | KRdmaKit/src/queue_pairs/handshake_user.rs:23-130 | A waiting client that receives its response is connected with its key if and only if its bring-up goes well, and gone otherwise |
| UserCmLaws.ConnectedExactly | KRdmaKit/src/queue_pairs/handshake_user.rs:23-163 | A client is connected with a key if and only if it received a response with the key, came up, and has not dropped the connection since |
| UserCmLaws.GoneForGood | KRdmaKit/src/queue_pairs/handshake_user.rs:23-163 | A client that gives up, gets an error, fails to come up or drops its connection is never connected again |
| UserCmLaws.CanConnect | KRdmaKit/src/queue_pairs/handshake_user.rs:23-130 | From every state of the invariant a new client can ask, be served and be connected, and then both ends mirror each other |
| UserCmLaws.ConnectedFromStart | KRdmaKit/src/queue_pairs/handshake_user.rs:23-130 | In particular from the start |
| UserCmLaws.ThereAndBack | KRdmaKit/src/services_user/cm.rs:172-180 | When such a client drops its connection and the server serves that, the server and the network are as they were before it came |
| UserCmLaws.Refused | KRdmaKit/src/services_user/cm.rs:121-170 | A client whose request meets a fault is gone in the end, and the server is as it was if and only if the fault is not the failing serialization, which leaves a queue pair that nobody has the key of |
| CmEndpoints.ServingIsStep | KRdmaKit/src/services_user/mod.rs:225-261 | Serving one message is the protocol step for it: the same queue pairs stay registered, and the answer written, none for a deregistration, is the response that gets under way |
| CmEndpoints.StreamIsRun | KRdmaKit/src/services_user/mod.rs:225-261 | The service loop over a stream is a run of the protocol, and the responses it writes are under way after it |
| CmEndpoints.ServedMirrored | KRdmaKit/src/services_user/mod.rs:225-261 | After any run and any stream served then, every connected client has its mirror image among the queue pairs the service loop leaves registered |
| CmEndpoints.AnsweredInOrder | KRdmaKit/src/services_user/mod.rs:225-261 | The j-th answer on a stream is the answer to the j-th message to be answered, given by the server as the messages before it left it |
| CmEndpoints.AnsweredAre | KRdmaKit/src/services_user/mod.rs:225-261 | The messages to be answered are, in order, those before the end of the stream that are not well-formed deregistrations |
| CmEndpoints.RepliesExactly | KRdmaKit/src/services_user/mod.rs:225-261 | Which message gets which answer: registration data exactly for a well-formed registration that meets no fault, memory regions if they serialize, nothing for a deregistration, an error otherwise; only the named key changes |
| CmEndpoints.OthersKept | KRdmaKit/src/services_user/mod.rs:225-261 | A stream that does not name a key leaves its queue pair as it was |
| CmEndpoints.ConnectionManagerServer.HandleRegRcReq | KRdmaKit/src/services_user/cm.rs:121-170 | Build, bring up, query, store, serialize: the map and the answer are those of the protocol step for every place it can fail; the answer is the new queue pair's data, stored under its key, exactly if nothing fails |
| CmEndpoints.ConnectionManagerServer.HandleMessage | KRdmaKit/src/services_user/mod.rs:242-258 | The dispatch of one message, unparsable payloads and other types included |
| CmEndpoints.ConnectionManagerServer.ServiceHandler | KRdmaKit/src/services_user/mod.rs:225-261 | The loop over a stream refines its recursive specification |
| CmEndpoints.PreparedQueuePair.Handshake | KRdmaKit/src/queue_pairs/handshake_user.rs:23-130 | The client's handshake: the queue pair, the result and the kept key are those of the protocol step, for every kind of answer |
| KernelCmSafety.HandshakeOk | KRdmaKit/src/queue_pairs/handshake_kernel.rs:15-87 | In every run with lost and duplicated messages, a handshake that returned Ok has a queue pair that the server created, brought to RTS and stored, mirroring the client's; it is still stored under its cm id while that id lives |
| KernelCmSafety.PairingStays | KRdmaKit/src/queue_pairs/callbacks.rs:12-23 | Once a client's queue pair has left RESET, no continuation changes its pairing or its connection, whatever REPs of whichever connections arrive |
| KernelCmSafety.ReplacedExactly | KRdmaKit/src/services/rc.rs:67-142 | In every run, a request stored at an address replaces an entry if and only if the connection stored there last lost its cm id without its DREQ having been handled, and it is that connection's entry |
| KernelCmSafety.StaleKeyOverwritten | KRdmaKit/src/services/rc.rs:67-78 | From any state with a connected client and a request under way, the client's entry is overwritten once an event destroys its cm id and the address is reused |
| KernelCmSafety.StaleKeyReached | KRdmaKit/src/services/rc.rs:67-78 | A run from the start that ends so |
| KernelCmSafety.AcceptOk | KRdmaKit/src/queue_pairs/callbacks.rs:12-23 | The first REP brings up a mirror image of the queue pair named in it |
| KernelCmSafety.RunInv | KRdmaKit/src/services/rc.rs:95-160 | Every run keeps the protocol invariant |
| KernelCmSafety.StepInv | KRdmaKit/src/services/rc.rs:95-160 | Every step keeps it |
| KernelCmLaws.RegisteredExactly | KRdmaKit/src/services/rc.rs:95-160 | After any run a queue pair is stored at an address if and only if a request was stored there and no DREQ of the connection stored there last has been handled; it is in RTS and points to the client of that request |
| KernelCmLaws.LiveExactly | KRdmaKit/src/services/rc.rs:95-160 | A connection's cm id lives at an address if and only if its request was served there without a fault and no event has destroyed it |
| KernelCmLaws.ServedExactly | KRdmaKit/src/services/rc.rs:95-142 | From any state of the invariant: a REP gets under way if and only if nothing fails, for a stored queue pair that points to the client, a REJ exactly if the queue pair could not be made, and nothing otherwise |
| KernelCmLaws.ReturnsExactly | KRdmaKit/src/queue_pairs/handshake_kernel.rs:15-87 | A handshake that ends after any run returns Ok if and only if its wait was signalled and a REP for the client was handled without a failing verb |
| KernelCmLaws.CanConnect | KRdmaKit/src/queue_pairs/handshake_kernel.rs:15-87 | From every state of the invariant a new client's handshake can return Ok, and then both ends mirror each other |
| KernelCmLaws.CanLeave | KRdmaKit/src/services/rc.rs:151-160 | When a client drops its connection and the DREQ is handled, the server has forgotten its queue pair and no other one |
| KernelCmLaws.ThereAndBack | KRdmaKit/src/services/rc.rs:95-160 | Both together leave the server as it was, but for what the address held before |
| KernelCmLaws.Refused | KRdmaKit/src/queue_pairs/callbacks.rs:25-34 | A client whose queue pair the server could not make has its wait signalled and its handshake end without Ok, and nothing is stored |
| CmEndpoints.ReliableConnectionServer.HandleReq | KRdmaKit/src/services/rc.rs:95-142 | The map, the message sent and whether the cm id lives on are those of the protocol step for every place it can fail |
| CmEndpoints.ReliableConnectionServer.HandleDreq | KRdmaKit/src/services/rc.rs:151-160 | Removes the entry of the cm id and no other one, as the protocol step does |
| CmEndpoints.KernelClient.HandleRep | KRdmaKit/src/queue_pairs/callbacks.rs:12-23 | Brings up and signals, or fails and signals nothing, as the protocol step does |
| MetaKvSafety.QuerySafety | KRdmaKit-syscall/src/virtual_queue.rs:1018-1063 | However registrations, evictions and queries interleave, an endpoint that a two-read query returns has the queried gid and was registered by an earlier step |
| MetaKvSafety.PublishedStays | KRdmaKit-syscall/src/rpc/protocol.rs:261-298 | A slot below any count ever published on its page holds a once-registered endpoint for ever after |
| MetaKvQueries.QuiescentAgreement | KRdmaKit-syscall/src/virtual_queue.rs:1018-1063 | A whole two-read query on any replica, started when no handler runs and not copied to meanwhile, answers as the query handler would have right after the last registration, whatever was evicted since, if endpoints are keyed by their own gid |
| MetaKvQueries.QuiescentImages | KRdmaKit-syscall/src/rpc/protocol.rs:241-298 | With no handler running every replica is a complete image of the map right after the last registration, in the order it was iterated |
| MetaKvLaws.AnswersExactly | KRdmaKit-syscall/src/rpc/protocol.rs:241-359 | After any run the query handler answers with an endpoint if and only if it was the last one registered under the gid and has not been evicted since |
| MetaKvQueries.AgreementExactly | KRdmaKit-syscall/src/rpc/protocol.rs:327-359 | A complete image answers all queries like its map if and only if every endpoint is registered under its own gid |
| MetaKvQueries.UndisturbedQuery | KRdmaKit-syscall/src/virtual_queue.rs:1018-1063 | A whole query during which nothing is copied onto its own page, whatever happens to the others, answers like a lookup in the map of the registration that its page holds |
| MetaKvOverlap.MissExactly | KRdmaKit-syscall/src/virtual_queue.rs:1018-1063 | While any number of registrations goes on, a query whose count covers a gid in one slot misses it in some interleaving if and only if some image copied onto its page has another gid in that slot |
| MetaKvOverlap.NeverMisses | KRdmaKit-syscall/src/virtual_queue.rs:1018-1063 | If none has, no interleaving misses |
| MetaKvOverlap.AbsentMisses | KRdmaKit-syscall/src/virtual_queue.rs:1018-1063 | A gid that no slot below the count has, when the count is read, is missed by reading on at once |
| MetaKvOverlap.OneRegistrationExactly | KRdmaKit-syscall/src/rpc/protocol.rs:261-289 | With one registration that has not come to the page yet: it can be missed if and only if the new order has another gid in its slot |
| MetaKvOverlap.ConcurrentQueryCanMiss | KRdmaKit-syscall/src/virtual_queue.rs:1018-1063 | A run from the start in which a query misses gid 1, which is in the map before and after, while gid 2 is being registered |
| MetaKvOverlap.TwoRegistrationsCanMiss | KRdmaKit-syscall/src/virtual_queue.rs:1018-1063 | A run from the start in which a query for gid 2 overlaps an eviction of gid 1 and registrations of gid 2 and gid 3, and misses gid 2, although neither registration changes the slot gid 2 has at the time |
| MetaKvSafety.NeverStuck | KRdmaKit-syscall/src/rpc/protocol.rs:261-298 | Under the invariant every pending copy has an entry and a slot, and every pending read finds a written slot |
| MetaKvSafety.ScanFinds | KRdmaKit-syscall/src/virtual_queue.rs:1018-1063 | The scan returns an entry with the queried gid, and None exactly if there is none |
| MetaKvSafety.RunInv | KRdmaKit-syscall/src/rpc/protocol.rs:241-324 | Every interleaving keeps the directory invariant |
| MetaKvSafety.StepInv | KRdmaKit-syscall/src/rpc/protocol.rs:241-324 | Every single copy, read, registration or eviction keeps it |
| MetaKvServer.FitsExactly | KRdmaKit-syscall/src/client.rs:92-138 | n entries fit on a page behind its 8-byte count if and only if n is at most the number of slots that pages start with |
| MetaKvSafety.HandlerFinishes | KRdmaKit-syscall/src/rpc/protocol.rs:261-298 | A started registration can always finish by copies alone |
| MetaKvServer.MetaServer.CopyEntries | KRdmaKit-syscall/src/rpc/protocol.rs:268-279 | The inner copy loop is a run of single entry copies of the directory |
| MetaKvServer.MetaServer.CopyPage | KRdmaKit-syscall/src/rpc/protocol.rs:261-289 | The copy of a page is a run of the directory's copy steps that makes the page an image of the map and leaves the other pages alone |
| MetaKvServer.MetaServer.RegDcMeta | KRdmaKit-syscall/src/rpc/protocol.rs:241-298 | The handler's loops are a run of the directory's copy steps after its registration step; every replica becomes an image of the new map, and the reply names a replica |
| MetaKvServer.FindEndPoint | KRdmaKit-syscall/src/virtual_queue.rs:1054-1062 | The client's loop returns the first entry with the gid, and None exactly if there is none |
| BindServer.BalancedExactly | KRdmaKit-syscall/src/virtual_queue.rs:790-908 | With pop-at-once, outstanding completions of every queue pair return to their level if and only if no client id of the batch is divisible by 12 |
| BindServer.NothingAccumulatesExactly | KRdmaKit-syscall/src/virtual_queue.rs:790-908 | Over any number of batches no wait blocks, and completions do not accumulate if and only if no client id is divisible by 12 |
| BindServer.PushEffect | KRdmaKit-syscall/src/virtual_queue.rs:790-908 | A whole call: receives reposted per queue pair equal the requests sent on it, slot 0 apart; waits equal signalled sends, slot 0 apart; no wait is in vain |
| BindServer.PushUd | KRdmaKit-syscall/src/virtual_queue.rs:868-903 | The part of it on the UD queue pair |
| BindServer.PushRc | KRdmaKit-syscall/src/virtual_queue.rs:868-903 | The part of it on each RC queue pair |
| BindServerFaults.FailsExactly | KRdmaKit-syscall/src/virtual_queue.rs:868-903 | With a failing receive post or wait the call fails if and only if the batch uses that slot, other than 0, on that transport, and waits if a wait is to fail; the slots before it have their receives back and those behind it none |
| BindServer.SignalledOnce | KRdmaKit-syscall/src/virtual_queue.rs:803-866 | The sends are the requests in order, and exactly the first of each transport and slot is signalled |
| BindServer.ZeroSlotLeaks | KRdmaKit-syscall/src/virtual_queue.rs:868-900 | One request of client 12 leaves a completion behind |
| BindServer.Server.BindServerPush | KRdmaKit-syscall/src/virtual_queue.rs:790-908 | Both loops over the count arrays equal their specification; a failing post ends the call before anything is settled, a failing receive post or wait ends the settling where it is |
| BindServer.Server.PostOne | KRdmaKit-syscall/src/virtual_queue.rs:803-866 | One send: its flag comes from the count of its slot before it |
| BindServer.Server.SettleOne | KRdmaKit-syscall/src/virtual_queue.rs:868-903 | One slot: repost, then wait if asked to, up to the first failure |
| BindServer.SettleToEnd | KRdmaKit-syscall/src/virtual_queue.rs:868-903 | Without a failure the settling loop settles every slot from 1 on |
| ChunkedPush.PrefixPosted | KRdmaKit-syscall/src/virtual_queue.rs:155-196 | What is posted is a run of the list without gaps, each request once and in order, that starts at once or, without a local DC, at the cut, and ends with the list unless a post failed; it is a DC prefix and then an RC suffix cut at a chunk boundary |
| ChunkedPush.OneTransportExactly | KRdmaKit-syscall/src/virtual_queue.rs:579-707 | Addresses, lengths, keys and flags are those of a call on one transport if and only if the remote regions agree or nothing goes out on DC |
| ChunkedPush.AllPostedExactly | KRdmaKit-syscall/src/virtual_queue.rs:643-707 | The whole list goes out if and only if it fits the posts that succeed and there is a local DC, or RC from the start, or the list is empty |
| ChunkedPush.SilentDropExactly | KRdmaKit-syscall/src/virtual_queue.rs:155-196 | A call in which no post fails reports success without having posted everything if and only if there is no local DC, RC arrives between its first and its last chunk, and what is left from there on fits |
| ChunkedPush.SilentDrop | KRdmaKit-syscall/src/virtual_queue.rs:155-196 | 65 requests of which only the last is posted, with status ok, on a NIC that takes one post |
| ChunkedPush.VirtualQueue.BuildWire | KRdmaKit-syscall/src/virtual_queue.rs:598-624 | The inline decision and the address it changes are those of the wire function |
| PushNic.PostMeans | KRdmaKit-syscall/src/virtual_queue.rs:579-707 | What the NIC does with a post: it moves exactly the request's bytes, from or to its offset in the queue's own region, to or from its offset in the remote region of the transport; its local address is one it can read, and signalling, inlining and immediate data are as asked |
| ChunkedPush.VirtualQueue.RcPush | KRdmaKit-syscall/src/virtual_queue.rs:579-640 | Posts the chunk on RC up to the first failure, or nothing without a queue pair |
| ChunkedPush.VirtualQueue.DcPush | KRdmaKit-syscall/src/virtual_queue.rs:643-707 | Posts the chunk on DC up to the first failure, or nothing without a local DC |
| ChunkedPush.VirtualQueue.Push | KRdmaKit-syscall/src/virtual_queue.rs:155-196 | Wherever the migration fires: what one call adds to the posts, request by request; an error exactly if a post failed, nil exactly if nothing could be posted; and success without the whole list exactly if there is no local DC, RC arrives between the first and the last chunk, and what is left from there on can be posted |
| Doorbell.DoorbellHelper.Replay | KRdmaKit/src/queue_pairs/doorbell_helper.rs:184-355 | Any run of posts and flushes hands over, flush by flush, the first capacity requests since the last flush, each equal to what a single post of it would have posted |
| Doorbell.DoorbellHelper.PostSend | KRdmaKit/src/queue_pairs/doorbell_helper.rs:184-347 | A post appends the single-request work request to the batch, whatever an earlier batch left in the entry's union, or drops it if the batch is full; what it appends has the NIC do what the request asks for |
| DoorbellNic.SingleMeans | KRdmaKit/src/queue_pairs/doorbell_helper.rs:184-347 | What the NIC does with a posted request, from the request's fields: a write or read moves exactly its range between local and remote memory under its keys, a compare-and-swap replaces the remote word by the new value exactly if it is the old one, a fetch-and-add adds modulo 2^64, both return the word found, and a completion with its id appears exactly if signalled |
| DoorbellNic.BatchMeans | KRdmaKit/src/queue_pairs/doorbell_helper.rs:184-355 | A batch has the NIC do what its requests ask for, one after the other |
| DoorbellNic.WholeExactly | KRdmaKit/src/queue_pairs/doorbell_helper.rs:184-262 | A write or read covers its whole range if and only if the range is shorter than 2^32 bytes |
| Doorbell.DoorbellHelper.FlushDoorbell | KRdmaKit/src/queue_pairs/doorbell_helper.rs:350-355 | A flush hands over the batch as a null-terminated chain, closes the ring again and empties the batch |
| Doorbell.DoorbellHelper.Walk | KRdmaKit/src/queue_pairs/operations_user.rs:708-717 | Following `next` from the first entry to null yields exactly the batch |
| Doorbell.DoorbellHelper.Init | KRdmaKit/src/queue_pairs/doorbell_helper.rs:32-50 | The entries form a ring and point to their scatter entries |
| Doorbell.DoorbellHelper.Next | KRdmaKit/src/queue_pairs/doorbell_helper.rs:88-94 | Claims an entry exactly while there is one |
| Doorbell.DoorbellHelper.Fill | KRdmaKit/src/queue_pairs/doorbell_helper.rs:184-347 | Writes one entry and no earlier one |
| Doorbell.DoorbellHelper.Freeze | KRdmaKit/src/queue_pairs/doorbell_helper.rs:100-103 | Cuts the ring behind the last entry without changing the batch |
| Doorbell.DoorbellHelper.FreezeDone | KRdmaKit/src/queue_pairs/doorbell_helper.rs:107-121 | Closes the ring again without changing the batch |
| DoorbellModel.KeptMore | KRdmaKit/src/queue_pairs/doorbell_helper.rs:88-94 | One more request joins the batch exactly while there is room |
| CmLifetime.FaultExactly | KRdmaKit/src/comm_manager/mod.rs:150-233 | A run has an owner touch a cm id that is not its own, freed or somebody else's, if and only if an owner drops its id after a failed callback of it was carried out as a destruction |
| CmLifetime.ForeignDestroyed | KRdmaKit/src/comm_manager/mod.rs:150-164 | A run from the start in which a late drop destroys the id of another owner that got the same address |
| CmLifetime.DestroyedRightly | KRdmaKit/src/comm_manager/mod.rs:150-233 | If no owner drops too late, only ids are destroyed that their own owner dropped or whose own callback failed |
| CmLifetime.DestroyedOnce | KRdmaKit/src/comm_manager/mod.rs:150-233 | In every run, addresses being reused, each cm id is destroyed at most once, and exactly once when its owner has dropped it and no destruction is pending |
| CmLifetime.NoCallbackAfter | KRdmaKit/src/comm_manager/mod.rs:182-233 | From the step on in which an owner drops its id or a callback of it fails, no callback ever reaches that id's context again |
| CmLifetimeLaws.DestroyedExactly | KRdmaKit/src/comm_manager/mod.rs:150-233 | In every run the destruction of an id is due or done, and then once, if and only if an owner dropped the address it is at or the handling of an event failed there |
| CmLifetimeLaws.CalledExactly | KRdmaKit/src/comm_manager/mod.rs:182-233 | The callbacks that reached an id are exactly the known events delivered to it until then, in order, the failing one included |
| CmLifetimeLaws.OwnsExactly | KRdmaKit/src/comm_manager/mod.rs:150-164 | An owner has an address if and only if it made an id there and has not dropped it |
| CmLifetime.RunInv | KRdmaKit/src/comm_manager/mod.rs:150-233 | Every run keeps: a destruction is due once for each id in memory with a null context, and what is no longer in memory was destroyed exactly once |
| CmLifetime.CmCore.CmHandler | KRdmaKit/src/comm_manager/mod.rs:182-233 | Dispatch, result, marker and the destruction it causes are those of the event step |
| CmLifetime.CmCore.ExplicitDrop | KRdmaKit/src/comm_manager/mod.rs:150-164 | The drop looks at whatever is at the owner's address, as the drop step does, freed or not |
| ExtentAllocator.ExtentsDisjoint | deps/r2/src/allocator_master.hh:106-123 | In every run of inits and requests all extents are aligned and inside the region, and no byte is in two of them |
| ExtentAllocator.RefusedExactly | deps/r2/src/allocator_master.hh:106-123 | A request is refused if and only if no aligned extent above the top ends before the region's end; a refusal changes nothing and a grant takes the least aligned address |
| ExtentAllocator.TopOnlyGrows | deps/r2/src/allocator_master.hh:106-123 | Once a region is managed its bounds stay, the top never falls and extents are only added |
| ExtentAllocator.ExtentsPacked | deps/r2/src/allocator_master.hh:106-123 | In every run each extent lies at the first aligned address behind the one before it, and the top is where the last one ends |
| ExtentAllocator.RegionExactly | deps/r2/src/allocator_master.hh:40-51 | The region of a run is that of its first init with a positive size; without one nothing was granted |
| ExtentAllocator.AlignUpIsLeast | deps/r2/src/allocator_master.hh:111-113 | Alignment yields the least multiple at or above the top |
| ExtentAllocator.AllocatorMaster.Init | deps/r2/src/allocator_master.hh:40-51 | A second init of a non-empty region changes nothing |
| ExtentAllocator.AllocatorMaster.ExtentAllocHook | deps/r2/src/allocator_master.hh:106-123 | The hook equals the allocation function |
| Lcg.FullPeriod | KRdmaKit/src/random.rs:25-33 | From any state, n steps lead back to it if and only if 2^48 divides n |
| Lcg.RepeatsExactly | KRdmaKit/src/random.rs:25-33 | Two positions of a stream hold the same state if and only if they are congruent modulo 2^48 |
| Lcg.VisitsAll | KRdmaKit/src/random.rs:25-33 | From any state every state is reached within 2^48 steps |
| Lcg.NeverMerge | KRdmaKit/src/random.rs:25-33 | Two states lead to the same one after n steps if and only if they are the same |
| Lcg.SeedsExactly | KRdmaKit/src/random.rs:10-38 | Two seeds give the same state after n steps if and only if they agree in their low 48 bits |
| Lcg.WrappingIsExact | KRdmaKit/src/random.rs:25-33 | Wrapping at 64 bits and masking is arithmetic modulo 2^48 |
| Lcg.BackStep | KRdmaKit/src/random.rs:25-33 | The explicit inverse undoes a step |
| Lcg.StepBack | KRdmaKit/src/random.rs:25-33 | A step undoes the inverse, so the step is a bijection |
| Lcg.IterateClosed | KRdmaKit/src/random.rs:25-33 | The state after n steps in closed form |
| Lcg.XorTwice | KRdmaKit/src/random.rs:36-38 | Scrambling a seed twice gives its low bits back |
| Lcg.XorBits | KRdmaKit/src/random.rs:36-38 | Each bit of the scrambled seed is set if and only if seed and mask differ there, and the bits above are clear |
| Lcg.SeedBits | KRdmaKit/src/random.rs:36-38 | So the state after seeding is the low 48 bits of the seed, flipped where the multiplier has a one |
| Lcg.FastRandom.constructor | KRdmaKit/src/random.rs:10-14 | The state is the scrambled seed, below 2^48 |
| Lcg.FastRandom.Next | KRdmaKit/src/random.rs:25-33 | One step of the generator; the output is its top bits and fits them |
| Lcg.FastRandom.GetNext | KRdmaKit/src/random.rs:16-18 | Two steps; both 32-bit outputs can be read back from the result, so nothing overflowed |

## Left out

- Benchmarks, experiments, examples, scripts, build files, bindings and shims.
- Driver, device, context, memory region, memory window and completion queue wrappers; the NIC is a list of posted requests, counts of completions and a queue pair state.
- JSON and TCP framing: one read is one whole message, and serde and tokio are not part of this model.
- The `pop_at_once` branch of a client's Push, `pop_impl` and `pop_msg_impl`, `push_recv_impl` and the UD push, which rest on operations outside these files.
- `post_datagram_batch`, whose scatter entries live on the stack of a loop.
- Coroutine 0's exit and `LinkedList::peek`.
- Error reports for coroutines with several futures, or about a foreign coroutine: one such report is covered by HandleReport, but runs with errors are those of CoroutineErrors, one future per coroutine.
- `WorkerGroup::block_on`, the raw wakers, stopping a worker, and waking from outside a worker.
- `deps/r2/src/scheduler.cc`, `tm_manager.hh` and `KRdmaKit/src/ctrl.rs`, which would only add easy members.
- Several waits of one task at a time.
- Torn reads within one endpoint entry, and several registration handlers at once; the handler's copies interleave with any number of queries.
- A handler event of a cm id and an owner's drop are single steps up to the call that destroys; races inside them are not modelled.
- That the kernel delivers no event to a destroyed cm id is taken from its interface.
- A client's own insertion into the directory map (`client.rs:274`) while a handler iterates it is a data race on the map; the model has it only between handlers.
- The conversion of gids to strings and back, and retry counts, which pass through unchanged.
- Address arithmetic in `ExtentAllocator` and `ChunkedPush` is on unbounded numbers; pointer overflow is undefined in the original.
- Zeroing of extents, which touches only memory inside a granted extent.
- RuntimeLife.NobodyLost: stated for runs with at most 2^64 spawns, because the id counter wraps there; RuntimeRuns.IdsUnique says exactly when ids collide.
- RuntimeLife.ResumedWhenPolled: stated for runs with at most 2^64 spawns, for the same reason.
- RuntimeLife.StepMoves: stated for steps before the id counter wraps, for the same reason.
- DoorbellNic.SingleMeans: stated for ranges below 2^32 bytes and local addresses that do not wrap at 2^64 (`Fits`); DoorbellNic.WholeExactly says when a range is cut.
- RuntimeRuns.SchedulerInvariant: stated for runs with at most 2^64 spawns, because the id counter wraps there; RuntimeRuns.IdsUnique says exactly when ids collide.
- RuntimeRuns.WaitOnGuarantee: stated for runs with at most 2^64 spawns, for the same reason.
- MetaKvServer.MetaServer.CopyPage: requires that the entries fit their page, as RegDcMeta does.
- MetaKvServer.MetaServer.RegDcMeta: requires that the entries fit their page; writing past a page is not modelled.
- BindServer.Server.BindServerPush: a wait without an outstanding completion, which the code spins on, is recorded as blocked.
- RuntimeRuns.FitsNeverPanics: stated for runs with at most 2^64 spawns, for the same reason.
- RuntimeRuns.BoundedWaiting: stated for runs with at most 2^64 spawns, for the same reason.
- RuntimeRuns.RunGood: stated for runs with at most 2^64 spawns, for the same reason.
- MetaKvServer.MetaServer.CopyEntries: requires that the entries fit their page, as RegDcMeta does.
- MetaKvOverlap.MissExactly: requires that the count covers the gid in one slot; a count that is read in the middle of a copy can cover it in an old and a new slot, or in none (AbsentMisses).
- MetaKvOverlap.NeverMisses: requires the same.
- CoroutineScheduler.SScheduler.HandleReport: a report that would link a coroutine into the ring it is in corrupts the intrusive list, which is not modelled (`Addable`); CoroutineSafety.HonestAddable and CoroutineErrors.OwnAddable show that no run has one.
- CoroutineScheduler.SScheduler.PollAllFutures: the same, for a whole pass.
