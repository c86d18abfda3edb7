# Verification of the server and lock-free logger

A Dafny model of the concurrent and stateful core of the repository, with proofs about all its runs:

* **The lock-free logger.** Producers take a record from a Treiber free list, fill it, and publish it by exchanging
  the queue's tail and storing a link later; one worker pops, submits, destroys and recycles records, each one pop
  late. The model is a step machine: one step per load, store, exchange or compare-and-swap, any number of producers,
  any pool size, every sequentially consistent interleaving, spurious failures of the weak compare-and-swap included,
  64-bit wrapping counters, any number of start and shutdown rounds on one pool.
* **The token registry and its owning handles.** A reference-counted allocator with two free stacks, a map from groups
  to channels and reuse of tokens; move-only handles on top. Capacities are parameters.
* **The server's submit, worker and shutdown protocol**, with its wrapping depth counter that is updated apart from
  the queue: again a step machine, for any number of submitters and workers.
* **Two stream codecs of the bundled HTTP library**: the chunked transfer coding (section 4.1 of RFC 7230) and the
  part of the multipart form-data parser that streams an entry's content.

## How the model is built

A concurrent component is a `Memory` that holds what the program holds, a `Trail` of what an observer records (no
step reads it), and a function `Step` that gives the outcome of each action: `Next`, `Blocked` or `Fault`. `Fault` is
a bad pointer, a full slot filled or an empty slot used; the theorems show that it does not occur.

The code that changes objects in place is also there as classes over arrays and fields: `VerifiableEngine`,
`TokenRegistry`, `RegistrationHandle`, `Server`, `SimpleMutexQueue`, `LineReader`, `ContentReader`, `ContentWriter`
and `MultipartParser`. `VerifiableEngine` and `Server` carry a ghost run of their step machine: `Valid()` says that the
fields are the memory which that run reaches, every access to shared state is one step of it, and so a method that
skipped, swapped or invented a step would not verify. The other classes are tied to functions on values, whose
properties are proved separately, against descriptions of their own: who holds which token, what is on the wire, what
the messages of the coding are.

| files | what they hold |
|---|---|
| `sequences.dfy`, `intrusive_stack.dfy`, `text.dfy` | counting, distinctness, linked stacks, pieces of text |
| `free_list.dfy` | the Treiber list: machine, invariant, regimes, linearizability, the ABA failure |
| `log_engine.dfy` | the logger's step machine |
| `log_engine_invariant.dfy`, `log_engine_producers.dfy`, `log_engine_worker.dfy` | its invariant and the proof that steps keep it |
| `log_engine_theorems.dfy`, `log_engine_results.dfy`, `log_engine_shutdown.dfy` | what it promises |
| `log_engine_aba.dfy` | what a stale pop can do to the engine |
| `verifiable_engine.dfy` | the engine as a class |
| `registry_spec.dfy`, `registry_order.dfy`, `token_registry.dfy`, `registration_handle.dfy` | the registry and the handles |
| `server_protocol.dfy`, `server_drain.dfy`, `server_force.dfy`, `server.dfy` | the server's machine, when a graceful and a forced shutdown can lose an event, and its class |
| `chunked_coding.dfy`, `chunked_messages.dfy`, `chunked_stream.dfy` | the chunked coding on texts; its messages and numbers written down apart; and on streams with buffers |
| `multipart_body.dfy`, `multipart_parser.dfy` | multipart streaming on texts, and in its buffer |

## The regimes of the free list

The free list has a documented ABA risk, so everything that depends on it names its regime. `AbaFree` holds of a run
when each successful swap of `try_pop` installs what is still the popped node's link. This is exact: the invariant
holds at every state of a run if and only if the run is ABA-free (`RightExactlyWhenAbaFree`, for the list and for
the engine). It is met by runs with one popper at a time and any number of pushers, by runs without pushes, and by runs in
which each successful pop finds the head version it loaded; a single producer needs no assumption. Without it two
threads and two nodes are enough to hand one node to both (`AbaHandsOutTwice`); and every engine with two producers and
two records has a run in which a payload is constructed on top of one that the worker is about to submit
(`StalePopCanFault`), so the corruption is not confined to a log entry, as the comment in
`modules/logger/include/logger/core/lockfree_queue.hpp:6-11` has it.

## Where the code and what is written about it differ

* The repository's README (line 163) returns a record to the pool right after it is destroyed. The code returns it one
  pop later (`modules/logger/src/log_engine.cpp:93-100`), and that delay is what makes recycling safe
  (`RecycledRecordIsQuiet`): at the earlier moment a producer may be about to store to the record's link
  (`PoppedRecordMayStillBeWritten`).
* A queue capacity is kept exactly with a single submitter, or if it is zero and nothing is ever accepted; with k
  submitters and a positive capacity the queue can reach capacity + k - 1.
* A graceful shutdown can lose an accepted event. When the server is about to stop accepting, it can do so if and only
  if some submitter is before its push and nothing need stop it, or every worker has just found the queue empty and
  events have been pushed since, with at least as many increments still to come as the queue holds events
  (`LossExactly`). So a loss is possible even though every push is over before the shutdown begins
  (`OverlookedIsReachable`); and late increments alone are harmless as long as one worker has not just found the queue
  empty.
* A forced shutdown, which is also the destructor's, does not throw away the queue: a worker still pops until it finds
  the queue empty. It can lose an accepted event if and only if some submitter is before its push and nothing need
  stop it, or every worker has just found the queue empty and something has been pushed since, counted or not
  (`ForcedLossExactly`).
* An acquire that runs out of tokens has already charged a channel, which is then never free again; any registry with
  a token, a group and two channels can get there (`LeakIsReachable`).
* The chunked writer ends its loop at an empty write, without the last chunk; the reader then refuses the message.
* The reader refuses chunks of `ULONG_MAX` bytes and more, although the writer writes any `size_t`. No buffer is so
  long where `unsigned long` has 64 bits; where it has 32, that is every chunk of 4 GiB less one byte or more.
* What follows the closing dashes of a multipart form is ignored when it arrives in the same call of `parse`. It is
  ignored however the input is cut if and only if there is no end of line in it (`ClosingDependsOnTheCut`); otherwise
  some cut has the parser begin a new entry there.
* A delimiter followed by neither an end of line nor two dashes stops the parser for good, without an error.

## Model

| member | source | states |
|---|---|---|
| IntrusiveStack.PushKeepsStack | modules/logger/include/logger/core/lockfree_queue.hpp:19-28 | swinging the head to a node linked to the old head puts that node on top of the stack |
| IntrusiveStack.PopKeepsStack | modules/logger/include/logger/core/lockfree_queue.hpp:30-44 | swinging the head to a value leaves the rest of the stack if and only if that value is the popped node's link |
| FreeList.StepKeepsInv | modules/logger/include/logger/core/lockfree_queue.hpp:12-44 | every step that is not a stale pop keeps list, owners and every thread's position consistent, and follows no bad pointer |
| FreeList.AbaFreeRunKeepsInv | modules/logger/include/logger/core/lockfree_queue.hpp:12-44 | so does every ABA-free run, of any number of threads |
| FreeList.RightExactlyWhenAbaFree | modules/logger/include/logger/core/lockfree_queue.hpp:6-44 | every state of a run is consistent if and only if the run is ABA-free |
| FreeList.VersionCheckedIsAbaFree | modules/logger/include/logger/core/lockfree_queue.hpp:30-44 | a run whose successful pops find the head version they loaded is ABA-free |
| FreeList.OnePopperIsAbaFree | modules/logger/include/logger/core/lockfree_queue.hpp:19-44 | a run with one thread at a time between load and swap of try_pop is ABA-free, whatever the pushers do |
| FreeList.PopsOnlyIsAbaFree | modules/logger/include/logger/core/lockfree_queue.hpp:30-44 | a run without pushes is ABA-free with any number of poppers |
| FreeList.RegimesKeepListRight | modules/logger/include/logger/core/lockfree_queue.hpp:12-44 | from any consistent list that nobody is using, each of these three regimes keeps every state of every run consistent |
| FreeList.InitSatisfiesInv | modules/logger/include/logger/core/lockfree_queue.hpp:12-17 | the empty list, with every node owned by some thread, is consistent |
| FreeList.StepRefinesStack | modules/logger/include/logger/core/lockfree_queue.hpp:19-44 | each operation takes effect at one step of its own, the one at which it returns, as one legal operation of an atomic stack; no other step of it returns, changes what is being called, or has an effect |
| FreeList.AbaFreeRunRefinesStack | modules/logger/include/logger/core/lockfree_queue.hpp:19-44 | linearizability: the effects of a run in order are a run of an atomic stack that ends in the list's contents, and for each thread they are the calls it has made, in order, less the one it is in |
| FreeList.StepTakesEffect | modules/logger/include/logger/core/lockfree_queue.hpp:19-44 | in every run, ABA-free or not: a thread returns from push(n) exactly as the node is pushed, from try_pop exactly as a node is popped or the list is found empty, and is otherwise still in the same call on the same node |
| FreeList.CallsTakeEffectOnce | modules/logger/include/logger/core/lockfree_queue.hpp:19-44 | in every run the effects of a thread are its calls, once each and in its order, all but the one that it is still in |
| FreeList.CallsAddUp | modules/logger/include/logger/core/lockfree_queue.hpp:19-44 | in every run the calls begun are the effects in the log plus the threads inside a call |
| FreeList.NoDoubleHandOut | modules/logger/include/logger/core/lockfree_queue.hpp:30-44 | between two hand-outs of a node somebody pushed it back |
| FreeList.UndisturbedPush | modules/logger/include/logger/core/lockfree_queue.hpp:19-28 | a push that nobody disturbs links the node to the old head and makes it the head |
| FreeList.UndisturbedPop | modules/logger/include/logger/core/lockfree_queue.hpp:30-44 | a pop that nobody disturbs returns the head and makes its link the head |
| FreeList.AbaHandsOutTwice | modules/logger/include/logger/core/lockfree_queue.hpp:6-11 | from any list of two nodes two idle threads can both be handed the second node |
| FreeList.AbaBreaksTheStack | modules/logger/include/logger/core/lockfree_queue.hpp:6-11 | the history of that run is none of an atomic stack |
| LogEngineInvariant.InitSatisfiesInv | test/integration/verifiable_engine.hpp:25-31 | the engine after construction satisfies the invariant: pool on the free list, queue on its stub |
| LogEngineProducers.EnqueueKeepsInv | modules/logger/include/logger/core/log_engine.hpp:30-35 | entering enqueue keeps the invariant |
| LogEngineProducers.ProduceKeepsInv | modules/logger/include/logger/core/log_engine.hpp:30-59 | every step of every producer keeps the invariant and faults never: chain of stored or owed links, places of records, messages in slots, counters |
| LogEngineWorker.WorkKeepsInv | modules/logger/src/log_engine.cpp:77-120 | so does every step of the worker, in its loops, its pops, its recycling and its reset |
| LogEngineWorker.ControlKeepsInv | test/integration/verifiable_engine.hpp:38-79 | so do start, shutdown and join |
| LogEngineTheorems.StepKeepsInv | test/integration/verifiable_engine.hpp:38-118 | every step that is not a stale pop keeps the invariant and does not fault |
| LogEngineTheorems.AbaFreeRunIsSafe | test/integration/verifiable_engine.hpp:38-118 | no ABA-free run, of any length and any number of rounds, faults or leaves the invariant |
| LogEngineTheorems.RightExactlyWhenAbaFree | modules/logger/include/logger/core/lockfree_queue.hpp:6-11 | every state of an engine run is right if and only if the run is ABA-free: nothing else can go wrong |
| LogEngineTheorems.ReachableInv | test/integration/verifiable_engine.hpp:25-118 | every reachable state satisfies the invariant |
| LogEngineTheorems.OnePopperIsAbaFree | modules/logger/src/log_engine.cpp:66-70 | runs with one producer at a time inside try_pop are ABA-free although the worker pushes at will |
| LogEngineTheorems.SingleProducerIsSafe | modules/logger/include/logger/core/log_engine.hpp:30-59 | an engine with one producer is ABA-free and never faults, with no assumption on the run |
| LogEngineResults.WaitingIsUnsubmitted | modules/logger/src/log_engine.cpp:83-101 | what memory holds of unsubmitted messages is exactly the messages sent after the submitted ones, in order |
| LogEngineResults.SubmittedInExchangeOrder | modules/logger/src/log_engine.cpp:77-120 | in every reachable state: submitted messages are the first of those exchanged in, the rest are in memory untouched, each producer's come out in its call order, none is destroyed before it is submitted |
| LogEngineResults.StepRefinesLog | modules/logger/include/logger/core/log_engine.hpp:30-59 | each step has exactly its effect on a first-in first-out log: the tail exchange accepts, submit_fn writes the oldest, all others nothing |
| LogEngineResults.RunRefinesLog | modules/logger/src/log_engine.cpp:77-120 | every ABA-free run is a run of the first-in first-out log |
| LogEngineResults.PopIsDequeue | modules/logger/include/logger/core/lockfree_queue.hpp:75-91 | pop takes the oldest message at the step where it returns a record, returns null only where the queue is empty, and its other steps leave the queue alone |
| LogEngineResults.EmptyIsExact | modules/logger/include/logger/core/lockfree_queue.hpp:93-100 | empty() is right, both ways, at its last load, also with producers between exchange and link store: all it needs is the chain and its messages |
| LogEngineResults.PoppedRecordStaysDummy | modules/logger/src/log_engine.cpp:91-100 | while the worker uses a popped record, that is the queue's dummy head, not free and held by nobody else |
| LogEngineResults.PoppedRecordMayStillBeWritten | modules/logger/src/log_engine.cpp:93-100 | why recycling waits: the popped record can be the tail still, and then the next producer to exchange stores to its link |
| LogEngineResults.RecycledRecordIsQuiet | modules/logger/src/log_engine.cpp:93-94 | a record on its way back is out of the queue and the free list, nobody holds it and nobody owes a store to its link |
| LogEngineResults.PushedRecordIsOutside | modules/logger/include/logger/core/lockfree_queue.hpp:67-72 | no push is given a node of the chain or the free list, so no node is linked to itself |
| LogEngineResults.EveryRecordIsInOnePlace | modules/logger/src/log_engine.cpp:57-70 | at every step each record is in exactly one of: free list, queue, one producer, the worker's hands |
| LogEngineResults.DropsOnlyWhenNothingIsFree | modules/logger/include/logger/core/log_engine.hpp:35-40 | enqueue drops exactly when no record was free as it loaded the head |
| LogEngineShutdown.RunKeepsCalls | modules/logger/include/logger/core/log_engine.hpp:30-59 | in every run each call of enqueue that has begun is under way, or has ended by counting its message or by dropping it |
| LogEngineShutdown.CountersAddUp | modules/logger/include/logger/core/log_engine.hpp:35-58 | modulo 2^64: the calls begun less those under way are enqueued plus dropped, enqueued is the exchanges less the producers yet to count; and the exchanges exceed the written by at most the pool size |
| LogEngineShutdown.ReachableCountersAddUp | modules/logger/include/logger/core/log_engine.hpp:26-58 | so in every reachable state, with the written counter the messages tallied modulo 2^64 |
| LogEngineShutdown.OneProducerOwes | modules/logger/include/logger/core/lockfree_queue.hpp:79-88 | while pop waits for a link exactly one producer owes it |
| LogEngineShutdown.WaitGoesOn | modules/logger/include/logger/core/lockfree_queue.hpp:83-87 | nobody but that producer ends the wait or takes over the debt |
| LogEngineShutdown.DebtorEndsWait | modules/logger/include/logger/core/lockfree_queue.hpp:67-72 | that producer's next step stores the link |
| LogEngineShutdown.EndedWaitStays | modules/logger/include/logger/core/lockfree_queue.hpp:83-90 | a stored link stays, and the worker's next step returns the record |
| LogEngineShutdown.WaitingPopReturns | modules/logger/include/logger/core/lockfree_queue.hpp:79-91 | in every run in which the debtor and then the worker take a step, the waiting pop returns |
| LogEngineShutdown.OnlyTheWorkerMoves | test/integration/verifiable_engine.hpp:73-79 | after shutdown has begun no other action is possible until the worker is done |
| LogEngineShutdown.WorkGetsCloser | modules/logger/src/log_engine.cpp:83-119 | the worker is never stuck then, and each step lowers a measure of chain length and position |
| LogEngineShutdown.ShutdownIsBounded | modules/logger/src/log_engine.cpp:83-119 | no run of a shutdown is longer than that measure plus two steps for each spurious failure |
| LogEngineShutdown.ShutdownTerminates | modules/logger/src/log_engine.cpp:83-119 | the worker by its own steps leaves its loops |
| LogEngineShutdown.ShutdownLosesNothing | test/integration/verifiable_engine.hpp:73-118 | then written equals enqueued, everything sent was submitted and destroyed once and in order, the queue is on its stub, and the free list holds every record once, emptied |
| LogEngineAba.StalePopCanFault | modules/logger/include/logger/core/lockfree_queue.hpp:6-11 | for every pool of two records or more and two producers or more: a run in which a stale pop makes a producer construct a payload in a slot that is in use |
| VerifiableEngineClass.VerifiableEngine.constructor | test/integration/verifiable_engine.hpp:25-31 | the loop of pushes builds the initial state of the machine |
| VerifiableEngineClass.VerifiableEngine.TryPop | modules/logger/include/logger/core/lockfree_queue.hpp:30-44 | returns the top of the free list, or null if it is empty, for any number of spurious failures |
| VerifiableEngineClass.VerifiableEngine.PushToQueue | modules/logger/include/logger/core/lockfree_queue.hpp:67-72 | appends the record's message to those sent, by the three steps of push |
| VerifiableEngineClass.VerifiableEngine.Enqueue | test/integration/verifiable_engine.hpp:45-71 | sends the payload and counts it, or drops and counts it exactly when no record is free |
| VerifiableEngineClass.VerifiableEngine.Empty | modules/logger/include/logger/core/lockfree_queue.hpp:93-100 | true exactly when only the dummy is left |
| VerifiableEngineClass.VerifiableEngine.Pop | modules/logger/include/logger/core/lockfree_queue.hpp:75-91 | null exactly when the queue is empty, else the node behind the dummy, which becomes the dummy |
| VerifiableEngineClass.VerifiableEngine.Recycle | modules/logger/include/logger/core/lockfree_queue.hpp:19-28 | the pending record goes on top of the free list, for any number of spurious failures |
| VerifiableEngineClass.VerifiableEngine.Consume | test/integration/verifiable_engine.hpp:98-101 | submit, destroy, count, and keep the record pending |
| VerifiableEngineClass.VerifiableEngine.PopAndProcess | test/integration/verifiable_engine.hpp:92-101 | one message is written exactly when the queue holds one |
| VerifiableEngineClass.VerifiableEngine.FinishMainLoop | test/integration/verifiable_engine.hpp:91-102 | the main loop ends once run_ is false |
| VerifiableEngineClass.VerifiableEngine.DrainQueue | test/integration/verifiable_engine.hpp:104-113 | the draining loop ends |
| VerifiableEngineClass.VerifiableEngine.Reset | modules/logger/include/logger/core/lockfree_queue.hpp:105-110 | head and tail are back on the stub |
| VerifiableEngineClass.VerifiableEngine.Leave | test/integration/verifiable_engine.hpp:115-117 | resets the queue, and recycles the last record if there is one |
| VerifiableEngineClass.VerifiableEngine.Start | test/integration/verifiable_engine.hpp:38-43 | starts the worker unless it runs, in any round |
| VerifiableEngineClass.VerifiableEngine.Shutdown | test/integration/verifiable_engine.hpp:73-79 | terminates; then everything enqueued is written in order, queue and pool are as at first, and the engine can start again |
| RegistrySpec.AllocateIsFresh | modules/publisher/include/publisher/runtime/token_registry.hpp:171-193 | the token handed out was not live, becomes live on its channel, and is the only one that changes |
| RegistrySpec.BreakMissesNothing | modules/publisher/include/publisher/runtime/token_registry.hpp:104-113 | at most one group points at a channel, so stopping at the first forgets them all |
| RegistrySpec.AcquireAloneKeepsInv | modules/publisher/include/publisher/runtime/token_registry.hpp:42-49 | the bookkeeping survives an exclusive acquire, also one that throws half-way |
| RegistrySpec.AcquireMemberKeepsInv | modules/publisher/include/publisher/runtime/token_registry.hpp:52-75 | the same for an acquire in a group |
| RegistrySpec.ReleaseKeepsInv | modules/publisher/include/publisher/runtime/token_registry.hpp:77-117 | a release of a live token succeeds and keeps reference counts, free stacks, groups and owners right |
| RegistrySpec.ReleaseFailsExactlyOnDeadTokens | modules/publisher/include/publisher/runtime/token_registry.hpp:79-92 | release throws exactly on tokens that are not live, and then changes nothing; the error tells whether the token was ever handed out |
| RegistrySpec.LastUserFitsFreeStack | modules/publisher/include/publisher/runtime/token_registry.hpp:163-167 | there is room on the stack of channels whenever a token is live, so the assertion in pushFreeChannel holds |
| RegistrySpec.AcquireFailsExactly | modules/publisher/include/publisher/runtime/token_registry.hpp:154-193 | an acquire throws exactly when it needs a channel and all are charged, or else when all tokens are live |
| RegistrySpec.FailedAcquireCosts | modules/publisher/include/publisher/runtime/token_registry.hpp:42-75 | the first failure changes nothing; the second leaves a channel charged for no token |
| RegistrySpec.LeakedChannelIsLost | modules/publisher/include/publisher/runtime/token_registry.hpp:97-103 | such a channel is never free again, in any run |
| RegistrySpec.LeakIsReachable | modules/publisher/include/publisher/runtime/token_registry.hpp:42-75 | on every registry with a token, a group and two channels, when one group has all tokens an exclusive acquire fails and leaves a channel charged that no token uses |
| RegistrySpec.PerformKeepsInv | modules/publisher/include/publisher/runtime/token_registry.hpp:42-117 | every call of the public interface keeps the bookkeeping |
| RegistrySpec.PerformAll | modules/publisher/include/publisher/runtime/token_registry.hpp:42-117 | so does every run |
| RegistrySpec.FreshSatisfiesInv | modules/publisher/include/publisher/runtime/token_registry.hpp:28-37 | a new registry has it, for all capacities |
| RegistrySpec.SameChannelExactlyWhenSameGroup | modules/publisher/include/publisher/runtime/token_registry.hpp:41-75 | two live tokens share a channel exactly when both were acquired for one group; an exclusive token shares with nobody |
| RegistrySpec.PerformKeepsBinding | modules/publisher/include/publisher/runtime/token_registry.hpp:120-125 | no call moves a token that stays live or changes its owner |
| RegistrySpec.ResolveNeverChanges | modules/publisher/include/publisher/runtime/token_registry.hpp:120-125 | resolve of a token is the same from acquire to release, whatever happens in between |
| RegistryOrder.FreshHandsOutInOrder | modules/publisher/include/publisher/runtime/token_registry.hpp:28-49 | a new registry gives out tokens 0, 1, 2, ... on the channels from the last one down, and no other token is live |
| RegistryOrder.ReacquireGetsTokenBack | modules/publisher/include/publisher/runtime/token_registry.hpp:42-193 | an acquire right behind a release gets that token back, on the same channel if nobody else was using it; it fails exactly when others are and no channel is free |
| RegistryClass.TokenRegistry.constructor | modules/publisher/include/publisher/runtime/token_registry.hpp:28-37 | the arrays of a new registry stand for the fresh one |
| RegistryClass.TokenRegistry.AllocateToken | modules/publisher/include/publisher/runtime/token_registry.hpp:171-193 | the arrays change as the specification's allocation |
| RegistryClass.TokenRegistry.Acquire | modules/publisher/include/publisher/runtime/token_registry.hpp:42-49 | new state and result are those of the specification, and the bookkeeping is kept |
| RegistryClass.TokenRegistry.AcquireInGroup | modules/publisher/include/publisher/runtime/token_registry.hpp:52-75 | the same for a group |
| RegistryClass.TokenRegistry.ForgetGroup | modules/publisher/include/publisher/runtime/token_registry.hpp:105-112 | the search loop resets the first group that points at the channel and nothing else |
| RegistryClass.TokenRegistry.DischargeChannel | modules/publisher/include/publisher/runtime/token_registry.hpp:97-113 | one user fewer, and with the last one the channel and its group are freed |
| RegistryClass.TokenRegistry.Release | modules/publisher/include/publisher/runtime/token_registry.hpp:77-117 | succeeds exactly on live tokens, with the specification's new state, and otherwise changes nothing and tells which error it was |
| RegistryClass.TokenRegistry.Resolve | modules/publisher/include/publisher/runtime/token_registry.hpp:120-125 | the channel that the specification gives the live token |
| HandleSpec.ActKeepsBijection | modules/publisher/include/publisher/runtime/registration_handle.hpp:20-109 | every construct, move, move-assign, reassign (also one that throws) and destroy has its effect on who holds what, and keeps live tokens and valid handles in one-to-one correspondence |
| HandleSpec.RunKeepsBijection | modules/publisher/include/publisher/runtime/registration_handle.hpp:20-109 | so does every sequence of them, each operation with its effect when its turn comes |
| HandleSpec.ActHasEffect | modules/publisher/include/publisher/runtime/registration_handle.hpp:20-109 | who holds what afterwards: a new or reassigned handle holds a token owned alone, or by the group named, or none if the registry threw; a moved-to handle holds what the other held, which is detached; a token given up is dead; all other handles keep their tokens, and those their channels and owners |
| HandleSpec.ActIsLocal | modules/publisher/include/publisher/runtime/registration_handle.hpp:20-109 | an operation acts on its own handles as if there were no others, and leaves the others alone |
| HandleSpec.FreshSatisfiesBijection | modules/publisher/include/publisher/runtime/registration_handle.hpp:17-29 | a new registry without handles has the correspondence, with as many bindings as tokens can be told from the invalid one |
| HandleSpec.NothingIsSwallowed | modules/publisher/include/publisher/runtime/registration_handle.hpp:94-109 | the exception that release would swallow never occurs |
| HandleSpec.ReassignFailsExactly | modules/publisher/include/publisher/runtime/registration_handle.hpp:66-79 | reassigning a valid handle never runs out of tokens and gets its own token back; it fails exactly when no channel is free, its old one has other users and its new group has none |
| HandleClass.RegistrationHandle.Create | modules/publisher/include/publisher/runtime/registration_handle.hpp:20-23 | an object with the acquired token, or no object when the registry throws: the specification's construction, on registry and object |
| HandleClass.RegistrationHandle.CreateIn | modules/publisher/include/publisher/runtime/registration_handle.hpp:26-29 | the same in a group |
| HandleClass.RegistrationHandle.Release | modules/publisher/include/publisher/runtime/registration_handle.hpp:94-109 | the registry loses the token of a valid handle, and the handle keeps none: the specification's destruction |
| HandleClass.RegistrationHandle.Move | modules/publisher/include/publisher/runtime/registration_handle.hpp:39-45 | token and registry move over and the source is detached: the specification's move construction, on both objects |
| HandleClass.RegistrationHandle.MoveAssign | modules/publisher/include/publisher/runtime/registration_handle.hpp:47-61 | gives up its own token first; self-assignment changes nothing: the specification's move assignment, on both objects and the registry |
| HandleClass.RegistrationHandle.Reassign | modules/publisher/include/publisher/runtime/registration_handle.hpp:66-71 | registry and handle change as the specification's reassignment, also when the registry throws |
| HandleClass.RegistrationHandle.ReassignTo | modules/publisher/include/publisher/runtime/registration_handle.hpp:74-79 | the same for a group |
| ServerProtocol.StepKeepsDepth | app/include/server/server.h:189-197 | at every step the depth counter is, modulo 2^64, queue length plus workers yet to count down less submitters yet to count up |
| ServerProtocol.RunKeepsDepth | app/include/server/server.h:256-263 | so in every run |
| ServerProtocol.CheckBoundsDepth | app/include/server/server.h:178-187 | passing the check bounds the load, even when the counter has wrapped below zero |
| ServerProtocol.BackpressureBoundsQueue | app/include/server/server.h:178-197 | with k submitters the queue never exceeds capacity + k - 1, in any run |
| ServerProtocol.OneSubmitterNeverOverfills | app/include/server/server.h:178-197 | with one submitter it never exceeds the capacity |
| ServerProtocol.BackpressureBoundIsReached | app/include/server/server.h:178-197 | with k submitters some run fills it to capacity + k - 1 |
| ServerProtocol.ZeroCapacityAcceptsNothing | app/include/server/server.h:178-187 | with a capacity of zero nothing is ever pushed |
| ServerProtocol.CapacityKeptExactlyByOneSubmitter | app/include/server/server.h:178-187 | every run keeps the capacity if and only if there is one submitter or the capacity is zero |
| ServerProtocol.StepKeepsFlow | app/include/server/server.h:234-263 | accepted events are the popped ones followed by the queue, and each popped one is processed or in one worker's hands |
| ServerProtocol.InitSatisfiesInv | app/include/server/server.h:93-120 | a server just started with an empty queue satisfies the invariant |
| ServerProtocol.GracefulRunKeepsInv | app/include/server/server.h:122-134 | every graceful run keeps it |
| ServerProtocol.GracefulShutdownDrains | app/include/server/server.h:234-276 | with no submitter inside: a worker that has left found the queue empty; when all have left each accepted event was processed exactly once |
| ServerProtocol.EmptyForGood | app/include/server/server.h:234-276 | after the first worker has left nothing is accepted and the queue stays empty |
| ServerProtocol.CaughtSubmitterLosesEvent | app/include/server/server.h:162-197 | the smallest case of a loss: one submitter before its push, one worker and an empty queue end with exactly that event in the queue |
| ServerProtocol.GracefulShutdownCanLoseAnEvent | app/include/server/server.h:122-134 | such a run exists from the start for every positive capacity |
| ServerDrain.SafeRunLosesNothing | app/include/server/server.h:234-276 | from a stopping server where no submitter is caught and the queue is attended to, no graceful run of any threads loses an event |
| ServerDrain.WorkerLeaves | app/include/server/server.h:234-276 | a worker left alone with a stopped server empties the queue and leaves |
| ServerDrain.CaughtLoses | app/include/server/server.h:178-197 | from any stopping server with a caught submitter, among any threads, there is a graceful run that loses its event |
| ServerDrain.OverlookedLoses | app/include/server/server.h:256-276 | the same when every worker has just found the queue empty and at least as many increments are still to come as there are events in it |
| ServerDrain.LossExactly | app/include/server/server.h:122-134 | a graceful shutdown about to stop a live server can lose an accepted event if and only if one of those two holds at that moment; otherwise, when everybody has left, each accepted event was processed exactly once |
| ServerDrain.OverlookedIsReachable | app/include/server/server.h:189-197 | the second way is open from the start, with the push over before the shutdown begins |
| ServerForce.ExitTestIsExact | app/include/server/server.h:265-276 | the whole exit test: a worker that has found the queue empty leaves by its own next steps if and only if stop is set and the mode is force or the counter reads zero, which it does exactly when, modulo 2^64, the increments still to come match the events present; otherwise it goes on to wait; nothing else changes |
| ServerForce.ExitTestFollowsEmptyQueue | app/include/server/server.h:234-254 | a worker begins that test only at a step at which it finds the queue empty, leaves only by it, and never comes back |
| ServerForce.WakeTest | app/include/server/server.h:248-252 | a sleeping worker looks at the queue again if and only if the counter is positive or stop is set |
| ServerForce.ForcedRunLeaves | app/include/server/server.h:265-276 | in every run of any threads after a forced shutdown has stored stop, with no other mode asked for: a worker that has found the queue empty takes no event and is gone after two steps of its own, whatever queue and counter hold |
| ServerForce.RunKeepsPhases | app/include/server/server.h:122-151 | in every run: a worker leaves only after stop is set, stop is set only when nothing is accepted any more, and a server marked stopped has no worker left |
| ServerForce.ForceSafeRunLosesNothing | app/include/server/server.h:234-276 | while no submitter is caught and some worker still looks at what is queued, no run loses an event, whatever mode is asked for |
| ServerForce.ForcedLossExactly | app/include/server/server.h:88-134 | a forced shutdown about to stop a live server, as the destructor's is, can lose an accepted event if and only if a submitter is caught before its push, or every worker has just found the queue empty and something has been pushed since |
| ServerForce.ForceMakesTheDifference | app/include/server/server.h:265-276 | a run from the start leads to a queued event, counted and its submitter told, that no run of a graceful shutdown loses and some run of a forced one does |
| ServerClass.SimpleMutexQueue.TryPop | app/include/server/server.h:389-398 | the oldest event, unless the queue is empty |
| ServerClass.Server.TrySubmit | app/include/server/server.h:157-206 | accepts exactly when the server is running and, with backpressure, the queue is below capacity; the queue changes accordingly |
| ServerClass.Server.Shutdown | app/include/server/server.h:122-134 | stops a server that has not stopped or failed; otherwise only the mode changes |
| ServerClass.Server.WorkerTurn | app/include/server/server.h:234-263 | the oldest event is popped and processed, by a worker awake or asleep |
| ServerClass.Server.WorkerLoop | app/include/server/server.h:234-254 | everything queued is processed in order; then the worker leaves if and only if the server has been stopped, and sleeps otherwise |
| ServerClass.Server.WaitForWorker | app/include/server/server.h:136-151 | returns if and only if the server has been stopped or the worker has ended, with the queue empty and the server marked stopped; otherwise it still waits for a worker asleep on an empty queue |
| ChunkedCoding.HexIsPlain | app/lib/httplib.h:2219-2227 | the digits written for a number have that value, and are digits only |
| ChunkedCoding.StrtoulReadsHex | app/lib/httplib.h:3794-3799 | strtoul of a written size line is that size, or ULONG_MAX when it does not fit, for any ULONG_MAX |
| ChunkedCoding.RoundTripExactly | app/lib/httplib.h:4022-4098 | the reader delivers the bytes of any writes followed by done() and stops right behind the message, if and only if all are shorter than ULONG_MAX; otherwise it refuses |
| ChunkedCoding.CutMessageIsRefused | app/lib/httplib.h:3781-3834 | a message cut anywhere before its end is refused, and what was delivered is a beginning of its content |
| ChunkedCoding.EmptyWriteCutsShort | app/lib/httplib.h:4029-4031 | with an empty write, what is sent is a proper beginning of the message |
| ChunkedCoding.ArrivesExactly | app/lib/httplib.h:4106-4121 | what the writer's loop sends is accepted with the whole content if and only if no write is empty and all are shorter than ULONG_MAX |
| ChunkedMessages.StrtoulReads | app/lib/httplib.h:3794 | strtoul in base 16, for white space, a sign, a prefix, digits of either case and any rest: the digits' positional value, negated behind a minus, or the largest number when it does not fit, and where it stops |
| ChunkedMessages.StrtoulFindsNothing | app/lib/httplib.h:3796 | a text without a digit behind white space and sign is no number |
| ChunkedMessages.EveryTextIsOne | app/lib/httplib.h:3794-3797 | every text is of one of those two kinds |
| ChunkedMessages.LineEndsAtFeed | app/lib/httplib.h:2519-2543 | a line goes up to its first line feed and includes it, with or without a carriage return |
| ChunkedMessages.SizeIsTaken | app/lib/httplib.h:3794-3801 | what the reader does with a line that a size begins, whatever end of line it has |
| ChunkedMessages.SizeLineIsRead | app/lib/httplib.h:3794-3801 | a size line of any digits, leading zeros, either case and any extension is taken for its positional value; ULONG_MAX and more is refused |
| ChunkedMessages.ChunkIsRead | app/lib/httplib.h:3803-3811 | for every text behind a size line: refused, with what came delivered, unless all the data is there and CR LF follows; else delivered, and the reader goes on behind it |
| ChunkedMessages.NoSizeIsRefused | app/lib/httplib.h:3796 | a size line without a single digit is refused |
| ChunkedMessages.FieldIsRead | app/lib/httplib.h:3818-3830 | a trailer line is skipped if and only if it has at most 8192 bytes with its end; else the message is refused |
| ChunkedMessages.FeedIsRead | app/lib/httplib.h:3818-3830 | the same for a trailer line whatever its end of line; only CR LF alone ends the trailer |
| ChunkedMessages.TrailerIsRead | app/lib/httplib.h:3814-3833 | a trailer of any lines is passed, up to right behind its empty line, if and only if all its lines are that short |
| ChunkedMessages.TrailerNeedsItsEnd | app/lib/httplib.h:3814-3831 | a trailer that ends without a line end is refused |
| ChunkedMessages.MessageIsRead | app/lib/httplib.h:3781-3834 | for every message of section 4.1 of RFC 7230, written down apart from the program, and whatever follows it: the whole content is delivered and the reader stops right behind it if and only if each chunk is shorter than ULONG_MAX and each trailer line has at most 8192 bytes; otherwise it refuses with a beginning delivered |
| ChunkedMessages.HexIsHead | app/lib/httplib.h:2219-2227 | from_i_to_hex writes the one numeral without leading zeros, in lower case |
| ChunkedMessages.SentIsOnWire | app/lib/httplib.h:4029-4098 | what is sent for any sequence of writes is chunks of that form and 0 CR LF CR LF |
| ChunkedMessages.OnWireExactly | app/lib/httplib.h:4029-4098 | that form leaves no choice: it is met by those bytes and no others |
| ChunkedStream.LineReader.PtrIsText | app/lib/httplib.h:2498-2504 | C reads from ptr() the line and nothing behind it, whichever buffer holds it |
| ChunkedStream.LineReader.Append | app/lib/httplib.h:2545-2556 | the line grows by the byte, also when it spills from the fixed buffer to the growing one |
| ChunkedStream.LineReader.GetLine | app/lib/httplib.h:2519-2543 | the next line of the stream up to its line feed, however the stream delivers it |
| ChunkedStream.ContentReader.ReadWithLength | app/lib/httplib.h:3729-3749 | exactly the wanted bytes are delivered, by any sequence of short reads, or all there are |
| ChunkedStream.ContentReader.ReadTrailerFields | app/lib/httplib.h:3814-3833 | reads up to the empty line, or fails, as the text decides; which texts pass is ChunkedMessages.TrailerIsRead |
| ChunkedStream.ContentReader.ReadContent | app/lib/httplib.h:3781-3834 | outcome, bytes delivered and bytes left are those of the message's text, however reads are cut; a failing stream has delivered a beginning; ChunkedMessages.MessageIsRead and its neighbours say what they are |
| ChunkedStream.WriteData | app/lib/httplib.h:3933-3941 | all of the data is sent, by any sequence of short writes, or the stream has failed |
| ChunkedStream.FromIToHex | app/lib/httplib.h:2219-2227 | the loop from the last digit computes the hexadecimal form |
| ChunkedStream.ContentWriter.Write | app/lib/httplib.h:4029-4054 | one chunk is sent: the least hexadecimal numeral of the data's length in lower case, CR LF, the data, CR LF; or nothing for an empty write, which ends the loop |
| ChunkedStream.ContentWriter.Done | app/lib/httplib.h:4056-4098 | exactly 0 CR LF CR LF is sent |
| ChunkedStream.ContentWriter.WriteContent | app/lib/httplib.h:4022-4121 | on a stream that does not fail, what is sent is one such chunk a write and the end of the message, unless a write is empty; it is the text of which ArrivesExactly speaks |
| MultipartBody.FirstIsFirst | app/lib/httplib.h:4459-4480 | there is a match at the place and none before it |
| MultipartBody.FirstBehind | app/lib/httplib.h:4377-4386 | bytes handed over early do not hide a delimiter: the search in the buffer finds the first one of the input |
| MultipartBody.ParseKeepsRight | app/lib/httplib.h:4282-4411 | each call of parse keeps content, buffer and mode what the input so far demands |
| MultipartBody.EveryCutStreamsTheContent | app/lib/httplib.h:4367-4389 | for every cut of the input: content is a beginning of the bytes before the first delimiter, at most a delimiter's length behind; it is all of them, and the body state is left, exactly when the delimiter has come whole |
| MultipartBody.EveryCutDecides | app/lib/httplib.h:4390-4406 | for every cut: an end of line begins a new entry with the bytes behind it, two dashes make the form valid, anything else stops the parser for good |
| MultipartBody.CutBeforeEndOfLine | app/lib/httplib.h:4390-4406 | cut in front of an end of line behind the closing dashes, that one begins a new entry with the bytes behind it |
| MultipartBody.EpilogueIsIgnored | app/lib/httplib.h:4390-4406 | without an end of line behind the closing dashes every cut leaves the form closed and valid |
| MultipartBody.ClosingDependsOnTheCut | app/lib/httplib.h:4397-4400 | what follows the closing dashes is dropped in the same call; for all bytes there, every cut leaves the parser at the boundary with a valid form if and only if there is no end of line in them |
| MultipartParserClass.MultipartParser.BufAppend | app/lib/httplib.h:4482-4498 | the overlapping shift and the growth keep what is left, and put the new bytes behind it |
| MultipartParserClass.MultipartParser.StartWith | app/lib/httplib.h:4440-4447 | true exactly when the text begins there |
| MultipartParserClass.MultipartParser.BufFind | app/lib/httplib.h:4459-4480 | the first match, or the size when there is none |
| MultipartParserClass.MultipartParser.ParseBody | app/lib/httplib.h:4367-4389 | content, buffer and mode change as the body state on texts |
| MultipartParserClass.MultipartParser.ParseBoundary | app/lib/httplib.h:4390-4406 | buffer, mode and validity change as the boundary state on texts |
| MultipartParserClass.MultipartParser.Parse | app/lib/httplib.h:4282-4411 | one call is one call of the parser on texts, for which the theorems hold |

## Left out

* Weak memory orders: atomic steps are sequentially consistent. Real threads, sleeps and timing.
* Producers racing with `shutdown`, `reset` or `ensure_running`: shutdown begins only when every producer is outside
  `enqueue`, and none enters before the join; the queue's `reset` does not provide for a producer between exchange and
  link store (`modules/logger/include/logger/core/lockfree_queue.hpp:102-110`). Several threads calling start and
  shutdown at once.
* Restarting `LogEngine` itself, which replaces its pool at each start while the free list keeps nodes of the old one
  (`modules/logger/src/log_engine.cpp:57-64`); repeated rounds are those of `VerifiableEngine`.
* What a run does after a stale pop of the free list, beyond the examples of one.
* The type-erased payload: it is an integer with its producer's number; its construction and the setting of its two
  functions are one step, since nobody else can reach the record then. `submit_fn` and `destroy_fn` do not throw.
* VerifiableEngineClass.VerifiableEngine: one client thread plays producer and controller and runs the worker's code
  at `WorkerTurn` and `Shutdown`; all interleavings are in the step machine.
* VerifiableEngineClass.VerifiableEngine.Pop: the inner wait is not entered by that client; it is covered by the step
  machine.
* ServerClass.Server: one submitter and one worker, which runs at `WorkerLoop` and `WaitForWorker`; all interleavings
  are in the step machine.
* ServerClass.Server.TrySubmit: with one submitter nobody comes between its check and its push; the race is in the
  step machine.
* ServerProtocol.CaughtSubmitterLosesEvent: one shape of a state with a caught submitter; ServerDrain.CaughtLoses has
  them all.
* ServerProtocol.GracefulShutdownDrains: in the setting of no submitter past its state check when the server stops
  accepting, and no forced mode; ServerDrain.LossExactly and ServerForce.ForcedLossExactly say for every other state
  whether an event can be lost.
* ServerDrain.LossExactly: for queues with room left for one event of each submitter, and fewer than 2^64 events and
  workers.
* ServerForce.ForcedLossExactly: for queues with room left for one event of each submitter; a server on which both
  modes are asked for in turn is covered by the invariants and by ServerForce.ForceSafeRunLosesNothing only.
* ServerProtocol.BackpressureBoundsQueue: for capacity + k at most 2^64, and within one start that began with an empty
  queue.
* The server's condition variable beyond its predicate (liveness), starting again after a stop, hooks, metrics,
  validation of events (always true in the source), the processing pipeline and other queue types.
* RegistryClass.TokenRegistry.Resolve: the source asserts that the token is live; so does the model, as a
  precondition.
* Registry calls from several threads, which the source does not protect; overflow of reference counts, which the
  number of tokens rules out but for leaked charges.
* HandleSpec.RunKeepsBijection: all handles are on one registry, and tokens are acquired through handles only.
* ChunkedStream.ContentWriter.WriteContent: a provider makes one write a turn, then `done()`; compression, trailers
  and a server that is shutting down meanwhile are not modelled.
* ChunkedStream.ContentWriter.Done: without trailers, and without a compressor that holds bytes back.
* ChunkedStream.ContentReader.ReadTrailerFields: `parse_header` is not modelled.
* ChunkedStream.ContentReader.ReadContent: the receiver accepts everything; the fields of a trailer are skipped, not
  stored.
* ChunkedMessages.MessageIsRead: what may stand in an extension or a trailer field is not restricted beyond its line
  and, for an extension, its first byte; so more is accepted than section 4.1 of RFC 7230 allows there.
* MultipartBody.EveryCutStreamsTheContent: from the body state with an empty buffer, with callbacks that accept.
* MultipartParserClass.MultipartParser.Parse: stops where the header fields of a new entry begin; those fields
  (regular expressions, length limits) and the preamble, of which unmatched bytes are discarded at each call, are not
  modelled.
* `TextSink` formatting, sinks and policies, stream adapters, schema macros, sockets, TLS, files and the HTTP client.
