# Rivet: a verified model of its hard parts

Apache Rivet embeds Tcl in the Apache HTTP server. This project models five of its
components in Dafny and proves what their code promises: for all inputs, for all
interleavings, and over whole runs.

* **Threaded bridges** (`Lazy*.dfy`, `Worker*.dfy`). Each bridge is a state machine
  whose steps are the stretches of code between two blocking points. Mutexes, the
  bounded queue, condition variables with lossy signals and spurious wakeups, script
  `exit`, the supervisor, the finalizer and the shutdown drain are explicit. An
  inductive invariant gives ownership, absence of lost wakeups, pool conservation and
  termination of the drain. `LazyProgress`, `LazySeekers`, `LazyContinuations`,
  `LazyArrivals`, `LazyAnswers`, `WorkerProgress`, `WorkerPotential` and
  `WorkerAnswers` decide which requests the threads can still answer by themselves,
  bound the steps that takes, and show that nothing deadlocks. `LazyFinalizer` and
  `WorkerDrain` follow the two shutdowns over whole runs: where they go, when exactly
  they end, and whom they have told to leave. `LazySections` and
  `WorkerSections` hold the critical sections as methods on the objects the source
  updates, whose validity is the hand-off protocol, with the supervisor's loops over the
  slot table.
* **Template compiler** (`Template.dfy`, `TemplateMeaning.dfy`, `TemplateOutput.dfy`). The
  scanning loop is proved to compute the compilation of a segment list, Tcl's reading of
  the compiled script is proved to be the segments again, and running its commands to
  print them with nothing added.
* **Multipart window buffer** (`Multipart.dfy`). A class over a byte array; its
  validity says that consumed bytes, window and unread stream are the request body.
* **URL and form coding** (`UrlCoding.dfy`, `WwwStrings.dfy`, `FormCoding.dfy`,
  `CodingLiterals.dfy`). The in-place decoder, the splitter and the encoder of the other
  library meet in a round trip; what single escapes stand for is stated on written-out
  characters.
* **Script cache and cipher** (`CacheKey.dfy`, `ScriptCache.dfy`, `CacheTheorems.dfy`,
  `Cipher.dfy`). The cache is a class with its key list, table and reference counts; a
  cached run is compared with an uncached one. The cipher is a method over an array.

Quantities that C bounds are written out: bytes are 0..255, `char` is signed where the
cipher computes with it, its `%` truncates, times are 64 bits. The thread library's mutexes,
queue operations and thread creation are atomic and do not fail; `Rivet_SendContent`
is a function from a request to a code that returns.

Where the code and its own comments differ, the code is followed. The comment of
`my_memstr` speaks of partial matches, but the comparison is of the whole needle
(apache_multipart_buffer.c:52). The drain loop promises to wait for busy threads, but
`threads_to_stop` starts at 0, so an empty queue at the first try ends it at once
(rivet_worker_mpm.c:139 and 181). `ap_unescape_url_u` has branches for code points
above 0xFFFF that nothing reaches.

Five promises do not hold in general and are stated with their exact condition and
reachable examples:

* a new lazy worker finds its configuration: `LazyTheorems.CrashesExactly`,
  `EarlyReadCrashes`; the theorems about answers speak of processes that have not crashed;
* every request of the lazy bridge is answered: `LazyAnswers.AnsweredExactly`,
  `ExitOutnumbersTheNextRequest`, `ExitTrapsTheNextRequest`, `ExitStrandsTheNextRequest`;
  an outnumbered request may still be saved by a further one, which is then lost in its
  place (`RescuedExactly`);
* every request of the worker bridge is answered or refused: `WorkerAnswers.AnsweredExactly`,
  `ShutdownFreezesTheQueue`, `ShutdownLeavesARequestBehind`;
* a boundary that is in the request body is found: `Multipart.MultipartBuffer.FindBoundary`,
  `LoneBoundaryIsMissed`; a refill asks for what remains less the length of the boundary
  (apache_multipart_buffer.c:83-84), so the last bytes may never be fetched;
* the cache is transparent: `CacheTheorems.CacheIsTransparentExactly`,
  `DigitsCanMoveBetweenTimes`, `DigitsCanMoveFromNames`.

`dafny verify dfyconfig.toml` checks the whole project.

## Model

| member | source | states |
|---|---|---|
| `LazyInvariant.StepKeepsInv` | src/mod_rivet_ng/rivet_lazy_mpm.c:216-257 | Every step of every handler, worker and finalizer, with any interleaving and any signal lost or spurious, keeps the invariant on who owns, waits on and writes to a worker. |
| `LazyInvariant.RunInv` | src/mod_rivet_ng/rivet_lazy_mpm.c:216-257 | That invariant holds in every state of every run from a freshly started child. |
| `LazyTheorems.NoLostWakeup` | src/mod_rivet_ng/rivet_lazy_mpm.c:219-240 | At most one thread waits on a worker's condition variable, and a thread that waits unwoken has a loop test that is still true: a signal that fell on an empty wait set was not needed. |
| `LazyTheorems.ExactlyOnePlace` | src/mod_rivet_ng/rivet_lazy_mpm.c:389-421 | In every state a worker is in exactly one of: an idle array, a handler's hands, the finalizer's hands, on its way back, retired. |
| `LazyTheorems.PlacesAreExclusive` | src/mod_rivet_ng/rivet_lazy_mpm.c:389-396 | No worker is twice in an array, in the array of another virtual host, with two handlers, or with a handler of another virtual host. |
| `LazyTheorems.ServesItsOwnRequest` | src/mod_rivet_ng/rivet_lazy_mpm.c:231-235 | Content is generated for the request whose handler waits on that worker, on that request's virtual host, and for the first time; no other request's record changes. |
| `LazyTheorems.ReturnsItsOwnAnswer` | src/mod_rivet_ng/rivet_lazy_mpm.c:409-421 | A request is served at most once, the status its handler returns is the one computed for it, and a refused request was not served. |
| `LazyTheorems.CrashesExactly` | src/mod_rivet_ng/rivet_lazy_mpm.c:202-209 | The process ends on a null `w->conf` exactly when the new thread reads it while the request that created the worker has not been handed over (line 406); a read that comes later finds the worker's own virtual host. |
| `LazyProgress.VhostHolderNeverBlocks` | src/mod_rivet_ng/rivet_lazy_mpm.c:245-247 | Locks nest one way: the holder of a virtual host mutex can always take its next step, which releases it. |
| `LazyProgress.HeldWorkerIsLeftAlone` | src/mod_rivet_ng/rivet_lazy_mpm.c:402-419 | No step but those of its holder and of its own thread, and wakeups on it, writes to a worker that a handler holds or to the request that holds it. |
| `LazyProgress.DoomedForever` | src/mod_rivet_ng/rivet_lazy_mpm.c:245-249 | A request in the hands of a worker that has left its loop stays in them whatever step follows. |
| `LazyProgress.TrappedUntilDoomed` | src/mod_rivet_ng/rivet_lazy_mpm.c:367-398 | A handler that holds the mutex with a dead worker on top of the array can only go on by taking that worker, unless the finalizer starts first. |
| `LazySeekers.OutnumberedUntilTrapped` | src/mod_rivet_ng/rivet_lazy_mpm.c:367-398 | When no worker of a host will come back to its array and at least as many dead ones lie on top of it, or are about to be pushed, as there are requests that look for a worker, a request that has only arrived stays in that position or becomes trapped, whatever step follows but a further request or the finalizer's start. |
| `LazyProgress.OwnStepsDecrease` | src/mod_rivet_ng/rivet_lazy_mpm.c:216-247 | Each step of a request's handler or worker strictly lowers a rank of at most 40. |
| `LazyProgress.OtherStepsKeepRank` | src/mod_rivet_ng/rivet_lazy_mpm.c:216-247 | Steps of all other threads leave that rank as it is; only a spurious wakeup on its own worker may raise it. |
| `LazyProgress.WorkIsBounded` | src/mod_rivet_ng/rivet_lazy_mpm.c:216-247 | In any stretch of any run an unanswered request whose worker is in its loop costs its handler and worker at most 40 steps, and four more for each spurious wakeup. |
| `LazyAnswers.AnsweredExactly` | src/mod_rivet_ng/rivet_lazy_mpm.c:367-421 | In every reachable state of a live process the threads can by themselves, with no further request, no shutdown and no spurious wakeup, bring an unanswered request's handler back if and only if its worker has not left the loop (doomed), its handler is not about to take one that has (trapped), and it is not outnumbered by dead workers as in the row on `OutnumberedUntilTrapped`. Only when shutdown had begun before may coming back mean being refused. |
| `LazyAnswers.RescuedExactly` | src/mod_rivet_ng/rivet_lazy_mpm.c:367-398 | If further requests may come in, an outnumbered request can be answered too: the condition is only that it is neither doomed nor trapped. Each dead worker is then taken by a request that is lost with it. |
| `LazyAnswers.QuietMeansDoomed` | src/mod_rivet_ng/rivet_lazy_mpm.c:216-250 | In a reachable state of a live process where nothing is enabled but arrivals, the finalizer's start and spurious wakeups, every unanswered request is in the hands of a worker that has left its loop. |
| `LazyAnswers.QuietMeansDone` | src/mod_rivet_ng/rivet_lazy_mpm.c:216-250 | No deadlock: unless a script calls `exit`, no request is unanswered in such a state. |
| `LazyAnswers.OnlyRetiredWorkersLeave` | src/mod_rivet_ng/rivet_lazy_mpm.c:222-225 | Unless a script calls `exit`, only workers told to by the finalizer leave their loop. |
| `LazyAnswers.NeverStuckWithoutExit` | src/mod_rivet_ng/rivet_lazy_mpm.c:367-421 | Unless a script calls `exit`, the threads of a live process can by themselves, without further requests or spurious wakeups, bring every unanswered request's handler back, before and during shutdown. |
| `LazyCounterexamples.EarlyReadCrashes` | src/mod_rivet_ng/rivet_lazy_mpm.c:273-289 | A reachable crash: the thread that `create_worker` started reads `w->conf` before line 406 has stored it. |
| `LazyCounterexamples.ExitOutnumbersTheNextRequest` | src/mod_rivet_ng/rivet_lazy_mpm.c:245-250 | A reachable state, without shutdown, where the next request has only arrived, the mutex is free, the only idle worker is dead after a script's `exit`, and the request cannot be answered unless one more request comes in. |
| `LazyCounterexamples.ExitTrapsTheNextRequest` | src/mod_rivet_ng/rivet_lazy_mpm.c:245-250 | The state after that: the request, with the mutex in hand, can only take the dead worker. |
| `LazyCounterexamples.ExitStrandsTheNextRequest` | src/mod_rivet_ng/rivet_lazy_mpm.c:245-250 | Later still: the request has been handed to the dead worker, and nothing but arrivals, the finalizer's start and spurious wakeups can still happen. |
| `LazyPool.PoolIsConserved` | src/mod_rivet_ng/rivet_lazy_mpm.c:209-257 | Per virtual host, workers created = idle + held or in transit + dismissed, and `threads_count` is the number of workers between their increment and their decrement. |
| `LazyPool.CreationFindsEmptyArray` | src/mod_rivet_ng/rivet_lazy_mpm.c:389-392 | A step that adds a worker to a virtual host leaves all of its workers busy. |
| `LazyPool.PoolWithinHighWaterMark` | src/mod_rivet_ng/rivet_lazy_mpm.c:389-396 | The number of workers of a virtual host never exceeds the largest number that were busy at one earlier moment. |
| `LazySections.RunsFollowProtocol` | src/mod_rivet_ng/rivet_lazy_mpm.c:217-249 | In every state of every run each descriptor follows the hand-off protocol that is the validity of the class below: who may wait, what status, position and answers go together. |
| `LazySections.LazyTclWorker.constructor` | src/mod_rivet_ng/rivet_lazy_mpm.c:273-289 | `create_worker`: a new descriptor follows the protocol on behalf of its creator, nothing handed over, and has no `conf` for its thread to read. |
| `LazySections.LazyTclWorker.HandOff` | src/mod_rivet_ng/rivet_lazy_mpm.c:402-412 | The handler's section keeps the protocol and ends with the worker awake, the request and its host there to read, no answer yet, and the handler the only one that waits. |
| `LazySections.LazyTclWorker.WakeForJob` | src/mod_rivet_ng/rivet_lazy_mpm.c:219-221 | The worker back from its wait keeps the protocol and stands at its loop tests with its mutex. |
| `LazySections.LazyTclWorker.HandlerWake` | src/mod_rivet_ng/rivet_lazy_mpm.c:411-419 | After a wakeup the handler gets an answer exactly when one has been computed, and that one; then the worker is awake and given back, otherwise the handler waits again. |
| `LazySections.LazyTclWorker.LoopTests` | src/mod_rivet_ng/rivet_lazy_mpm.c:217-233 | The worker starts on a request exactly when one was handed over and its loop goes on, then on that of the handler that waits for it and for the first time; it leaves exactly when told to or after `exit`. |
| `LazySections.LazyTclWorker.FinishServing` | src/mod_rivet_ng/rivet_lazy_mpm.c:235-240 | From a descriptor without an answer to one with exactly this answer, its handler awake and the worker alone waiting. |
| `LazySections.LazyTclWorker.Retire` | src/mod_rivet_ng/rivet_lazy_mpm.c:479-483 | The finalizer's section keeps the protocol: the idle worker is awake, nobody waits, and its next loop test makes it leave; `LazyFinalizer.RoundPopsAll` and `RoundRetiresAll` say on whom it is run. |
| `LazySections.Exchange` | src/mod_rivet_ng/rivet_lazy_mpm.c:402-421 | The sections in the order the protocol forces, on any idle worker: the handler gets the computed code, and the worker goes back, in its loop unless the script called `exit`. |
| `LazySections.VhostIface.Grow` | src/mod_rivet_ng/rivet_lazy_mpm.c:245-247 | Making room in the array of idle workers keeps its contents. |
| `LazySections.VhostIface.Push` | src/mod_rivet_ng/rivet_lazy_mpm.c:245-247 | Rescheduling puts the worker last in the array and frees the mutex. |
| `LazySections.VhostIface.Take` | src/mod_rivet_ng/rivet_lazy_mpm.c:371-398 | Refuses at shutdown, takes the worker put back last, or asks for a new one when the array is empty; the rest of the array is kept. |
| `LazySections.TakeIsLookup` | src/mod_rivet_ng/rivet_lazy_mpm.c:371-398 | The lookup step of the machine does to the virtual host what that method does. |
| `LazyFinalizer.ReadDecidesExactly` | src/mod_rivet_ng/rivet_lazy_mpm.c:460-490 | The finalizer reads the counter of a host with that mutex in hand. It starts a round of popping there exactly when fewer than three rounds have ended and somebody is left, that is the counter is above 0 and not the 1 of its own server; otherwise it goes on to the next host, or is through after the last. |
| `LazyFinalizer.RoundPopsAll` | src/mod_rivet_ng/rivet_lazy_mpm.c:474-487 | In a round each pop takes the last worker of the array, who is then told to leave and awake, and is followed by another pop; the pop that finds the array empty is followed by another reading of the counter. |
| `LazyFinalizer.FinishedMeansDone` | src/mod_rivet_ng/rivet_lazy_mpm.c:451-492 | When the finalizer is through it has locked and read every host, and at some such reading nobody was left, or three rounds of popping have ended there. |
| `LazyFinalizer.RoundRetiresAll` | src/mod_rivet_ng/rivet_lazy_mpm.c:474-484 | A worker in an idle array at any moment of the shutdown has been told to leave once a round of popping has ended on its host, and stays so. |
| `LazyFinalizer.FinalizerIsBounded` | src/mod_rivet_ng/rivet_lazy_mpm.c:451-492 | From any moment of the shutdown on, under any interleaving, the finalizer takes at most eleven steps for each host and two for each worker. |
| `LazyFinalizer.FinalizerCanStep` | src/mod_rivet_ng/rivet_lazy_mpm.c:460-488 | Before its end the finalizer never waits for good: its next step, or the step that frees the mutex it needs, is enabled. |
| `LazyFinalizer.QuietMeansFinished` | src/mod_rivet_ng/rivet_lazy_mpm.c:444-492 | When the threads of a live process have come to rest after a shutdown began, the finalizer is through. |
| `LazyFinalizer.RetiredAreGone` | src/mod_rivet_ng/rivet_lazy_mpm.c:222-257 | Then every worker that was told to leave has left and is no longer counted. |
| `WorkerInvariant.StepKeepsInv` | src/mod_rivet_ng/rivet_worker_mpm.c:235-303 | Every step of handlers, Tcl threads, supervisor and shutdown keeps the invariant on descriptors, queue, slots and counters. |
| `WorkerInvariant.RunInv` | src/mod_rivet_ng/rivet_worker_mpm.c:235-303 | That invariant holds in every state of every run. |
| `WorkerTheorems.NoLostWakeup` | src/mod_rivet_ng/rivet_worker_mpm.c:247-282 | At most one thread waits on a descriptor, nobody who may go on waits unwoken, and a waiting supervisor has nothing to do. |
| `WorkerTheorems.AtMostOnePlace` | src/mod_rivet_ng/rivet_worker_mpm.c:235-285 | A descriptor is in at most one of queue, a handler's hands, the shutdown thread's hands; in exactly one while on offer or served, in none before its push. |
| `WorkerTheorems.PlacesAreExclusive` | src/mod_rivet_ng/rivet_worker_mpm.c:598-635 | The queue holds at most 100 descriptors and none twice, a push has to wait exactly when it holds 100, and no descriptor is held by two handlers. |
| `WorkerTheorems.ServesItsOwnRequest` | src/mod_rivet_ng/rivet_worker_mpm.c:269-273 | Content is generated for the request whose handler waits on this thread, and for the first time; no other record changes. |
| `WorkerTheorems.ReturnsItsOwnAnswer` | src/mod_rivet_ng/rivet_worker_mpm.c:613-635 | A request is served at most once and its handler returns the code computed for it. |
| `WorkerTheorems.PoolStaysWhole` | src/mod_rivet_ng/rivet_worker_mpm.c:376-418 | Slots are pairwise distinct, every live or exiting thread has one, live plus exiting is the number started, and `running_threads_count` lies between 0 and `threads_count`. |
| `WorkerTheorems.RefillFindsTheSlot` | src/mod_rivet_ng/rivet_worker_mpm.c:385-411 | The search for a thread taken off the exiting list always finds its slot, replaces it, and the number of live threads grows by one. |
| `WorkerTheorems.DrainedPoolIsFull` | src/mod_rivet_ng/rivet_worker_mpm.c:383-415 | With an empty exiting list exactly the started number of threads is live. |
| `WorkerProgress.HeldThreadIsLeftAlone` | src/mod_rivet_ng/rivet_worker_mpm.c:613-635 | No step but those of its holder and of its own thread, and wakeups on it, writes to a descriptor that a handler holds or to the request that holds it. |
| `WorkerProgress.OwnStepsDecrease` | src/mod_rivet_ng/rivet_worker_mpm.c:247-282 | Each step of a handler or of the thread it holds strictly lowers a rank of at most 28, which bounds the steps to its answer unless shutdown overtakes it. |
| `WorkerProgress.OtherStepsKeepRank` | src/mod_rivet_ng/rivet_worker_mpm.c:247-282 | Steps of all other threads leave that rank as it is; only a spurious wakeup on its own thread may raise it. |
| `WorkerProgress.WorkIsBounded` | src/mod_rivet_ng/rivet_worker_mpm.c:247-282 | In any stretch of any run in which a request holds a thread that shutdown has not kept from serving it, it costs its handler and thread at most 28 steps, and four more for each spurious wakeup. |
| `WorkerProgress.AbandonedForever` | src/mod_rivet_ng/rivet_worker_mpm.c:252-256 | A request that the shutdown flag has caught before its service began stays so, unanswered, whatever step follows. |
| `WorkerAnswers.JobHolderNeverBlocks` | src/mod_rivet_ng/rivet_worker_mpm.c:296-299 | The holder of the job mutex can always take its next step. |
| `WorkerAnswers.OfferStep` | src/mod_rivet_ng/rivet_worker_mpm.c:317-420 | Before shutdown, with an empty queue, some thread can push, or a step of a thread, of the supervisor or of a served request lowers a potential; once the shutdown thread holds the job mutex this needs a thread that can reach its push without it. |
| `WorkerAnswers.AnsweredExactly` | src/mod_rivet_ng/rivet_worker_mpm.c:598-635 | In every reachable state the threads can by themselves, with no further request, no shutdown being begun and no spurious wakeup, bring an unanswered request's handler back if and only if shutdown has not overtaken it: the flag has not been set before its service began, and it does not wait on an empty queue while the shutdown thread holds the job mutex and no thread can reach its push without it. |
| `WorkerAnswers.AnsweredUntilShutdown` | src/mod_rivet_ng/rivet_worker_mpm.c:598-635 | Until the shutdown thread takes the job mutex the threads can do so for every unanswered request, also for one that waits on an empty queue after threads have exited. |
| `WorkerAnswers.QuietMeansAbandoned` | src/mod_rivet_ng/rivet_worker_mpm.c:235-303 | In a reachable state where nothing is enabled but arrivals, the beginning of a shutdown and spurious wakeups, a request is unanswered only if the shutdown flag came before its service. |
| `WorkerAnswers.QuietMeansDone` | src/mod_rivet_ng/rivet_worker_mpm.c:235-303 | No deadlock: before a shutdown every request has been answered in such a state. |
| `WorkerCounterexamples.ShutdownFreezesTheQueue` | src/mod_rivet_ng/rivet_worker_mpm.c:144-153 | A reachable state, with the flag not set yet, where a request waits on the empty queue and the only thread still needs the job mutex that the shutdown thread holds. |
| `WorkerCounterexamples.ShutdownLeavesARequestBehind` | src/mod_rivet_ng/rivet_worker_mpm.c:247-256 | A reachable state where a thread has left on the shutdown test without answering the request it was handed. |
| `WorkerShutdown.MeasureDecreases` | src/mod_rivet_ng/rivet_worker_mpm.c:156-181 | After shutdown no step of any thread raises waits + queue + pushes still possible + threads still to start, and each try to pop lowers it. |
| `WorkerShutdown.DrainTerminates` | src/mod_rivet_ng/rivet_worker_mpm.c:156-181 | From any moment after shutdown the drain loop goes round at most that measure's number of times, whatever the others do; `WorkerDrain.RoundEndsExactly` says that it does not stop earlier than it may. |
| `WorkerShutdown.DrainCanStep` | src/mod_rivet_ng/rivet_worker_mpm.c:159-177 | The drain loop never waits for good: its next step, or the one that frees the mutex it needs, is enabled. |
| `WorkerDrain.RoundEndsExactly` | src/mod_rivet_ng/rivet_worker_mpm.c:155-181 | After a try that found the queue empty and after each dismissal the loop ends exactly when five tries were in vain or the number of threads last read is at most the number to be skipped; otherwise its next try is enabled. |
| `WorkerDrain.DrainedMayStop` | src/mod_rivet_ng/rivet_worker_mpm.c:155-181 | In every state in which the shutdown thread is through, with descriptors left on the queue or not, one of these two is the case. |
| `WorkerDrain.PopTakesTheFirst` | src/mod_rivet_ng/rivet_worker_mpm.c:159-174 | A try that finds descriptors takes exactly the one pushed first. |
| `WorkerDrain.PoppedMustLeave` | src/mod_rivet_ng/rivet_worker_mpm.c:172-177 | Whoever was popped is awake with the job test true, so that it sees the flag, from its dismissal on for ever; until then the shutdown thread is dismissing it. |
| `WorkerDrain.PoppedAreGone` | src/mod_rivet_ng/rivet_worker_mpm.c:172-177 | When all threads have come to rest, everybody popped has left. |
| `WorkerSections.RunsFollowProtocol` | src/mod_rivet_ng/rivet_worker_mpm.c:235-285 | In every state of every run each descriptor follows the hand-off protocol that is the validity of the class below. |
| `WorkerSections.HandlerPrivate.constructor` | src/mod_rivet_ng/rivet_worker_mpm.c:218-225 | A new descriptor follows the protocol as its thread's own. |
| `WorkerSections.HandlerPrivate.HandOff` | src/mod_rivet_ng/rivet_worker_mpm.c:613-628 | The handler's section keeps the protocol and ends with the thread awake, the request there to read, no answer yet, and the handler the only one that waits. |
| `WorkerSections.HandlerPrivate.WakeForJob` | src/mod_rivet_ng/rivet_worker_mpm.c:247-250 | The thread back from its wait keeps the protocol and stands at its job test with its mutex. |
| `WorkerSections.HandlerPrivate.HandlerWake` | src/mod_rivet_ng/rivet_worker_mpm.c:625-635 | The handler gets an answer exactly when one has been computed, and that one; then the descriptor is its thread's own again and nobody waits on it. |
| `WorkerSections.HandlerPrivate.JobTests` | src/mod_rivet_ng/rivet_worker_mpm.c:247-271 | The thread serves exactly a request handed over before the shutdown, the one of the handler that waits and for the first time; it leaves exactly when something came and the flag is set, otherwise it waits alone. |
| `WorkerSections.HandlerPrivate.FinishServing` | src/mod_rivet_ng/rivet_worker_mpm.c:273-282 | From a descriptor without an answer to one with exactly this answer, its handler awake and the thread alone waiting. |
| `WorkerSections.HandlerPrivate.Dismiss` | src/mod_rivet_ng/rivet_worker_mpm.c:173-177 | The shutdown thread's section keeps the protocol: the thread it popped is awake and will find the flag set. |
| `WorkerSections.Exchange` | src/mod_rivet_ng/rivet_worker_mpm.c:613-635 | The sections in the order the protocol forces, on any waiting thread: the handler gets the computed code and the descriptor is its thread's own again. |
| `WorkerSections.Supervisor.StartThreadPool` | src/mod_rivet_ng/rivet_worker_mpm.c:317-340 | The first `nthreads` slots hold that many fresh threads in order, the others are untouched. |
| `WorkerSections.Supervisor.RestartThread` | src/mod_rivet_ng/rivet_worker_mpm.c:389-415 | The loop over the slots replaces the first slot that holds the thread, and only that one; without one nothing changes. |
| `WorkerSections.Supervisor.Refill` | src/mod_rivet_ng/rivet_worker_mpm.c:383-416 | The loop over the exiting list computes the table a fold over that list gives. |
| `WorkerSections.RefillStepIsOneRound` | src/mod_rivet_ng/rivet_worker_mpm.c:383-416 | Each refill step of the machine is one round of that loop: the final table is the same from before and after it. |
| `WorkerSections.RefillReplacesExactly` | src/mod_rivet_ng/rivet_worker_mpm.c:383-416 | With distinct slots and reported threads that all have one, exactly the reported ones are replaced by new threads, the rest stay, and slots stay distinct. |
| `Template.Parser` | src/parser/rivetParser.c:175-282 | The scanning loop appends to the buffer what compiling the template's segments appends, and returns whether it ended inside a tag. |
| `Template.CompileTemplate` | src/parser/rivetParser.c:135-151 | Prologue, scanner output and epilogue together are the compilation of the segments. |
| `Template.ScannerFollowsSegments` | src/parser/rivetParser.c:193-274 | From every scanner state the rest of the output is what the segments of the unread template, with the held character in front, still demand. |
| `TemplateMeaning.TextReadsBack` | src/parser/rivetParser.c:219-246 | An escaped text of any characters, read by Tcl's double-quote and backslash rules, ends at the quote emitted behind it and is the original text. |
| `TemplateMeaning.MeaningPreserved` | src/parser/rivetParser.c:135-151 | The script of any template divides into exactly the template's texts, each in a written-out `puts -nonewline` and read by Tcl's quoting rules, its code, as literal stretches between them, and its echoed words behind `puts -nonewline`, in order; Tcl's own reading of a stretch of code is not part of it. |
| `TemplateOutput.PageIsPrinted` | src/parser/rivetParser.c:135-274 | Running the script of any template, with `puts` ending what it prints with a newline unless told not to, prints the texts, what the code prints and the values of the echoed words, in order and with nothing added, whatever those values are. |
| `TemplateOutput.EscapedExactly` | src/parser/rivetParser.c:219-246 | In a text exactly braces, dollars, brackets, double quotes and backslashes get a backslash. |
| `TemplateMeaning.SegmentsAlternate` | src/parser/rivetParser.c:193-274 | The segments of any template are text first, then code and text in turn; only the last may lack its end tag. |
| `TemplateMeaning.SegmentsAreClean` | src/parser/rivetParser.c:193-274 | No segment of any template contains a tag the scanner would recognise. |
| `TemplateMeaning.RenderOfParse` | src/parser/rivetParser.c:193-274 | Writing the segments of a template down gives the template back, up to one undecided character at its end. |
| `TemplateMeaning.CleanTextExactly` | src/parser/rivetParser.c:200-218 | The scanner finds no tag in a text and leaves nothing undecided if and only if every run of `<` before a `?` or before the end has even length. |
| `TemplateMeaning.CleanCodeExactly` | src/parser/rivetParser.c:248-270 | The same for code, with runs of `?` before a `>` or before the end. |
| `TemplateMeaning.RoundTripExactly` | src/parser/rivetParser.c:193-274 | A segment list survives rendering and parsing if and only if it alternates, its texts and code have no such run of odd length, and no code that is not an echo begins with `=`. |
| `TemplateMeaning.DoubledLessHidesTheTag` | src/parser/rivetParser.c:200-218 | `<<?` does not open a tag, although `<?` does. |
| `Multipart.MemStr` | src/request/apache_multipart_buffer.c:40-62 | Returns the first offset the comparison accepts, none exactly when there is none; with `partial` a match may run over the end of the window. |
| `Multipart.MultipartBuffer.constructor` | src/request/apache_multipart_buffer.c:186-207 | The boundary is `--` and the name, the delimiter a LF and that; a new buffer has room for a delimiter line and at least 8192 bytes and holds nothing; consumed + window + unread is the body. |
| `Multipart.MultipartBuffer.FillBuffer` | src/request/apache_multipart_buffer.c:68-100 | Asks the client exactly once, for exactly what the window leaves room for, or, when no more than that remains, for what remains less the length of the boundary, if that is above 0, and not at all otherwise. The window becomes the old window followed by exactly the bytes given; nothing is lost, repeated or consumed, and the result is what the client returned, 0 without asking. |
| `Multipart.MultipartBuffer.NextLine` | src/request/apache_multipart_buffer.c:113-143 | Consumes exactly one line or a full buffer, returns it without CRLF or LF, ends it with a NUL that touches no unread byte; NULL only without LF in a window that is not full. |
| `Multipart.MultipartBuffer.GetLine` | src/request/apache_multipart_buffer.c:146-160 | A returned line is the next raw line of the body, up to its LF or a whole buffer, without its line end. A refill is made exactly when the window holds no line; NULL comes only after it, when the window with what it brought still holds none, and consumes nothing. |
| `Multipart.LinesAreDetermined` | src/request/apache_multipart_buffer.c:113-143 | Bytes divide into raw lines in one way only. |
| `Multipart.MultipartBuffer.FindBoundary` | src/request/apache_multipart_buffer.c:163-181 | Consumes raw lines, in order, up to and with the first that equals the boundary; when it returns false none of the lines consumed is the boundary and no further line is to be had. With a client that delivers what is asked and always has more than a buffer to report, it returns true if and only if one of the raw lines of the rest of the body is the boundary; with one that reports exactly what is left, it returns true whenever one of those before the last bytes, as many as the boundary is long, is, and if the rest fits the buffer only then. |
| `Multipart.LoneBoundaryIsMissed` | src/request/apache_multipart_buffer.c:82-96 | For any boundary, a body that is just one boundary line from a client that holds nothing back: the line is there and is not found. |
| `Multipart.MultipartBuffer.Read` | src/request/apache_multipart_buffer.c:253-289 | Returns the window's bytes before the delimiter less one CR, or what fits, and consumes exactly those; a complete delimiter stops it at its first occurrence, and where the search finds nothing, as in a window without LF, it takes the whole window or what fits. The window is the old one followed by what one refill brought, made exactly when it held less than was asked for. |
| `Multipart.MultipartBuffer.ReadBody` | src/request/apache_multipart_buffer.c:295-307 | With a complete delimiter in the window after the first refill, whether it was there before or came with it, the repeated reads consume exactly the bytes before its first occurrence less one CR, and return them up to a NUL; delimiter and CR stay unread in the window. In any case what is returned of consumed bytes without NUL is those bytes. A body without LF is consumed to its end over any number of windows if the client always has more to report, and up to at most as many bytes as the boundary is long if it reports what is left. |
| `Multipart.ChunkBeforeDelimiter` | src/request/apache_multipart_buffer.c:262-277 | A read before the delimiter takes all of the body, the next one takes nothing, whatever was refilled in between. |
| `UrlCoding.X2cIsHexValue` | src/request/apache_request.c:248-254 | The bit arithmetic of `x2c` gives digit pairs the same value as rivetWWW.c's digit function. |
| `UrlCoding.Utf8Convert` | src/request/apache_request.c:269-289 | Returns the value of four hexadecimal digits, or 0 if one is none, never above 0xFFFF, and changes no byte but those four. |
| `UrlCoding.Utf8ReadsBack` | src/request/apache_request.c:306-319 | The emitted bytes are exactly the ones that read as the code point by the layout of section 3 of RFC 3629, overlong forms excluded. |
| `UrlCoding.Emit` | src/request/apache_request.c:306-337 | Writes those bytes in place and nothing else; the branches above 0xFFFF are dead. |
| `UrlCoding.PlusToSpace` | src/request/apache_request.c:33-37 | Up to the terminator every plus becomes a space; nothing else changes. |
| `UrlCoding.UnitsOfSpelling` | src/request/apache_request.c:299-350 | A text has one reading as bytes, `%hh` and `%uXXXX`: what a list of well-formed units spells is read as that list. |
| `UrlCoding.UnescapeUnit` | src/request/apache_request.c:299-350 | One turn reads one unit, writes its value behind what was written, never past the read index, and leaves the unread bytes as they were. |
| `UrlCoding.UnescapeUrlU` | src/request/apache_request.c:292-361 | Decoding in place leaves the functional decoding and a NUL in the buffer, nothing behind the old string touched, and returns the functional status. |
| `UrlCoding.UrlDecodedExactly` | src/request/apache_request.c:292-361 | Status 400 exactly when no list of well-formed units spells the text; otherwise the result is the values of those units and 404 exactly when a `%hh` stands for a slash or NUL. Which digits a unit may have and what it stands for is in the `CodingLiterals` rows. |
| `WwwStrings.EscapeString` | src/librivet/rivetWWW.c:177-215 | The encoding loop writes, byte by byte, what the encoding of the C string is. |
| `WwwStrings.UnescapeString` | src/librivet/rivetWWW.c:82-138 | The decoding loop returns the decoded bytes up to their first NUL, or the error with the bytes behind the offending `%`. |
| `WwwStrings.UnescapeFailsExactly` | src/librivet/rivetWWW.c:110-126 | Decoding fails exactly when some `%` met lacks two of the digits of `CodingLiterals.HexDigitsExactly`, that is when no list of well-formed units spells the text. |
| `WwwStrings.EscapeRoundTrip` | src/librivet/rivetWWW.c:177-215 | unescape_string(escape_string(s)) = s for every NUL-free byte string. |
| `WwwStrings.EscapedAlphabet` | src/librivet/rivetWWW.c:190-209 | The encoding is ASCII letters and digits, `+` and `%`, between n and 3n bytes. |
| `WwwStrings.ServerReadsEscaped` | src/request/apache_request.c:394-398 | The server's in-place decoder also reads escape_string's output back, for every byte string. |
| `CodingLiterals.HexDigitsExactly` | src/librivet/rivetWWW.c:52-68 | A byte counts as a hexadecimal digit exactly if it is one of 0123456789abcdefABCDEF. |
| `CodingLiterals.PercentReads` | src/request/apache_request.c:339-350 | `%` and the two digits of any byte, each in lower or upper case, stand for that byte in both decoders, before any rest; status 404 exactly for a slash or a NUL. |
| `CodingLiterals.WideReads` | src/request/apache_request.c:269-319 | `%u` or `%U` and the four digits of any code point up to 0xFFFF, in any case, stand for bytes that read as that code point. |
| `CodingLiterals.PlainReads` | src/librivet/rivetWWW.c:100-108 | Every byte but `%` stands for itself, only `unescape_string` turns a plus into a space. |
| `CodingLiterals.LooseReads` | src/request/apache_request.c:339-350 | A `%` that begins no escape is kept and gives status 400, whatever follows. |
| `CodingLiterals.LooseFails` | src/librivet/rivetWWW.c:110-126 | `unescape_string` gives up at a `%` without two digits and reports the up to two bytes behind it. |
| `CodingLiterals.EscapeWrites` | src/librivet/rivetWWW.c:177-215 | Letters and digits are written as they are, a space as a plus, every other byte as `%` and its two lower-case digits. |
| `FormCoding.UrlWord` | src/request/apache_request.c:365-385 | Returns the text up to the next `&` or `;` and moves behind the whole run of separators. |
| `FormCoding.WordsExactly` | src/request/apache_request.c:365-385 | A word in front of any run of `&` and `;` is taken whole and the whole run is skipped: what is left does not begin with either. |
| `FormCoding.FieldsExactly` | src/request/apache_request.c:392-393 | A word divides at its first `=`; further ones right behind it are skipped. |
| `FormCoding.ApacheRequest.SplitToParms` | src/request/apache_request.c:388-402 | Appends one decoded key and value for each word of the data, in order. |
| `FormCoding.FormRoundTrip` | src/request/apache_request.c:388-402 | For every list of NUL-free keys and values, splitting the escaped fields joined by `&` gives exactly that list in order; the joined text has no NUL. |
| `FormCoding.SendAndSplit` | src/request/apache_request.c:388-402 | Sent through the splitting loop itself, such a list arrives as it was. |
| `CacheKey.KeysEqualExactly` | src/mod_rivet_ng/mod_rivet_cache.c:158-160 | Two keys are equal exactly when both flags are and the unseparated name and times are. |
| `CacheKey.KeySpelledOut` | src/mod_rivet_ng/mod_rivet_cache.c:158-160 | Two keys written out character by character: name, modification time and change time in hexadecimal, top level flag, dash, configuration flag. |
| `CacheKey.KeyIdentifiesVersion` | src/mod_rivet_ng/mod_rivet_cache.c:158-160 | Among versions whose names have no bar and whose times print equally long, equal keys mean equal versions, encoding included. |
| `CacheKey.TimesCollideExactly` | src/mod_rivet_ng/mod_rivet_cache.c:158-160 | Two versions of one file share a key if and only if their times print with equally many digits together and mtime * 16^digits(ctime) + ctime is the same number. |
| `CacheKey.CtimesSuffice` | src/mod_rivet_ng/mod_rivet_cache.c:158-160 | For one file with equally long change times, equal keys mean equal versions. |
| `CacheKey.PresentCtimesSuffice` | src/mod_rivet_ng/mod_rivet_cache.c:158-160 | Change times between 1978 and 2112 tell the versions of one file apart, whatever the modification times. |
| `CacheKey.DigitsCanMoveBetweenTimes` | src/mod_rivet_ng/mod_rivet_cache.c:158-160 | Two versions of one file with the same key; by the row above one of the change times must lie outside that range. |
| `CacheKey.DigitsCanMoveFromNames` | src/mod_rivet_ng/mod_rivet_cache.c:158-160 | Two files with the same key, for any one change time. |
| `ScriptCache.ThreadInterp.constructor` | src/mod_rivet_ng/mod_rivet_common.c:385-392 | A new cache of any size is empty and its list and table agree; the table exists exactly for a size above 0. |
| `ScriptCache.ThreadInterp.StoreScript` | src/mod_rivet_ng/mod_rivet_cache.c:234-260 | With room left the key goes in front of the list and the table takes a reference; 1 exactly when full; list and table agree and counts equal holders. |
| `ScriptCache.ThreadInterp.Parse` | src/mod_rivet_ng/rivetCore.c:298-363 | Evaluates the cached script if the key is known, else the compiled one and remembers it; recursion and stat errors change nothing; the entry created is always new; counts equal holders. |
| `ScriptCache.ThreadInterp.SetObjResult` | src/mod_rivet_ng/rivetCore.c:2144-2148 | The interpreter's result moves to a script with every count kept equal to its holders. |
| `ScriptCache.ThreadInterp.UrlScript` | src/mod_rivet_ng/rivetCore.c:2087-2151 | The same for the top level script, which becomes the result; a file that fails to compile leaves its partial script and is not remembered. |
| `ScriptCache.ThreadInterp.Cleanup` | src/mod_rivet_ng/mod_rivet_cache.c:100-137 | Every script loses exactly the table's reference, table and list are emptied, and without a new pool the cache is switched off. |
| `ScriptCache.ThreadInterp.CacheContent` | src/mod_rivet_ng/rivetCore.c:2263-2290 | Lists exactly the keys of the table, oldest first. |
| `CacheTheorems.StepIsTransparent` | src/mod_rivet_ng/rivetCore.c:322-363 | One parse, url_script or clean-up answers as without a cache and keeps every cached script the one its key was compiled to. |
| `CacheTheorems.CacheIsTransparentExactly` | src/mod_rivet_ng/rivetCore.c:2087-2151 | For any files, size and set of versions: every run answers as without a cache if and only if no two of the versions share a key and answer differently. |
| `CacheTheorems.SecondUseIsStale` | src/mod_rivet_ng/rivetCore.c:322-363 | What a shared key does: the second version is answered with the first one's script. |
| `CacheTheorems.CacheRefinesNoCache` | src/mod_rivet_ng/rivetCore.c:2087-2151 | Every run over versions whose times print equally long answers as without a cache, and list and table agree at its end. |
| `CacheTheorems.FirstScriptsStay` | src/mod_rivet_ng/rivetCore.c:322-363 | In a run without clean-ups the cache holds exactly the first keys that came up with a script that compiled, as many as it has room for and in their order, and is marked full exactly when one more has come up. |
| `Cipher.Crypt` | src/librivet/rivetCrypt.c:42-68 | In place, every character up to the terminator is shifted by the key character its position wraps to; the rest of the buffer is untouched. |
| `Cipher.CryptCommand` | src/librivet/rivetCrypt.c:70-124 | The commands apply the keys in order, each to the C string the one before left; without a key they fail. |
| `Cipher.CryptedAllMoves` | src/librivet/rivetCrypt.c:87-91 | With printable keys every character moves by the sum of the key shifts at its position, modulo 94. |
| `Cipher.DecryptUndoesEncrypt` | src/librivet/rivetCrypt.c:115-119 | Decrypting with any permutation of the printable encrypting keys restores the data with each tilde turned into a space. |
| `Cipher.OneKeyRestoresExactly` | src/librivet/rivetCrypt.c:53-59 | With one key of any bytes, decryption restores the data if and only if no position wraps C's remainder below zero (or is `}` under DEL). |

## Left out

- LazyBridge: the two unlocked reads of `w->conf` (rivet_lazy_mpm.c:106 and 204) are one step, and it and the store at 406 are atomic.
- Scheduling: the theorems on answers speak of what some continuation reaches, and `WorkIsBounded` of a request's own steps under any interleaving; that the operating system runs every thread sooner or later is not modelled.
- LazyBridge: the finalizer's test and pop of an idle array is one step, although the source does it without the virtual host mutex (474-478).
- LazyBridge: `LazyBridge_ExitHandler` running the finalizer inside a worker and leaving the process; `exit` only clears the worker's loop flag.
- WorkerBridge: the queue is never terminated or interrupted (nothing in the source does), so failing pushes and pops have no step; thread creation does not fail.
- WorkerBridge: configuration scripts and interpreter creation inside a thread's start, beyond whether they succeed.
- LazySections: aliasing between a descriptor and its thread's private data; both are fields of one object, and concurrent interleaving is in the step machine, not in the methods.
- TemplateMeaning.MeaningPreserved: code is compared as a literal stretch of the script; that Tcl ends it where the stretch ends is not covered. An open quote, brace or bracket, or an odd number of backslashes at its end, which joins the line after it, runs into the next segment's command.
- Template: `Rivet_Parse -string`, which evaluates the same script with a newline more, and reading the file in an encoding.
- Multipart.MultipartBuffer.Read: makes no claim about a delimiter that straddles a refill; a comparison that would run past the allocated buffer counts as no match.
- Multipart: parsing of part headers and file uploads.
- UrlCoding.UnescapeUrlU: requires four bytes behind each `%u` it meets, because the source steps over the terminator otherwise; they need not be digits.
- FormCoding.ApacheRequest.SplitToParms: requires the same of every field; `ap_getword` is taken to skip repeated stops and the parameter table to keep order.
- ScriptCache.ThreadInterp.Parse: requires that the table exists, as does ScriptCache.ThreadInterp.UrlScript, because with a cache size of 0 the source looks up through a null table.
- ScriptCache: interpreters that share a memory pool.
- ScriptCache: evaluating a script may nest further parses; in a run they are later operations.
- CacheKey.KeyIdentifiesVersion: goes from equally long times and names without a bar to equal versions; for versions of different files KeysEqualExactly is the exact condition, for those of one file TimesCollideExactly.
- Cipher.Crypt: requires nonempty keys, as an empty one divides by zero; on platforms with unsigned `char` key bytes above 127 act differently.
- Apache, APR and Tcl internals, configuration, environment and header commands, the list commands, inspection, the SGML and shell escapers, expiry dates.
