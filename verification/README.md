# vity: fiber scheduler, IO event registry, log patterns, configuration

A Dafny model of the four parts of vity that carry state, with proofs about every run
of them:

1. **Fiber scheduler** (`vity/scheduler.cc`, `vity/scheduler.h`, `vity/fiber.cc`).
   Any number of workers inside `Scheduler::run` share one queue of fibers and
   callbacks. `SchedulerState` is the transition system: one program counter per
   worker, one step per lock region, atomic operation or thread-local stretch.
   `SchedulerCode` has the same code as objects whose methods update their fields in
   place, each proved to make exactly the step that carries its name.
   `SchedulerInvariant`, `SchedulerCounts`, `SchedulerQueue`, `SchedulerJobs` and
   `SchedulerShutdown` build one inductive invariant. `SchedulerTheorems`,
   `SchedulerFairness` and `SchedulerTermination` draw the results for every reachable
   state and every run; `SchedulerLoop` and `SchedulerEvents` show that each worker makes
   its steps in the order of the code, is never stuck, and serves events. `SchedulerDraining` and `SchedulerStranding` say when the queue is
   empty in the end, and exactly when it need not be. `SchedulerLimits` has runs that
   show why the hypotheses are there; `SchedulerRuns` takes runs apart.
2. **IO event registry** (`vity/iomanager.cc`, `vity/iomanager.h`). `IoRegistry` is the
   registry on values: fd table, masks, event slots, epoll's interest map, pending
   counter, and a history that labels each successful `addEvent`. `IoInvariant` and
   `IoTheorems` prove what every operation keeps, including after `epoll_ctl` refuses;
   `IoDelivery` what a delivery and a whole batch do, by the bits of the delivered masks;
   `IoTargets` that what is scheduled is what was registered.
   `IoManager` has the objects updated in place. `IoScheduling` shows that every
   registry operation is the arm, disarm or fire step of the scheduler's transition
   system, and `IoJoint` runs the two together: over every interleaving the event slots
   and the pending counter there are the registry's.
3. **Log pattern compiler** (`LogFormatter::init`, `vity/log.cc`). `PatternScanner` has
   the index-moving loops, proved to compute the recursive scanner of `PatternSpec`;
   `PatternTheorems` relates that scanner to a printer, and `PatternTiling` says exactly
   which patterns it takes apart without loss. `PatternItems` says what the items are.
4. **Configuration** (`vity/config.cc`, `vity/config.h`). `ConfigTree` is the traversal
   of a YAML document, `ConfigPaths` the names of its nodes by their positions in the
   document, `ConfigVars` the variables, their listeners, and loading.

## Assumptions

*Steps.* A yield writes the fiber's state, saves its context and returns to `run` in one
step. For HOLD the step also includes what `run` does after it
(`vity/scheduler.cc:206-218` and `233-247`). The READY case is not folded: between lowering
the active counter and requeueing the fiber there is a program counter of its own
(`Done`), which is the window that matters for shutdown. A section under one lock is one
step; so is `addEvent`'s lookup with its resize; `IOManager::stopping` is one snapshot.

*User code* (`SchedulerState.Disciplined`). A fiber has at most one wake-up outstanding: a
queue entry, a thread's hand, an event slot, or its own READY return. A fiber with a wake-up
outstanding does not yield as READY. A callback fiber with a wake-up outstanding does not
end, and a worker's blank callback fiber is not scheduled. `SchedulerLimits` has a run that
breaks each of the four rules alone: the first two end with a worker swapping in a fiber that
another executes, the last two with a worker swapping in a fiber that has nothing to run.

*The kernel.* `epoll_ctl` demands that ADD names an absent descriptor and MOD and DEL a present
one; it may also refuse for reasons of its own, which the parameter `allow` decides. A
registered descriptor is not closed. What `epoll_wait` delivers is arbitrary.

## Where the code differs from what one would expect

- `%%` in a log pattern is not an escape: it emits one `%`, and the second `%` is looked at
  again (`vity/log.cc:254-257`), so `"%%"` alone is an error. Proved: `DoubledPercent`, and
  the exact class of token lists that survive printing and scanning, `RoundTripIff`.
- The scanner keeps `}` inside a directive's name, and an unclosed `{` loses its percent sign
  and pushes the error text before the literal collected so far (`vity/log.cc:271`, `313-317`).
  Proved: exactly which patterns lose text, `TilingIff`, and which text, `LostPercents`.
- `idle` triggers delivered bits that are not registered (`vity/iomanager.cc:335-341`), which
  trips the assertion in `triggerEvent`: a hang-up on a descriptor registered for READ only
  does. Proved: `HangUpAborts`, and exactly when it happens, `DeliveryAbortsIff` for one
  delivery and `BatchAbortsIff` for a batch.
- A true `stopping()` need not stay true: a worker may be about to requeue a READY fiber.
  Proved: exactly when it stays true, `StoppingIsStableIff`. Work can then be left queued for
  ever, `PinnedWorkCanBeStranded`. It cannot if nothing is pinned, `UnpinnedRunsDrain`, nor if
  some worker saw `stopping()` hold outside that window, `SeenOutsideWindowDrains`; and
  `DrainsIff` says from which states it can and from which it cannot.
- `ConfigVar::fromString` returns false whether or not it set the value (`vity/config.h:358`).

## Model

| member | source | states |
|---|---|---|
| SchedulerTheorems.SingleRunner | vity/scheduler.cc:200-247 | in every reachable state no fiber is inside two threads, a fiber is EXEC iff exactly one thread is inside it, and whatever a worker is about to swap in is not EXEC |
| SchedulerTheorems.ResumableFibers | vity/scheduler.cc:201-211 | a fiber taken from the queue is dead or has a body to run; a READY fiber is in the queue, in a hand, or about to be requeued |
| SchedulerTheorems.RecycledFibers | vity/scheduler.cc:152-267 | at the loop head the callback fiber is absent or a blank INIT fiber, and out of the loop the idle fiber is TERM, as the assertions of `reset` and the destructor demand |
| SchedulerTheorems.CountersExact | vity/scheduler.cc:187-263 | the active, idle and pending counters equal the number of workers with a task in hand, of workers in their idle fiber, and of occupied event slots, so none goes below zero |
| SchedulerTheorems.CallbackConservation | vity/scheduler.h:81-90 | a callback has entered the system iff it is somewhere, and it is in one place only: queued, in a hand, body of an unfinished fiber, or finished |
| SchedulerTheorems.StartedAtMostOnce | vity/scheduler.cc:168-231 | a callback is started at most once, only by the thread it is pinned to, and has been started iff it is finished or the body of a fiber past INIT |
| SchedulerTheorems.DrainedAtExit | vity/scheduler.cc:160-193 | once all workers have left and no outside thread has scheduled since the last scan, everything still queued is pinned to a thread other than the last scanner |
| SchedulerDraining.UnpinnedRunsDrain | vity/scheduler.cc:160-193 | if no call to `schedule` in the run names a thread, and no outside call comes after some scan, the queue is empty once all workers have left |
| SchedulerDraining.SeenOutsideWindowDrains | vity/iomanager.cc:277-282 | whatever is pinned, if some worker saw `stopping()` hold while nobody was in the requeue window and no work came from outside from then on, the queue is empty |
| SchedulerDraining.StrandSeenInWindow | vity/iomanager.cc:277-282 | if something is left queued after such a run, each worker that saw `stopping()` hold did so while another was in the window |
| SchedulerStranding.DrainsIff | vity/scheduler.cc:160-269 | from a reached state in which `stopping()` holds, all runs without new work from outside that take every worker out leave the queue empty if and only if no worker is in the window with its idle fiber ended or with another worker that will still scan |
| SchedulerStranding.OutlivedStrands | vity/scheduler.cc:206-211 | from every state in which such a worker is in the window there is a run that leaves work behind |
| SchedulerStranding.NotOutlivedDrains | vity/scheduler.cc:249-257 | from every other one no run does |
| SchedulerStranding.Advance | vity/scheduler.cc:249-267 | while `stopping()` holds, any worker outside the window can get out on its own, disturbing nobody |
| SchedulerTheorems.LeavesOnlyAfterStopping | vity/scheduler.cc:254-257 | a worker leaves `run` only if, earlier in the run, its own idle fiber saw `stopping()` hold |
| SchedulerLoop.LeavesOnlyWhenTold | vity/scheduler.cc:87-109 | at that point stop() had been called, and the flag that start() clears had been set again after its last clearing |
| SchedulerLoop.StepsFollowTheCode | vity/scheduler.cc:160-269 | in every run, two steps of one worker with none of its own in between follow each other as in the code: what it may do after a scan, a resume, a yield, an end, a look at `stopping()` |
| SchedulerLoop.EntersFirst | vity/scheduler.cc:140-160 | a worker's first step is to enter the loop |
| SchedulerLoop.NeverStuck | vity/scheduler.cc:160-269 | in every reached state every worker that has not left has a step of its own to make |
| SchedulerEvents.NoStopLeadsToDelivery | vity/iomanager.cc:277-287 | when `stopping()` is false the worker's next step, whichever it is, takes it to where it can deliver every armed event |
| SchedulerEvents.IdleAsks | vity/iomanager.cc:277-278 | and there is such a step |
| SchedulerEvents.IdleRound | vity/scheduler.cc:249-263 | a worker that finds nothing to take and has not seen a stop can get there by its own steps |
| SchedulerEvents.BackFromIdle | vity/scheduler.cc:261-267 | and back to the loop head, its idle fiber on HOLD |
| SchedulerEvents.EventIsServed | vity/iomanager.cc:277-351 | so an armed event has a run of one worker's own steps in which it is delivered and what it schedules is taken by that worker |
| SchedulerTheorems.QuiescenceLasts | vity/iomanager.cc:263-266 | a true `stopping()` with nobody in the requeue window holds after every run without new work from outside |
| SchedulerTheorems.StoppingIsStableIff | vity/scheduler.cc:278-282 | a true `stopping()` stays true on all such runs if and only if no worker is between lowering the active counter and requeueing a READY fiber |
| SchedulerTheorems.QuiescentIsDone | vity/scheduler.cc:278-282 | then every callback has finished, or is the body of an INIT or HOLD fiber that no wake-up refers to |
| SchedulerTermination.ShutdownIsBounded | vity/scheduler.cc:249-267 | from a quiescent state, in any run without new work from outside and any interleaving, each worker makes at most nine more steps and is out of `run` when it has made them |
| SchedulerTermination.AlwaysAStep | vity/scheduler.cc:249-267 | while `stopping()` holds every worker outside the window that has not left has a step it can make, so shutdown cannot get stuck |
| SchedulerTheorems.InvStep | vity/scheduler.cc:160-269 | every allowed step of every thread keeps the whole invariant |
| SchedulerInvariant.CoreStep | vity/scheduler.cc:160-269 | every allowed step keeps: wake-ups unique, one runner per fiber, callback fibers private to their worker |
| SchedulerInvariant.ResumeKeeps | vity/fiber.cc:200-210 | resuming a held fiber keeps that invariant, so no other thread was inside it |
| SchedulerInvariant.StartCbKeeps | vity/scheduler.cc:220-231 | so does starting a callback in the worker's reused or new callback fiber |
| SchedulerInvariant.FireFiberKeeps | vity/iomanager.cc:34-47 | a triggered event moves the fiber's one wake-up from the slot to the queue |
| SchedulerCounts.CountsStep | vity/scheduler.cc:187-263 | every step keeps the three counters exact |
| SchedulerJobs.JobsStep | vity/scheduler.cc:160-269 | every allowed step loses no callback, starts none twice, and keeps pins until the start |
| SchedulerJobs.HeldFiberHasBody | vity/fiber.cc:145-151 | a live fiber taken from the queue has a body, so `MainFunc` never calls an empty function |
| SchedulerShutdown.ReadyAwakeStep | vity/scheduler.cc:206-211 | every step keeps a wake-up on its way for each READY fiber |
| SchedulerShutdown.LastScanDrains | vity/scheduler.cc:168-193 | an empty-handed scan, after which nobody will scan again, leaves only entries pinned elsewhere |
| SchedulerShutdown.DrainedStep | vity/scheduler.cc:249-257 | every step keeps that fact |
| SchedulerShutdown.QuiescenceStep | vity/iomanager.cc:263-266 | every step without new work from outside keeps quiescence |
| SchedulerShutdown.WindowEndsStopping | vity/scheduler.cc:233-236 | in the window, the requeueing step makes `stopping()` false |
| SchedulerFairness.EntryStep | vity/scheduler.cc:168-193 | a step leaves a queue entry in place, moves it one place forward, or takes it |
| SchedulerFairness.BoundedBypass | vity/scheduler.cc:168-193 | an entry at position p that thread t may take has been taken by the time t has scanned p + 1 times, in every run and with no assumption on what the others do |
| SchedulerFairness.YieldedFiberIsTakenAgain | vity/scheduler.cc:210-211 | a fiber that yielded as READY is taken again by the time any one thread, whatever pin the fiber came with, has scanned more often than there were entries ahead |
| SchedulerLimits.DoubleWakeBreaksSwapIn | vity/fiber.cc:204-205 | a run in which a queued fiber is scheduled a second time and a worker then swaps in a fiber that is EXEC |
| SchedulerLimits.ReadyWithWakeBreaksSwapIn | vity/fiber.cc:220-224 | a run in which a fiber that has been scheduled yields as READY, is queued twice, and ends the same way |
| SchedulerLimits.EndWithWakeResumesEmpty | vity/scheduler.cc:239-241 | a run in which a callback fiber ends while scheduled, is blanked, and another worker swaps it in with nothing to run |
| SchedulerLimits.ScheduledBlankResumesEmpty | vity/scheduler.cc:239-241 | a run in which a worker's blank callback fiber is scheduled, with the same end |
| SchedulerLimits.PinnedWorkCanBeStranded | vity/scheduler.cc:174-178 | a run in which all workers leave while a callback that a fiber pinned to one of them is still queued |
| SchedulerState.FirstEligible | vity/scheduler.cc:168-193 | the first entry that is neither pinned elsewhere nor an executing fiber, or none |
| SchedulerQueue.ScanChooses | vity/scheduler.cc:168-193 | a scan takes the first entry that is neither pinned to another thread nor an executing fiber, callback or fiber alike, and nothing exactly when there is none |
| SchedulerQueue.QueueAppends | vity/scheduler.h:82-90 | any other step appends at most one entry, with the pin it was called with |
| SchedulerCode.Fiber.constructor | vity/fiber.cc:60-86 | a new fiber is INIT with its body |
| SchedulerCode.Fiber.Reset | vity/fiber.cc:109-127 | a fiber that is not live gets a new body and is INIT again |
| SchedulerCode.Fiber.SwapIn | vity/fiber.cc:200-210 | under its assertion, the fiber becomes EXEC and keeps its body |
| SchedulerCode.Fiber.EndMain | vity/fiber.cc:145-164 | a body that returns leaves TERM and no body, one that throws leaves EXCEPT and its body |
| SchedulerCode.Fiber.Yield | vity/fiber.cc:220-231 | a yield writes READY or HOLD and keeps the body |
| SchedulerCode.Scheduler.Schedule | vity/scheduler.h:40-90 | an entry is appended unless the argument is empty; a tickle is wanted iff the queue was empty |
| SchedulerCode.Scheduler.FindEligible | vity/scheduler.cc:168-193 | the loop finds the first eligible entry, and wants a tickle iff it passed over one pinned to another thread |
| SchedulerCode.Scheduler.Take | vity/scheduler.cc:187-191 | the entry leaves the queue for the worker's hand and the active counter rises |
| SchedulerCode.Scheduler.Scan | vity/scheduler.cc:161-194 | the locked scan is the Scan step |
| SchedulerCode.Scheduler.ResumeOrDrop | vity/scheduler.cc:201-204 | a live fiber is swapped in, a dead one is dropped and no longer counted |
| SchedulerCode.Scheduler.ObtainCbFiber | vity/scheduler.cc:221-228 | the worker's callback fiber reset to the callback, or a new one |
| SchedulerCode.Scheduler.StartCallback | vity/scheduler.cc:220-231 | starting a taken callback is the StartCb step |
| SchedulerCode.Scheduler.EndFiber | vity/fiber.cc:145-168 | the end of a body is the Finish step |
| SchedulerCode.Scheduler.YieldToReady | vity/fiber.cc:220-224 | is the YieldReady step |
| SchedulerCode.Scheduler.YieldToHold | vity/scheduler.cc:233-247 | a HOLD yield, the lowered counter, and a callback fiber given away, are the YieldHold step |
| SchedulerCode.Scheduler.LowerActive | vity/scheduler.cc:205-206 | is the LowerActive step |
| SchedulerCode.Scheduler.AfterReturn | vity/scheduler.cc:233-247 | a READY fiber is requeued without its pin, an ended callback fiber is blanked, any other ended fiber is let go |
| SchedulerCode.Scheduler.IsStopping | vity/iomanager.cc:263-266 | true iff no event is pending, both flags are set, the queue is empty and nobody is active |
| SchedulerCode.Scheduler.CheckStopping | vity/iomanager.cc:277-288 | the idle fiber ends if `stopping()` holds, and otherwise goes on to wait for events |
| IoTheorems.KernelMirrorsTable | vity/iomanager.cc:111-169 | after any operations and refusals, epoll watches exactly the descriptors with a non-empty mask, with that mask, so every ADD finds an absent and every MOD or DEL a present descriptor |
| IoDelivery.KernelWatches | vity/iomanager.cc:111-116 | in reached states epoll watches a descriptor iff one of its slots is taken, edge-triggered, with bit 1 for a READ slot and bit 4 for a WRITE slot |
| IoTheorems.PendingCountsBits | vity/iomanager.cc:124-243 | the pending counter is the number of set bits over the whole table, and zero iff no event is registered |
| IoTheorems.RegistrationsLinear | vity/iomanager.cc:124-241 | each successful `addEvent` is live in one slot until it ends, ends at most once, and is scheduled once if fired or cancelled and never if deleted |
| IoTheorems.EndedForGood | vity/iomanager.cc:124-241 | whatever follows a reached state, what has ended stays ended the way it ended and no label is used again, so a registration ends at most once |
| IoTargets.ScheduledAsRequested | vity/iomanager.cc:124-138 | after any operations since, a registration is in its own slot with the scheduler and callback or fiber it was given, or has been deleted, or has had exactly those scheduled |
| IoTheorems.SlotsAgree | vity/iomanager.cc:125-137 | a set bit means a slot with a scheduler and exactly one of callback and fiber, a clear bit an empty slot; the table has at least 32 records that know their index |
| IoTheorems.AddEventKeeps | vity/iomanager.cc:89-139 | `addEvent` finds an empty slot, returns 0 iff the kernel does not refuse, and then registers the event and counts it |
| IoTheorems.DropEventKeeps | vity/iomanager.cc:140-205 | `delEvent` and `cancelEvent` succeed iff the event is registered and the kernel does not refuse; else nothing changes |
| IoTheorems.CancelAllKeeps | vity/iomanager.cc:207-245 | `cancelAll` succeeds iff some event is registered and the kernel does not refuse; it empties the mask, counts down once per bit, and schedules the registered targets, READ before WRITE |
| IoTheorems.AddThenDrop | vity/iomanager.cc:140-205 | dropping an event just added gives back the table, the kernel's map and the counter; a cancel schedules exactly the target that was added |
| IoTheorems.DeliveryKeeps | vity/iomanager.cc:318-342 | a delivery clears exactly the delivered bits, schedules READ before WRITE, and changes nothing if no bit is registered or the kernel refuses |
| IoDelivery.RealEventsBits | vity/iomanager.cc:307-316 | READ stands for EPOLLIN, EPOLLERR or EPOLLHUP, WRITE for EPOLLOUT, EPOLLERR or EPOLLHUP, bit by bit, and nothing else is hit |
| IoDelivery.DeliveryByBits | vity/iomanager.cc:305-342 | by the bits of the delivered mask and the slots taken: when a delivery aborts, when it does nothing, and which slots it empties, calls it makes and mask it leaves to the kernel otherwise |
| IoDelivery.ReadableAlone | vity/iomanager.cc:311-337 | EPOLLIN on a descriptor registered for both schedules what waits for READ alone and leaves WRITE |
| IoTheorems.DeliveryAbortsIff | vity/iomanager.cc:318-342 | it trips `triggerEvent`'s assertion iff the kernel call succeeds, some delivered bit is registered and some is not |
| IoTheorems.HangUpAborts | vity/iomanager.cc:307-309 | a hang-up on a descriptor registered for READ alone does |
| IoTheorems.NothingToDeliver | vity/iomanager.cc:318-320 | with the pending counter at zero no delivery changes or schedules anything |
| IoTheorems.BatchAbortsIff | vity/iomanager.cc:296-343 | a batch that names each descriptor once aborts iff, in the registry before the batch, some delivery that the kernel accepts has both a registered and an unregistered bit |
| IoTheorems.BatchKeeps | vity/iomanager.cc:296-343 | a batch of any length keeps the invariant |
| IoDelivery.BatchEffect | vity/iomanager.cc:296-343 | a batch that names each descriptor once and does not abort, stated on the registry before it: each record's outcome, the calls in batch order and READ before WRITE, the count, and what the kernel watches |
| IoDelivery.BatchAborts | vity/iomanager.cc:296-343 | and when it aborts, in the same terms |
| IoTheorems.PerformKeeps | vity/iomanager.cc:89-343 | so does every operation, and none takes anything back from the history of endings and calls |
| IoTheorems.EndBothKeeps | vity/iomanager.cc:234-242 | triggering READ and then WRITE clears those bits, counts each down, and schedules in that order |
| IoInvariant.Grows | vity/iomanager.cc:93-101 | growing makes room for the descriptor, keeps every record, adds empty ones that know their index |
| IoInvariant.GrownSize | vity/iomanager.cc:97-99 | the grown table has the whole part of one and a half times the descriptor as its size |
| IoRegistry.ResizedAt | vity/iomanager.cc:354-363 | a resized table keeps each record within its size and has an empty one with its index in each new place |
| IoInvariant.PutKeeps | vity/iomanager.cc:124-138 | filling a slot keeps sums, slots and registrations in order |
| IoInvariant.EndKeeps | vity/iomanager.cc:34-47 | so does ending one |
| IoScheduling.AddIsArm | vity/iomanager.cc:124-138 | a successful `addEvent` is the scheduler's arming step, a failed one no step |
| IoScheduling.EndIsStep | vity/iomanager.cc:37-45 | ending a registration is the Disarm or Fire step, and the queue receives the stored callback or fiber, unpinned |
| IoScheduling.DropIsStep | vity/iomanager.cc:155-204 | `delEvent` disarms and `cancelEvent` fires |
| IoScheduling.CancelAllIsFires | vity/iomanager.cc:234-243 | `cancelAll` fires READ, then WRITE, as registered |
| IoScheduling.DeliveryIsFires | vity/iomanager.cc:335-342 | a delivery that does not abort fires the delivered bits, READ first, or nothing |
| IoJoint.SoundStep | vity/iomanager.cc:89-343 | every scheduler step and registry operation, done together, keeps the two in step and both invariants |
| IoJoint.StepGoes | vity/iomanager.cc:89-343 | whatever either side may do, short of a delivery that aborts, the other side can follow |
| IoJoint.JointRunsAreSound | vity/iomanager.cc:89-343 | over every interleaving the scheduler's event slots are the occupied slots of the table and the pending counters agree |
| IoJoint.StoppingMeansAllEnded | vity/iomanager.cc:263-266 | where `stopping()` holds in such a run, every registration ever made has ended and no delivery changes or schedules anything |
| IoJoint.NoStopLeadsToReceiving | vity/iomanager.cc:277-296 | when `stopping()` is false the worker's next step takes it to where it may receive any delivery |
| IoJoint.ReadableIsQueued | vity/iomanager.cc:311-337 | EPOLLIN for a descriptor registered for READ puts what waits for it last into the queue, unpinned |
| IoManager.FdContext.TriggerEvent | vity/iomanager.cc:34-47 | clears the bit, empties the slot, schedules the stored callback, or else the fiber, on the stored scheduler |
| IoManager.IOManager.constructor | vity/iomanager.cc:50-73 | starts with 32 empty contexts, nothing watched, nothing pending |
| IoManager.IOManager.ContextResize | vity/iomanager.cc:354-363 | contexts within the new size stay the same objects, new ones are distinct, empty and know their index |
| IoManager.IOManager.Reach | vity/iomanager.cc:91-101 | the context is in range afterwards, whatever the descriptor |
| IoManager.IOManager.AddLocked | vity/iomanager.cc:111-138 | the locked part of `addEvent` is the registry operation |
| IoManager.IOManager.AddEvent | vity/iomanager.cc:89-139 | `addEvent` is the registry operation and keeps the invariant and the contexts' identity |
| IoManager.IOManager.DelEvent | vity/iomanager.cc:140-173 | likewise `delEvent` |
| IoManager.IOManager.CancelEvent | vity/iomanager.cc:174-205 | likewise `cancelEvent` |
| IoManager.IOManager.CancelAll | vity/iomanager.cc:207-245 | likewise `cancelAll` |
| IoManager.IOManager.Handle | vity/iomanager.cc:305-342 | one round of the delivery loop aborts, does nothing, or empties the named slots and makes their calls |
| IoManager.IOManager.HandleBatch | vity/iomanager.cc:296-343 | the loop is the fold of one delivery over the batch, and has the batch's effect |
| PatternTiling.TilingIff | vity/log.cc:247-322 | the tokens print to the pattern iff the pattern does not end in a directive with an open brace, that is, iff adding a closing brace does not make it the print of a well-formed list that ends in a braced directive |
| PatternTiling.LostPercents | vity/log.cc:313-317 | a pattern that does end so prints without the percent sign of that directive, and without that of each directive after the brace that opens another |
| PatternTiling.BracesFollowed | vity/log.cc:269-304 | a pattern in which a closing brace comes after each opening one prints to itself |
| PatternTiling.OpenBraceFails | vity/log.cc:313-317 | `%d{` does not: it prints to `d{` |
| PatternTheorems.ScanTiles | vity/log.cc:247-322 | for every pattern the printed text is shorter than the pattern by one character for each broken directive, and equal to it if there is none |
| PatternTheorems.LexTiles | vity/log.cc:260-304 | a directive and what follows it print to the text it was read from |
| PatternTheorems.RoundTrip | vity/log.cc:247-322 | scanning the print of a well-formed token list gives back the list |
| PatternTheorems.ScanWellFormed | vity/log.cc:247-322 | the scanner's output is well-formed when no brace is unclosed |
| PatternTheorems.RoundTripIff | vity/log.cc:247-322 | exactly the well-formed lists survive printing and scanning |
| PatternTheorems.ScanText | vity/log.cc:248-258 | text in which every percent sign is followed by another is collected as it is |
| PatternScanner.ErrorMeansUnknownName | vity/log.cc:345-357 | for the print of a well-formed list the error flag tells whether some name is not in the item table |
| PatternScanner.DoubledPercent | vity/log.cc:254-257 | `%%` yields the character and a nameless directive, which is an error |
| PatternScanner.LogFormatter.constructor | vity/log.cc:242-359 | one item for each token, as `PatternItems.ItemIs` describes it, which for the print of a well-formed list are the list's own tokens; the error flag is up iff the pattern ends in an open brace or has an unknown name |
| PatternItems.ItemsDescribe | vity/log.cc:345-357 | a literal becomes its text, a directive with a known name an item with its own format, any other directive and a broken one their error texts |
| PatternItems.PrintedItems | vity/log.cc:242-359 | for the print of a well-formed list these are the items of the list |
| PatternItems.FaultIff | vity/log.cc:313-352 | the error flag is up exactly for a pattern that ends in an open brace or has a directive with an unknown name |
| PatternItems.KnownNames | vity/log.cc:325-342 | the twelve one-letter names |
| PatternItems.NameCharacters | vity/log.cc:271-271 | the letters of both cases, and the closing brace, by their codes |
| PatternScanner.DateAndTabItems | vity/log.cc:278-311 | a date keeps its format: `%d{%H:%M}%T` |
| PatternScanner.LogFormatter.ReadDirective | vity/log.cc:260-304 | the inner loop ends and reads exactly the directive at its percent sign |
| PatternScanner.LogFormatter.Collect | vity/log.cc:247-322 | the nested loops collect the recursive scanner's tokens |
| PatternScanner.LogFormatter.MakeItems | vity/log.cc:345-357 | known names get their item, unknown ones an error text and the flag |
| PatternScanner.LogFormatter.Init | vity/log.cc:242-359 | appends the items of the pattern and raises the flag iff some token is faulty |
| ConfigTree.ListAllMember | vity/config.cc:14-30 | lists in preorder exactly the nodes whose whole path is a valid name |
| ConfigPaths.ListedPositions | vity/config.cc:14-30 | what is listed, by positions in the document: exactly those whose keys, joined by dots, make a valid name, each with its node under that name, in preorder |
| ConfigPaths.ValidAllTheWay | vity/config.cc:17-21 | the name of a position is valid iff those of all nodes above it are |
| ConfigPaths.NameCharacters | vity/config.cc:17-17 | the characters of a valid name, by their codes |
| ConfigTree.InvalidBelow | vity/config.cc:17-21 | below an invalid path there is no valid one, so cutting the subtree off loses nothing |
| ConfigTree.LowerIsIdentity | vity/config.cc:42-42 | lower-casing a listed name changes nothing |
| ConfigTree.ListedUnderTheirPath | vity/config.cc:38-43 | so a listed node is looked up under exactly its path |
| ConfigVars.LoadKeepsLast | vity/config.cc:36-54 | a load leaves the last parsable value offered, or the variable as it was, and every listener informed |
| ConfigVars.LoadByPosition | vity/config.cc:31-55 | a variable takes the parsed text of the last node of its name that parses, and without one is as it was |
| ConfigVars.LoadsKeepInformed | vity/config.h:369-383 | over any sequence of loads each listener's (old, new) pairs chain without a gap from the value it was added at to the present one |
| ConfigVars.SetKeepsInformed | vity/config.h:369-383 | setting a different value tells each listener once, with the value before and the one after |
| ConfigVars.ListenKeepsInformed | vity/config.h:386-393 | adding a listener keeps the others' chains and starts a new one |
| ConfigVars.UnlistenKeepsInformed | vity/config.h:395-399 | removing one keeps the others' |
| ConfigVars.AddedHears | vity/config.h:386-393 | a new listener hears the next change, once |
| ConfigVars.RemovedHearsNothing | vity/config.h:395-399 | a removed one hears nothing more, and the others what they would have heard |
| ConfigVars.ConfigVar.Notify | vity/config.h:377-379 | the loop calls every listener once with the old and the new value, and the keys of the calls ascend |
| ConfigVars.ConfigVar.SetValue | vity/config.h:369-383 | an equal value is not announced; any other is announced to all and then stored |
| ConfigVars.ConfigVar.FromString | vity/config.h:348-359 | a text that does not parse changes nothing; the result is false either way |
| ConfigVars.ConfigVar.AddListener | vity/config.h:386-393 | the new listener has a key of its own and comes last |
| ConfigVars.ConfigVar.DelListener | vity/config.h:395-399 | exactly the listener with the key is gone |
| ConfigVars.Config.Lookup | vity/config.h:427-457 | a registered name gives its variable, an invalid name an error, any other a new variable with the default |
| ConfigVars.Config.OfferMember | vity/config.cc:36-54 | a node is offered to the variable of its name alone |
| ConfigVars.Config.LoadFromYaml | vity/config.cc:31-55 | every registered variable takes, in order, what the listed nodes offer it, and ends with the text of the last node of its name that parses |

## Left out

- `ucontext`, stacks, `pthread`s, locks, pipes and `epoll_wait`: a context switch, a lock region
  and a delivery are single steps.
- Wake-up promptness: `IOManager::tickle` does nothing while some thread is idle
  (`vity/iomanager.cc:254-256`), so only the three-second timeout bounds latency; bounds are
  given in scans, not in time.
- `Scheduler::start`'s guard, `stop`'s early return and joins: workers enter `run` on their own, and the
  flags are set by steps of their own at any time.
- The range overload of `schedule` (`vity/scheduler.h:55-67`): unused, and does not end.
- `Fiber::call` and `back` mixed with yields: the root fiber only enters and leaves `run`.
- The thread-local current-fiber pointer, and `swapOut` setting it to itself (`vity/fiber.cc:213`).
- Reference counts: a fiber is an identifier that is never reused; the destructor's assertion is
  stated for `run`'s two locals only.
- `Scheduler::idle` (`vity/scheduler.cc:283-290`): `IOManager` overrides it. An idle fiber that
  throws is not modelled.
- Several schedulers: a trigger's scheduler is recorded, but the transition system has one.
- Descriptors below zero, and the tickle pipe's own entry in epoll with its shared data union.
- Widths of counters, sizes and ids: numbers are unbounded, which the proofs that counters equal
  cardinalities justify for counters.
- SchedulerCode.Scheduler.Scan: the fields are updated in place, but a worker's locals are a record
  in a map and an entry is a value, so which storage `FiberAndThread` copies or swaps is not told.
- IoManager.IOManager.AddEvent: an event that is already registered is excluded, because the code
  asserts against it; the two halves of the lookup are one step, though the code releases the
  read lock between them.
- SchedulerTheorems.SingleRunner: rests on the yield being one step; in the code the state is
  written before the context is saved (`vity/fiber.cc:229-230`).
- Configuration values of different types under one name, listeners that throw or call back into
  the variable, `clearListener`, and the parser: one value type and one partial parse function.
- ConfigVars.ConfigVar.AddListener: keys are counted per variable, not per value type.
- PatternScanner.LogFormatter.ReadDirective: letters are those of the C locale.
- The `LogIniter` reconciliation, `LogDefine` casts, appenders, time formats, and the rest of the
  logging library.
