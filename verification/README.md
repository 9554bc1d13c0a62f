# Block layer and crypto layer of a Linux 2.6 kernel: a verified model

This project models the parts of the kernel tree under `kernel/linux` whose correctness is hard to
see from the code: the ordered-write protocol and the I/O schedulers of the block layer, and the
fast forms of the crypto layer that must equal a simple definition. The models are Dafny modules,
one or more per source file; `dafny verify dfyconfig.toml` checks them all.

**Block layer**

- *Ordered writes.* `OrderedPhases` is the phase mask of one ordered sequence. `Barrier` is the whole
  protocol as a state machine: submissions with their one-bit colour, sorted and tail dispatch,
  fetching and dequeuing by the driver, the proxies that stand in for a barrier, completion, requeue.
  `BarrierInvariant` proves one inductive invariant for every step. `BarrierOrdering` concludes what
  holds over whole runs, `BarrierEarlyEnd` what follows once a drain has ended too early, and
  `BarrierHidden` gives the runs on which it does. `BarrierReady` and `BarrierProgress` show that a
  barrier is never stuck, `BarrierErrors` what it is ended with, `BarrierProxy` what its proxy transfers,
  `BarrierElevator` the order that sorted dispatch gives the queue. `BarrierQueue` is the same protocol
  as a class whose fields the operations change in place; valid means that the invariant holds and that
  what a running sequence waits for is on its way.
- *Schedulers.* `RequestTree` holds what they share (`Collections` what all models do). `Anticipatory` is the next-request cache of AS,
  `Deadline` the deadline scheduler and `DeadlineRation` its counters, `CfqRotation` and `CfqQueues` the
  level rotation and the queues of CFQ.
- *Requests.* `Merge` is bio and request merging with the merge hash, `PartialCompletion` the ending of
  a request in parts, `Segments` the counting and mapping of segments.

**Crypto layer**

- `CamelliaWords`, `Camellia` and `CamelliaSchedule`: the 128-bit Camellia with absorbed whitening keys
  against sections 2.2 to 2.4 of RFC 3713. Words are sequences of bits (`Bits`).
- `Gf128`, `Gf128Tables` and `Lrw`: table multiplication in GF(2^128) and the LRW mode built on it.
- `ScatterWalk`, `CipherWalk`, `CbcSpec` and `Cbc`: the scatter-list walk and the CBC mode on top of it.
- `Xcbc`: the XCBC authentication code. `ScatterText` is the message a scatter list holds. `HashSpec`, `Hashes`, `Digest`, `Hmac`: MD5, SHA-1, SHA-256,
  their front end and HMAC.

## What is true, and what is not

- *Barrier order holds, except after an unchecked head insertion.* `elv_completed_request` looks only at
  the first queued request to decide whether the drain is over. A special request inserted at the head
  while a barrier drains can carry the colour of a later request and stand before an earlier, requeued
  one. `BarrierInvariant.DrainedIff` gives the test that would be exact: the first queued request that is
  not special. A completion that passes the source's test and fails this one ends the drain too early,
  and only such a completion breaks the invariant (`BarrierInvariant.FinishKeepsInvIff`). If the request
  left behind has not been handed out, every continuation that hands out the barrier warns or breaks the
  order (`BarrierEarlyEnd.EarlyEndBreaksOrder`); if it has, the order may still hold
  (`BarrierHidden.EarlyEndOverHandedOutMayHold`). A submitter can avoid all this by a check before the
  call (`BarrierOrdering.CarefulRunsAreOrdered`).
- *No barrier is ever stuck*, as long as no drain ended too early: from every reachable state some run ends
  all barriers submitted so far (`BarrierProgress.EveryBarrierCanEnd`), since the head of the queue is
  handed out exactly if it may be started (`BarrierProgress.HandedOutIff`).
- *The AS cache is optimal after a dispatch* if and only if the requests right behind the dispatched one
  meet a condition (`Anticipatory.NeighboursSufficeIff`); it holds whenever no queued request starts
  inside another, so over such runs the cache is always optimal (`Anticipatory.Queue.ApartRunsAreOptimal`).
- *Deadline's bound on reads that pass a waiting write* survives the wrap-around of the 32-bit batch
  counter for all but two families of settings, and fails for those (`DeadlineRation.BoundHoldsIff`). The
  defaults, 16 and 2, are fine. A pick there is any combination of queued directions, next request,
  sequentiality and restart that the queues can present to one dispatch.
- *The LRW index stays in bounds* if and only if the counter is not all ones (`Lrw.IndexInBounds`).
- *The SHA-256 bit count is exact* for an update if and only if the update is shorter than 2^29 bytes or
  the low word happens to carry (`Hashes.AddBitsIff`, `Hashes.Sha256Ctx.Update`). The front end never
  passes more than a page.
- *A request with an empty bio at its end is not reported as finished* although every byte is
  (`PartialCompletion.EmptyBioLingers`); `PartialCompletion.Request.EndFirst` gives the exact condition.

## Model

| member | source | states |
|---|---|---|
| `OrderedPhases.CurSeqIsLowestIncomplete` | kernel/linux/block/ll_rw_blk.c:323-328 | The current phase is always an incomplete phase, and the lowest one |
| `OrderedPhases.PhasesCompleteInAnyOrder` | kernel/linux/block/ll_rw_blk.c:350-392 | In whatever order the outstanding phases complete, no phase completes twice, the barrier is ended once, exactly with the last of them, and with the first error seen |
| `BarrierInvariant.InitInv` | kernel/linux/block/ll_rw_blk.c:323-328 | An idle queue satisfies the invariant |
| `BarrierInvariant.DispatchKeepsInv` | kernel/linux/block/elevator.c:399-453 | Sorted and tail dispatch never move a request across a barrier and keep the invariant |
| `BarrierInvariant.DrainKeepsInv` | kernel/linux/block/elevator.c:534-546 | Draining the scheduler, in any order it likes, keeps the invariant |
| `BarrierInvariant.RequeueKeepsInv` | kernel/linux/block/elevator.c:517-532 | A requeued request or proxy goes back in phase order and keeps the invariant |
| `BarrierInvariant.SubmitSortedKeepsInv` | kernel/linux/block/elevator.c:583-599 | Sorted submission with colour stamping keeps the invariant |
| `BarrierInvariant.SubmitBackKeepsInv` | kernel/linux/block/elevator.c:548-680 | Tail submission, with the drain it forces and the colour flip of a barrier, keeps the invariant |
| `BarrierInvariant.SubmitFrontKeepsInv` | kernel/linux/block/elevator.c:548-680 | Head submission keeps the invariant |
| `BarrierInvariant.StartKeepsInv` | kernel/linux/block/ll_rw_blk.c:394-467 | Replacing the barrier at the head by its stacked proxies keeps the invariant |
| `BarrierInvariant.FetchKeepsInv` | kernel/linux/block/elevator.c:696-774 | Fetching a request, through the gate of blk_do_ordered, keeps the invariant |
| `BarrierInvariant.DequeueKeepsInv` | kernel/linux/block/elevator.c:778-792 | Dequeuing keeps the invariant, with in_flight counting the started fs requests |
| `BarrierInvariant.DrainedIff` | kernel/linux/block/elevator.c:858-884 | While a barrier drains and the driver is idle: no earlier fs request is left anywhere if and only if the first queued request that is not special belongs to a later phase |
| `BarrierInvariant.FinishKeepsInv` | kernel/linux/block/elevator.c:858-884 | Completing a request or a proxy keeps the invariant, unless the completion ends the drain over an earlier request behind a special one at the head |
| `BarrierInvariant.FinishKeepsInvIff` | kernel/linux/block/elevator.c:858-884 | For the completion of a submitted request the condition is exact: the invariant is kept if and only if the drain does not end too early |
| `BarrierInvariant.NextBarrierFirst` | kernel/linux/block/ll_rw_blk.c:330-348 | A request two barriers ahead, whose colour repeats, always stands behind a request of the next colour |
| `BarrierInvariant.StepKeepsInv` | kernel/linux/block/ll_rw_blk.c:418-516 | Every step of the protocol keeps the invariant, except the one completion that ends a drain too early |
| `BarrierOrdering.BarrierOrder` | kernel/linux/block/ll_rw_blk.c:418-516 | Over every run in which no completion ends a drain too early: the barrier reaches the driver only after all earlier fs requests have completed, no later one is handed out before the sequence ends, and no BUG_ON or WARN_ON is hit |
| `BarrierEarlyEnd.StepLeavesBehind` | kernel/linux/block/ll_rw_blk.c:469-516 | After a drain ended too early, whatever happens next, the request left behind stays queued and not handed out, or a WARN_ON is hit, until the barrier proxy is handed out |
| `BarrierEarlyEnd.EarlyEndBreaksOrder` | kernel/linux/block/ll_rw_blk.c:469-516 | The converse over runs: once a drain has ended too early over a request not yet handed out, every continuation that hands out the barrier proxy has warned or broken the order |
| `BarrierOrdering.CarefulRunsHideNothing` | kernel/linux/block/elevator.c:548-680 | If head insertions are checked against the colour of the barrier in progress, no completion ever ends a drain too early |
| `BarrierOrdering.CarefulRunsAreOrdered` | kernel/linux/block/ll_rw_blk.c:418-516 | Hence every run with that check is ordered |
| `BarrierReady.StepReady` | kernel/linux/block/ll_rw_blk.c:418-516 | Every step keeps proxies in phase order and, while the queue drains, a request of the drain phase with the driver or before every proxy |
| `BarrierProgress.HandedOutIff` | kernel/linux/block/ll_rw_blk.c:469-516 | The head of the queue is handed out if and only if it may be started: a special request, an fs request of the oldest open epoch, or the proxy whose phase it is |
| `BarrierProgress.BarrierStarts` | kernel/linux/block/ll_rw_blk.c:418-467 | A barrier at the head starts its sequence, and its first proxy goes out at once exactly if nothing is in flight |
| `BarrierProgress.HeadMayStart` | kernel/linux/block/ll_rw_blk.c:469-516 | While a sequence runs and the driver is idle, the head of the queue may be started |
| `BarrierProgress.EveryBarrierCanEnd` | kernel/linux/block/ll_rw_blk.c:350-374 | No barrier is ever stuck: every run in which no drain ended too early goes on to one after which all barriers submitted so far are ended |
| `BarrierErrors.ErrorIsFirst` | kernel/linux/block/ll_rw_blk.c:350-368 | Over every run, the queue's error is the first one that a proxy of the latest sequence was completed with |
| `BarrierErrors.BarrierEndsWithFirstError` | kernel/linux/block/ll_rw_blk.c:362-374 | A barrier is ended with that error, or with success if there was none; no other outcome is recorded or changed |
| `BarrierProxy.ProxyMirrorsBarrier` | kernel/linux/block/ll_rw_blk.c:394-467 | Over every run, the barrier proxy has the sectors and the direction of the barrier it stands for, and the sweep starts where the boundary request ends |
| `BarrierElevator.SortedPlace` | kernel/linux/block/elevator.c:399-432 | A sorted request goes before what comes later in the sweep from the boundary, and behind what may not be passed or comes no later |
| `BarrierElevator.DispatchKeepsSweep` | kernel/linux/block/elevator.c:399-432 | Sorted dispatch keeps requests that may pass one another in the order of one sweep |
| `BarrierElevator.DrainKeepsSweep` | kernel/linux/block/elevator.c:534-546 | So does a whole drain of the scheduler, in whatever order it gives its requests up |
| `BarrierHidden.UncheckedHeadInsertionBreaksOrder` | kernel/linux/block/elevator.c:858-884 | Without the check there is a run in which the barrier is handed out while an earlier fs request is unfinished |
| `BarrierHidden.EarlyEndOverHandedOutMayHold` | kernel/linux/block/elevator.c:858-884 | If the request left behind had already been handed out, there is a continuation that hands out the barrier in order and without a warning, so the restriction in the converse is needed |
| `BarrierQueue.RequestQueue.ValidIsOrdered` | kernel/linux/block/ll_rw_blk.c:418-516 | In a valid queue nothing submitted after the barrier in progress has reached the driver, the barrier is only handed out when everything before it is complete, and no BUG_ON or WARN_ON has been hit |
| `BarrierQueue.RequestQueue.ValidCanEnd` | kernel/linux/block/ll_rw_blk.c:350-374 | From a valid queue some run ends every barrier submitted so far |
| `BarrierQueue.RequestQueue.EndRequest` | kernel/linux/block/ll_rw_blk.c:350-392 | Ending a request or proxy, with the drain test and the completion of phases, takes the step of the protocol; a valid queue stays valid if and only if the drain does not end too early |
| `BarrierQueue.RequestQueue.DispatchSort` | kernel/linux/block/elevator.c:399-432 | Sorted dispatch, by walking the queue from its tail, takes the step of the protocol; a valid queue stays valid |
| `BarrierQueue.RequestQueue.DispatchAddTail` | kernel/linux/block/elevator.c:441-453 | Tail dispatch of a request the scheduler holds keeps the queue valid: it crosses no barrier |
| `BarrierQueue.RequestQueue.Drain` | kernel/linux/block/elevator.c:534-546 | Draining keeps a valid queue valid and leaves nothing with the scheduler, whatever order it chooses |
| `BarrierQueue.RequestQueue.RequeueRequest` | kernel/linux/block/elevator.c:517-532 | A requeue, found by walking past the lower phases while a sequence runs, keeps a valid queue valid |
| `BarrierQueue.RequestQueue.AddSorted` | kernel/linux/block/elevator.c:583-599 | Sorted submission takes the step of the protocol and keeps a valid queue valid |
| `BarrierQueue.RequestQueue.AddBack` | kernel/linux/block/elevator.c:548-680 | Likewise for tail submission with its forced drain and the colour flip of a barrier |
| `BarrierQueue.RequestQueue.AddFront` | kernel/linux/block/elevator.c:548-680 | Likewise for head submission |
| `BarrierQueue.RequestQueue.BeginOrdered` | kernel/linux/block/ll_rw_blk.c:418-467 | Stacking the proxies in reverse starts the sequence of the protocol and keeps a valid queue valid |
| `BarrierQueue.RequestQueue.Gate` | kernel/linux/block/ll_rw_blk.c:469-516 | From a valid queue the gate lets through exactly what may be started: the head, or the first proxy of a barrier that starts with nothing in flight |
| `BarrierQueue.RequestQueue.NextRequest` | kernel/linux/block/elevator.c:696-774 | From a valid queue the head is handed out if and only if it may be started; the barrier proxy only when every earlier fs request has completed; nothing later is, no WARN_ON is hit, and the queue stays valid |
| `BarrierQueue.RequestQueue.DequeueRequest` | kernel/linux/block/elevator.c:778-792 | Dequeuing a started request keeps a valid queue valid; the request is then with the driver and no longer queued |
| `Anticipatory.ChooseTakesBetter` | kernel/linux/block/as-iosched.c:281-348 | as_choose_req takes the better of two requests, where better is defined by sectors alone: the nearest ahead, the nearest behind, ahead before behind unless more than twice as far, what is over 2^20 sectors behind last and lowest first |
| `Anticipatory.ChooseIsStrictTotalOrder` | kernel/linux/block/as-iosched.c:281-348 | That preference is a strict total order on requests at distinct sectors |
| `Anticipatory.FindNextAtHead` | kernel/linux/block/as-iosched.c:356-378 | Looking only at the tree neighbours finds the best of the whole tree when the head stands at a request and no other lies under it |
| `Anticipatory.FindNextAfterBest` | kernel/linux/block/as-iosched.c:356-378 | When the best request leaves, the best of the rest is one of its neighbours or the first |
| `Anticipatory.NeighboursSufficeIff` | kernel/linux/block/as-iosched.c:356-378 | The neighbours of a dispatched request include the best of the rest if and only if a condition on the requests right behind it holds |
| `Anticipatory.OverlapBreaksTheCache` | kernel/linux/block/as-iosched.c:930-974 | There is a tree where the condition fails: a request starts inside the dispatched one and another at its end |
| `Anticipatory.SeparateSuffices` | kernel/linux/block/as-iosched.c:930-974 | The condition holds whenever no queued request starts inside another |
| `Anticipatory.BestWithNew` | kernel/linux/block/as-iosched.c:748-765 | Adding a request: the better of it and the cached one is the best of all |
| `Anticipatory.Queue.RemoveQueued` | kernel/linux/block/as-iosched.c:856-879 | Tree and FIFO stay equal, the cache stays in the tree, and optimal if it was |
| `Anticipatory.Queue.MoveToDispatch` | kernel/linux/block/as-iosched.c:930-974 | Exactly the request goes to dispatch; the cache is optimal afterwards if and only if the neighbours suffice |
| `Anticipatory.Queue.ApartRunsAreOptimal` | kernel/linux/block/as-iosched.c:356-378 | Over every run in which no queued request starts inside another, the cached request is preferred to every other queued one |
| `Anticipatory.Queue.Add` | kernel/linux/block/as-iosched.c:250-258 | The request is queued, at most one request at its sector is dispatched instead, and the cache stays optimal if the neighbours of that one suffice |
| `Anticipatory.ForcedDispatch` | kernel/linux/block/as-iosched.c:981-1014 | A forced dispatch empties both directions; exactly the queued requests are dispatched, each once |
| `Deadline.HeadCheckIsExact` | kernel/linux/block/deadline-iosched.c:222-233 | The head of a FIFO in deadline order has expired if and only if some request on it has |
| `Deadline.InOrderMoved` | kernel/linux/block/deadline-iosched.c:162-180 | The FIFO stays in deadline order when a request inherits the earlier deadline of the one merged into it |
| `DeadlineRation.PickKeepsRation` | kernel/linux/block/deadline-iosched.c:239-336 | Every dispatch keeps the ration of reads, across wrap-around of the 32-bit batch counter |
| `DeadlineRation.ReadsPreferred` | kernel/linux/block/deadline-iosched.c:268-298 | Over every run, a new batch is one of reads if and only if a read is queued and, should a write wait too, fewer than writes_starved batches of reads have passed it over |
| `DeadlineRation.BoundHoldsIff` | kernel/linux/block/deadline-iosched.c:239-336 | Over every run of dispatches at most (writes_starved + 1) * fifo_batch reads are picked while a write waits, if and only if the settings are not a batch of one with 2^31 - 1 or more starvations, nor a batch of (2^32 - 1) / 3 with any |
| `DeadlineRation.SmallBatchOverruns` | kernel/linux/block/deadline-iosched.c:239-336 | With a batch of one and 2^31 - 1 or more starvations, one read too many gets through when the counter wraps |
| `DeadlineRation.LargeBatchOverruns` | kernel/linux/block/deadline-iosched.c:239-336 | So it does with a batch of (2^32 - 1) / 3 and at least one starvation |
| `Deadline.DeadlineData.WriteStarvationBound` | kernel/linux/block/deadline-iosched.c:239-336 | In every reachable state, under the settings of `DeadlineRation.BoundHoldsIff`, the reads picked since a write was picked, or none was queued, are within the bound |
| `Deadline.DeadlineData.AddRqRb` | kernel/linux/block/deadline-iosched.c:59-70 | The request gets its place in the tree; the one request that may share its sector is dispatched first |
| `Deadline.DeadlineData.RemoveRequest` | kernel/linux/block/deadline-iosched.c:73-115 | Tree and FIFO lose the request together; if it was the next request, the lowest request above it takes its place, or none if there is none |
| `Deadline.DeadlineData.MoveRequest` | kernel/linux/block/deadline-iosched.c:186-216 | The request is dispatched, the head stands at its end, and the lowest request above it in its direction is the next one; the other direction has none |
| `Deadline.DeadlineData.AddRequest` | kernel/linux/block/deadline-iosched.c:92-104 | All views agree after an addition, the FIFO stays in deadline order, exactly an alias is dispatched; deadline and length are recorded |
| `Deadline.DeadlineData.FrontMerged` | kernel/linux/block/deadline-iosched.c:147-159 | Likewise after a front merge moves a request to a lower sector |
| `Deadline.DeadlineData.MergedRequests` | kernel/linux/block/deadline-iosched.c:162-180 | Likewise after one request is merged into another, with the earlier of the two deadlines |
| `Deadline.DeadlineData.CheckFifo` | kernel/linux/block/deadline-iosched.c:222-233 | Answers whether any request of the direction has expired |
| `Deadline.DeadlineData.ChooseDirection` | kernel/linux/block/deadline-iosched.c:268-298 | Reads go first unless writes have been passed over writes_starved times |
| `Deadline.DeadlineData.FindRequest` | kernel/linux/block/deadline-iosched.c:300-326 | An expired request with the earliest deadline, else the next in sector order, else the lowest; no empty tree is ever searched |
| `Deadline.DeadlineData.Dispatch` | kernel/linux/block/deadline-iosched.c:239-336 | One request is dispatched if and only if one is queued; it continues the batch, or starts one: reads before writes that were not passed over too often, an expired request with the earliest deadline, else the next in sector order, else the lowest; the counters take the step of the ration model, and the lowest request above the dispatched one is next |
| `Deadline.DeadlineData.Drain` | kernel/linux/block/elevator.c:534-546 | Repeated dispatch terminates with everything dispatched once |
| `CfqRotation.WaitShrinks` | kernel/linux/block/cfq-iosched.c:745-790 | A service of another level brings a waiting level's turn strictly nearer |
| `CfqRotation.ServedWithin36` | kernel/linux/block/cfq-iosched.c:745-790 | However the lists change, a level that stays non-empty is served within 36 successful calls |
| `CfqQueues.CfqData.Search` | kernel/linux/block/cfq-iosched.c:745-772 | The nested search terminates and finds the first level with work, in the order of the triangular schedule |
| `CfqQueues.CfqData.GetNextPrioLevel` | kernel/linux/block/cfq-iosched.c:745-790 | -1 if and only if all levels are empty; otherwise the level next in turn is spliced onto the current list, every queue stays on exactly one list, and the cursors stand one turn further |
| `CfqQueues.CfqData.NextActive` | kernel/linux/block/cfq-iosched.c:792-825 | The queue chosen for service has requests, comes from the current list, else from the level next in turn, else from the busy list, else after the grace period from the idle list; none is chosen exactly if those are empty |
| `CfqQueues.CfqData.GetQueue` | kernel/linux/block/cfq-iosched.c:1338-1395 | A queue for a new task and priority is made empty and off the service lists; an existing one is left alone, and without memory nothing changes |
| `CfqQueues.ChooseTakesPreferred` | kernel/linux/block/cfq-iosched.c:285-372 | cfq_choose_req takes the preferred of two requests, where preference is synchronous, then metadata, then by sectors with the back-seek limit and penalty |
| `CfqQueues.FindNextIsNeighbour` | kernel/linux/block/cfq-iosched.c:378-399 | The successor is the preferred one of the two neighbours in sector order, round the end |
| `CfqQueues.FindNextOther` | kernel/linux/block/cfq-iosched.c:378-399 | The successor is another request of the tree, or none exactly if the tree holds no other |
| `CfqQueues.CountBoth` | kernel/linux/block/cfq-iosched.c:503-541 | The two queued counters add up to the size of the tree |
| `CfqQueues.CfqData.AddRr` | kernel/linux/block/cfq-iosched.c:480-487 | The queue is then on list l at the given place and on no other, other lists are unchanged, and busy_queues counts it |
| `CfqQueues.CfqData.DelRr` | kernel/linux/block/cfq-iosched.c:490-498 | The queue is then on no list and busy_queues is right; it was not zero |
| `CfqQueues.CfqData.Resort` | kernel/linux/block/cfq-iosched.c:401-473 | A queue for service moves to list l; nothing else moves or changes |
| `CfqQueues.CfqData.RemoveRequest` | kernel/linux/block/cfq-iosched.c:592-606 | Tree, FIFO, counters, next request and service mark stay in agreement |
| `CfqQueues.CfqData.DispatchInsert` | kernel/linux/block/cfq-iosched.c:868-879 | Likewise, and the request is dispatched |
| `CfqQueues.CfqData.AddRqRb` | kernel/linux/block/cfq-iosched.c:518-541 | The request gets into the tree, a request at the same sector is dispatched, the queue is marked for service |
| `CfqQueues.CfqData.InsertRequest` | kernel/linux/block/cfq-iosched.c:1693-1705 | All of CFQ is at rest again, with exactly the request added to its queue and an alias dispatched |
| `CfqQueues.CfqData.Reposition` | kernel/linux/block/cfq-iosched.c:544-549 | Likewise after a front merge |
| `CfqQueues.CfqData.MergedRequests` | kernel/linux/block/cfq-iosched.c:634-645 | Likewise after one request is merged into another |
| `CfqQueues.CfqData.ForcedCfqqs` | kernel/linux/block/cfq-iosched.c:1006-1021 | Every queue of the list is drained and leaves the list |
| `CfqQueues.CfqData.ForcedDispatch` | kernel/linux/block/cfq-iosched.c:1024-1040 | A forced dispatch terminates, empties every tree and FIFO, loses no request and ends with busy_queues at zero |
| `Merge.JoinedRequests` | kernel/linux/block/ll_rw_blk.c:2798-2849 | Two contiguous requests of one device and direction make one whose bios are contiguous from its start, add up to its size and are all for that device and direction |
| `Merge.MergeQueue.RqhashAdd` | kernel/linux/block/elevator.c:299-305 | The request is then on the chain of its end sector |
| `Merge.MergeQueue.RqhashReposition` | kernel/linux/block/elevator.c:307-311 | A request whose end has moved gets to its new chain |
| `Merge.MergeQueue.RqhashFind` | kernel/linux/block/elevator.c:313-333 | The lookup finds a request if and only if a scan of all held requests that can merge would |
| `Merge.MergeQueue.ElvMerge` | kernel/linux/block/elevator.c:457-487 | A merge found keeps the sectors in sequence, within one device and direction and with a request that may merge; none is found only if no held request ends where the bio starts or one that does may not take it, and neither the last merged request nor the scheduler's offer may |
| `Merge.MergeQueue.AttemptMerge` | kernel/linux/block/ll_rw_blk.c:2798-2849 | Merges exactly when the requests fit; the second is gone, its bios belong to the first, nr_sorted and the hash are right |
| `Merge.MergeQueue.MergedRequest` | kernel/linux/block/elevator.c:489-500 | After a merge of a bio the hash is right again |
| `Merge.MergeQueue.BackMerge` | kernel/linux/block/ll_rw_blk.c:2935-2950 | The bio joins the request, which may then join its successor; every bio keeps exactly one owner |
| `Merge.MergeQueue.FrontMerge` | kernel/linux/block/ll_rw_blk.c:2952-2977 | Likewise in front |
| `Merge.MergeQueue.NewRequest` | kernel/linux/block/elevator.c:583-599 | A bio that merges with nothing becomes a request of its own, held and hashed |
| `Merge.MergeQueue.MakeRequest` | kernel/linux/block/ll_rw_blk.c:2905-2977 | The bio ends up in exactly one request, one of its own device and direction: the one the verdict names, the one before it that the merge joins, or a new one; no merge that could be found is missed |
| `Merge.MergeQueue.Dispatch` | kernel/linux/block/elevator.c:441-453 | A dispatched request leaves hash, cache and count |
| `PartialCompletion.AdvancedBytes` | kernel/linux/block/ll_rw_blk.c:3411-3431 | A bio advanced by some bytes describes exactly what it did, without those bytes |
| `PartialCompletion.Request.EndFirst` | kernel/linux/block/ll_rw_blk.c:3327-3435 | The bytes described afterwards are the old ones without the first nr_bytes; for every bio, bytes reported and bytes left add up to its account; the vector index stays inside the bio; 0 is returned exactly under the stated condition |
| `PartialCompletion.FinishesIff` | kernel/linux/block/ll_rw_blk.c:3327-3435 | Without empty bios the call reports completion if and only if it covers every byte |
| `PartialCompletion.EmptyBioLingers` | kernel/linux/block/ll_rw_blk.c:3396-3415 | With an empty bio at the end, every byte can be done and the request still be reported unfinished |
| `Segments.MappingFits` | kernel/linux/block/ll_rw_blk.c:1310-1354 | The mapping never has more entries than the segment counts of the bios add up to |
| `Segments.MappedAddrs` | kernel/linux/block/ll_rw_blk.c:1310-1354 | The entries describe the physical bytes of the request, in order and without gaps |
| `Segments.MappedLimit` | kernel/linux/block/ll_rw_blk.c:1332-1342 | If no vector exceeds max_segment_size, no entry does |
| `Segments.MappedStarts` | kernel/linux/block/ll_rw_blk.c:1310-1354 | A vector goes on with the entry of the one before it if and only if clustering is on, the two adjoin in memory within one window, and the entry stays within the size limit |
| `Segments.CountedStarts` | kernel/linux/block/ll_rw_blk.c:1207-1266 | A vector is counted with the segment before it if and only if neither is bounced, the two may share an entry and the hardware segment does not grow too large; with the hardware segment also if they are virtually mergeable |
| `Segments.RecountSegments` | kernel/linux/block/ll_rw_blk.c:1207-1266 | The loop computes the count that the bound is stated against |
| `Segments.MapSg` | kernel/linux/block/ll_rw_blk.c:1310-1354 | The nested loops compute a mapping with the two properties above |
| `CamelliaWords.TablesComputeP` | kernel/linux/crypto/camellia.c:146-166 | The four combined tables, folded by Q, compute the P function of RFC 3713 |
| `CamelliaWords.MacroF` | kernel/linux/crypto/camellia.c:146-166 | The F macro computes the F function |
| `CamelliaWords.RoundSm` | kernel/linux/crypto/camellia.c:186-205 | The round macro adds the S and P layers of the input and the Q image of the subkey |
| `CamelliaWords.Fls` | kernel/linux/crypto/camellia.c:170-184 | The FLS macro computes FL on one half and its inverse on the other |
| `CamelliaWords.FLBits` | kernel/linux/crypto/camellia.c:170-184 | FL bit by bit: each lower bit takes the AND of the next upper bit with its key bit, each upper bit the OR of the new lower bit with its key bit |
| `CamelliaWords.FLMovesDifference` | kernel/linux/crypto/camellia.c:613-641 | A difference passes through FL independently of the data, which is why whitening keys can be absorbed |
| `CamelliaWords.FLinvMovesDifference` | kernel/linux/crypto/camellia.c:585-611 | The same for the inverse of FL |
| `Camellia.FoldedCipherIsReference` | kernel/linux/crypto/camellia.c:1214-1314 | If a subkey table folds a key table, the optimised cipher computes the unoptimised one on every block |
| `Camellia.DecryptUndoesEncrypt` | kernel/linux/crypto/camellia.c:1316-1416 | Optimised decryption undoes optimised encryption, for every table |
| `CamelliaSchedule.Roldq` | kernel/linux/crypto/camellia.c:122-129 | The rotation macro rotates the 128-bit value |
| `CamelliaSchedule.RoldqO32` | kernel/linux/crypto/camellia.c:131-139 | The same for rotations by more than 32 |
| `CamelliaSchedule.SigmasAgree` | kernel/linux/crypto/camellia.c:51-58 | The word constants are the 64-bit constants Sigma1 to Sigma4 of section 2.2 of RFC 3713 |
| `CamelliaSchedule.GenerateKa` | kernel/linux/crypto/camellia.c:536-555 | Computes the KA of RFC 3713 |
| `CamelliaSchedule.DeriveKl` | kernel/linux/crypto/camellia.c:494-534 | The subkeys taken from KL are those of RFC 3713 |
| `CamelliaSchedule.DeriveKa` | kernel/linux/crypto/camellia.c:556-584 | The subkeys taken from KA are those of RFC 3713 |
| `CamelliaSchedule.Absorb` | kernel/linux/crypto/camellia.c:585-642 | kw2 and kw4 are absorbed into the other subkeys, passed back through FL and its inverse |
| `CamelliaSchedule.Tabulate` | kernel/linux/crypto/camellia.c:643-780 | Neighbouring keys are combined and the last half of P is inverted on the round keys |
| `CamelliaSchedule.Setup128` | kernel/linux/crypto/camellia.c:479-780 | The table it builds folds the key table of RFC 3713 |
| `CamelliaSchedule.Encrypt128` | kernel/linux/crypto/camellia.c:1214-1314 | The macro sequence computes the optimised cipher |
| `CamelliaSchedule.Decrypt128` | kernel/linux/crypto/camellia.c:1316-1416 | The macro sequence computes optimised decryption |
| `CamelliaSchedule.RoundTrip128` | kernel/linux/crypto/camellia.c:479-780 | For every key, block and S-box contents: setup and encryption compute the cipher of RFC 3713, decryption gives the block back |
| `Gf128.MulXBit` | kernel/linux/crypto/gf128mul.c:125-141 | Multiplication by X moves every coefficient up by one and replaces X^128 by 1 + X + X^2 + X^7 |
| `Gf128.XdaTermIsPower` | kernel/linux/crypto/gf128mul.c:56-121 | The reduction constant of overflow bit m is what X^(128 + m) reduces to |
| `Gf128.MulAdd` | kernel/linux/crypto/gf128mul.c:349-372 | The field product is linear |
| `Gf128.MulSplit` | kernel/linux/crypto/gf128mul.c:349-372 | The product over two parts of the multiplier |
| `Gf128.TimesX` | kernel/linux/crypto/gf128mul.c:125-143 | The shift with the 0x87 or 0xe1 correction multiplies by x |
| `Gf128.TimesX8` | kernel/linux/crypto/gf128mul.c:145-163 | The byte shift with the table correction multiplies by x^8 |
| `Gf128Tables.Init4kLle` | kernel/linux/crypto/gf128mul.c:391-411 | Entry b of the table is g times the polynomial of byte b |
| `Gf128Tables.Init4kBbe` | kernel/linux/crypto/gf128mul.c:413-433 | The same in the other bit order |
| `Gf128Tables.Mul4kLle` | kernel/linux/crypto/gf128mul.c:435-448 | The 4k multiplication is the field product of section 6.3 of NIST SP 800-38D |
| `Gf128Tables.Mul4kBbe` | kernel/linux/crypto/gf128mul.c:450-463 | The same in the other bit order |
| `Gf128Tables.Init64kLle` | kernel/linux/crypto/gf128mul.c:255-295 | Entry b of row i is g times x^(8i) times byte b |
| `Gf128Tables.Init64kBbe` | kernel/linux/crypto/gf128mul.c:297-337 | The same in the other bit order |
| `Gf128Tables.Mul64k` | kernel/linux/crypto/gf128mul.c:349-372 | The 64k multiplication is the same field product, in both orders |
| `Lrw.IncrementFlips` | kernel/linux/crypto/lrw.c:107-122 | An increment flips exactly the trailing ones and the bit above them |
| `Lrw.TweakIncrement` | kernel/linux/crypto/lrw.c:146-175 | Adding one table entry to the tweak of I gives the tweak of I + 1 |
| `Lrw.IndexInBounds` | kernel/linux/crypto/lrw.c:107-122 | The table index is in bounds if and only if the counter is not all ones |
| `Lrw.SetKey` | kernel/linux/crypto/lrw.c:51-84 | Entry i of mulinc is Key2 times the polynomial with the low i + 1 bits set |
| `Lrw.Inc` | kernel/linux/crypto/lrw.c:92-96 | The two-word counter counts modulo 2^128 |
| `Lrw.GetIndex128` | kernel/linux/crypto/lrw.c:107-122 | The loop counts the trailing ones |
| `Lrw.CryptChunk` | kernel/linux/crypto/lrw.c:146-175 | One window of any length continues the message with the right tweaks |
| `Lrw.Crypt` | kernel/linux/crypto/lrw.c:124-178 | However the message is cut into windows, block k is masked with (I + k) * Key2 |
| `Lrw.DecryptUndoesEncrypt` | kernel/linux/crypto/lrw.c:180-200 | Decryption undoes encryption for any invertible child cipher |
| `ScatterWalk.AddrsInside` | kernel/linux/crypto/scatterwalk.c:42-56 | Inside an entry the flat view is contiguous memory |
| `ScatterWalk.PutContiguous` | kernel/linux/crypto/scatterwalk.c:84-108 | Writing a stretch of memory replaces that stretch of the flat view and nothing else |
| `ScatterWalk.Walk.PageDone` | kernel/linux/crypto/scatterwalk.c:59-75 | Stepping to the next page or entry skips no byte |
| `ScatterWalk.Walk.Done` | kernel/linux/crypto/scatterwalk.c:77-81 | Likewise, also when an entry ends inside a page and the step is put off |
| `ScatterWalk.Walk.CopyChunks` | kernel/linux/crypto/scatterwalk.c:84-108 | Terminates and copies exactly the next n bytes of the flat view, in or out |
| `CipherWalk.WindowsApart` | kernel/linux/crypto/blkcipher.c:192-217 | Windows on one list, or on lists without a common byte, are one place or do not overlap |
| `CipherWalk.BlkcipherWalk.NextSlow` | kernel/linux/crypto/blkcipher.c:144-176 | The window holds the next block of the source although it is split |
| `CipherWalk.BlkcipherWalk.NextCopy` | kernel/linux/crypto/blkcipher.c:178-190 | The bounced window holds the next bytes of the source |
| `CipherWalk.BlkcipherWalk.NextFast` | kernel/linux/crypto/blkcipher.c:192-217 | The direct window holds the next bytes of the source and can be written without harm |
| `CipherWalk.BlkcipherWalk.Next` | kernel/linux/crypto/blkcipher.c:219-270 | A window of at least a block, or EINVAL exactly if less than a block is left |
| `CipherWalk.BlkcipherWalk.DoneSlow` | kernel/linux/crypto/blkcipher.c:69-80 | What the mode wrote reaches the destination list, and no other byte of memory changes |
| `CipherWalk.BlkcipherWalk.DoneFast` | kernel/linux/crypto/blkcipher.c:82-101 | The same for the direct and the bounced window |
| `CipherWalk.BlkcipherWalk.Done` | kernel/linux/crypto/blkcipher.c:103-142 | The destination gains exactly the processed bytes, a separate source is untouched, and the next window is ready or the walk is over |
| `CipherWalk.BlkcipherWalk.First` | kernel/linux/crypto/blkcipher.c:311-337 | The first window, or nothing for an empty request |
| `CbcSpec.DecryptUndoesEncrypt` | kernel/linux/crypto/cbc.c:42-208 | CBC decryption undoes CBC encryption for any invertible cipher |
| `CbcSpec.EncryptSplit` | kernel/linux/crypto/cbc.c:94-119 | Chaining over a text in parts, carrying the last ciphertext block |
| `CbcSpec.DecryptSplit` | kernel/linux/crypto/cbc.c:183-208 | The same for decryption |
| `Cbc.EncryptSegment` | kernel/linux/crypto/cbc.c:42-66 | The window's whole blocks are CBC encrypted into the other end, the IV is the last of them |
| `Cbc.EncryptInplace` | kernel/linux/crypto/cbc.c:68-92 | The same in place |
| `Cbc.DecryptSegment` | kernel/linux/crypto/cbc.c:121-147 | The window's whole blocks are CBC decrypted into the other end, the IV is the last ciphertext block |
| `Cbc.DecryptInplace` | kernel/linux/crypto/cbc.c:149-181 | The same in place, working backwards over blocks it overwrites |
| `Cbc.CryptList` | kernel/linux/crypto/cbc.c:94-208 | For lists of the same or of disjoint bytes and any length: the destination receives the CBC of section 6.2 of NIST SP 800-38A of the source's whole blocks, nothing else changes, the IV is the last ciphertext block, EINVAL exactly for a partial block |
| `Xcbc.ConstantBytes` | kernel/linux/crypto/xcbc.c:32-34 | The byte constants are 0x01, 0x02, 0x03, 0x80 and 0 |
| `Xcbc.MoreText` | kernel/linux/crypto/xcbc.c:111-185 | More text can be taken in knowing only the chaining value and the last block so far |
| `Xcbc.Last` | kernel/linux/crypto/xcbc.c:111-185 | Of a non-empty message 1 to 16 bytes are held back |
| `Xcbc.XcbcCtx.SetKey` | kernel/linux/crypto/xcbc.c:84-97 | EINVAL exactly for a wrong key length, otherwise the child is keyed with K1 |
| `Xcbc.XcbcCtx.Absorb` | kernel/linux/crypto/xcbc.c:149-176 | A long piece is chained in but for its last block |
| `Xcbc.XcbcCtx.Update` | kernel/linux/crypto/xcbc.c:111-185 | The message grows by the bytes of whole entries, however they lie on pages, up to the first at which the unsigned count comes out at zero |
| `Xcbc.XcbcCtx.Final` | kernel/linux/crypto/xcbc.c:196-244 | The result is the MAC of section 4 of RFC 3566 on the whole message, and the child is keyed with K1 again |
| `Xcbc.XcbcCtx.Digest` | kernel/linux/crypto/xcbc.c:246-255 | The same in one call |
| `HashSpec.BytesOfNumber` | kernel/linux/crypto/md5.c:128-142 | Writing a number as bytes in either order and reading it back gives the number |
| `Hashes.Md5Start` | kernel/linux/crypto/md5.c:150-159 | The start value is 01 23 45 67 ... 32 10 in the byte order of section 3.3 of RFC 1321 |
| `Hashes.Sha1Start` | kernel/linux/crypto/sha1.c:37-47 | The start value is that of section 5.3.1 of FIPS 180-2 |
| `Hashes.Sha256Start` | kernel/linux/crypto/sha256.c:51-58 | The start value is the first 32 fraction bits of the square roots of the first eight primes |
| `HashSpec.MoreText` | kernel/linux/crypto/md5.c:161-189 | More text can be taken in knowing only the state and the unfinished block |
| `HashSpec.FillerBits` | kernel/linux/crypto/md5.c:196-212 | Bit by bit, the padding is a one and then zeros |
| `Hashes.LastBlocks` | kernel/linux/crypto/md5.c:191-215 | Which one or two blocks the padding makes |
| `Hashes.AddBitsIff` | kernel/linux/crypto/sha256.c:256-261 | The two count words stay exact if and only if the update is shorter than 2^29 bytes or the low word carries |
| `Hashes.Md5Ctx.Update` | kernel/linux/crypto/md5.c:161-189 | State, buffer and count stand for the text so far, for any cut of the text |
| `Hashes.Md5Ctx.Final` | kernel/linux/crypto/md5.c:191-215 | The digest of sections 3.1 to 3.5 of RFC 1321 of the whole text |
| `Hashes.Sha1Ctx.Update` | kernel/linux/crypto/sha1.c:49-80 | As for MD5 |
| `Hashes.Sha1Ctx.Final` | kernel/linux/crypto/sha1.c:84-108 | The digest of sections 5.1.1 and 6.1 of FIPS 180-2 |
| `Hashes.Sha256Ctx.Update` | kernel/linux/crypto/sha256.c:247-278 | As for MD5; the bit count in two words stays exact if and only if the text is shorter than 2^29 bytes or the low word carries |
| `Hashes.Sha256Ctx.Final` | kernel/linux/crypto/sha256.c:280-307 | The digest of sections 5.1.1 and 6.2 of FIPS 180-2 |
| `Digest.HashTfm.UpdateEntry` | kernel/linux/crypto/digest.c:51-78 | One entry, cut at pages and at alignment, is taken in whole |
| `Digest.HashTfm.Update2` | kernel/linux/crypto/digest.c:34-84 | Exactly the first nbytes of the list are taken in |
| `Digest.HashTfm.Digest` | kernel/linux/crypto/digest.c:128-137 | The digest of the flat message |
| `Hmac.HmacTfm.SetKey` | kernel/linux/crypto/hmac.c:44-84 | The pads are those of the key, hashed first if longer than a block |
| `Hmac.HmacTfm.Init` | kernel/linux/crypto/hmac.c:86-106 | The child has taken in the inner pad |
| `Hmac.HmacTfm.Update` | kernel/linux/crypto/hmac.c:108-118 | The child has taken in the text after it |
| `Hmac.HmacTfm.Final` | kernel/linux/crypto/hmac.c:120-141 | The MAC of section 2 of RFC 2104 of all the text |
| `Hmac.HmacTfm.Digest` | kernel/linux/crypto/hmac.c:143-171 | The same MAC in one call |

## Left out

- Ordered modes other than draining: the model fixes the drain mode. Tag ordering, no ordering and switching between them are not part of it; flush settings may change between sequences.
- Plugging, request tags, timers, locks, per-CPU data and reference counts: each locked section is one atomic step, and request_fn runs as later steps.
- What a scheduler picks: in the barrier and merge models the scheduler's choices, the device limits and the neighbour lookups are parameters, so the results hold for all of them.
- Special requests are never barriers, and the flush proxies are never fs requests, as the block layer's own users arrange it.
- Sector numbers, times and lengths of lists are unbounded, so the wrap-around of sector_t and of jiffies is not modelled; the count of the batches in deadline and the byte and bit counts of the hashes are modelled with their width.
- BarrierQueue.RequestQueue.Drain: the order in which the scheduler gives its requests up is a parameter, and a forced dispatch is taken to empty the scheduler.
- Anticipatory: expiry times, anticipation, think-time statistics, batches and front merges are not modelled.
- CfqQueues.CfqData.GetQueue: a queue is named by its key and priority together; reference counts and the freeing of queues are not modelled.
- CfqQueues.CfqData.Resort: where inside a list a queue goes is a parameter, since placement is policy; time slices, idling and io contexts are not modelled.
- PartialCompletion.Request.EndFirst: barrier requests with their dry runs, sector counters and segment recounts are not modelled.
- Segments: front and back sizes of hardware segments are not modelled, nor the decrement of segment counts across merged bios.
- Camellia with 192 and 256 bit keys: the same technique with longer schedules.
- gf128mul_lle and gf128mul_bbe: their accumulators are not cleared in full, so they do not compute the product; nothing modelled here uses them.
- CipherWalk.BlkcipherWalk.Next: allocations succeed; the physical-address form of the walk and the copy of an unaligned IV are not modelled.
- ScatterWalk: a list is its resolved entries; chain links are followed by the caller's notation, not by the model.
- Hashes: the compression functions are not interpreted and contexts are not wiped at the end.
- Xcbc.XcbcCtx.Update: a byte count that no entry boundary of the list agrees with, modulo 2^32, makes the source run past the list (kernel/linux/crypto/xcbc.c:180-182); what it then reads is not modelled.
- Xcbc.XcbcCtx.Digest: the same holds for the one-call form.
- Hashes.Sha1Ctx.Update: a single call within 63 bytes of 2^32 is not modelled, since the index arithmetic of the source then overflows (kernel/linux/crypto/sha1.c:49-80).
- Hashes.Sha256Ctx.Update: likewise for a single call within 63 bytes of 2^32 (kernel/linux/crypto/sha256.c:247-278).
- Xcbc.XcbcCtx.SetKey: the child cipher accepts every key of block size.
- Other ciphers, modes and hashes, registration, sysfs, ioctl, tracing and statistics would only add easy members.
