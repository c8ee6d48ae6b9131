# A verified model of the Linux 4.4.1 block layer

This project models the state machines, schedulers, allocators and transformations at the core of the block layer of
Linux 4.4.1 and proves what they keep over whole runs. `dafny verify dfyconfig.toml` checks all of it.

Every component has the same shape. A datatype holds its state, functions on that state are its operations, and an
invariant is proved for every operation; runs are sequences of operations in any order, and the theorems are about
every run. Where the C code works in place, a class with the same fields has methods whose postconditions equate the
new state with the operation applied to the old one, so that the theorems about the operations are theorems about the
methods.

What is modelled, and the main results:

- **FLUSH/FUA sequencing** (`Flush`, `FlushLists`, `FlushOnce`, `FlushOrder`, `FlushTimely`, `FlushAsked`,
  `FlushDurability`, `FlushProgress`, `FlushQueue`). Requests run through PREFLUSH, DATA and POSTFLUSH and share
  device flushes through two lists; a flush step is completed only by a flush issued after the request was queued for
  it. The trace of a run is replayed on a device whose flush persists the writes completed before its issue: data of a
  REQ_FLUSH request starts only after every write completed before its insertion is durable, a REQ_FUA request ends
  well only with its own data durable, each request ends exactly once, and nothing stalls. With times on the trace, a
  flush is issued only when it is due, and whenever the machine takes a step with one due.
- **Throttling** (`ThrottleRate`, `ThrottleWait`, `ThrottleVerdict`, `ThrottleBacklog`, `ThrottleGroup`,
  `ThrottleQueue`, `ThrottleTree`, `ThrottleDrain`, `ThrottleRuns`, `ThrottleSubmit`, `ThrottleWalk`, `ThrottleData`).
  Over any mix of new, extended and trimmed slices a group never exceeds its byte or I/O rate by more than one slice,
  and one that always has a bio waiting gets its byte rate. Counters agree with the queues in every run, no bio is
  lost or doubled, sources are served round-robin, groups in order of dispatch time, and a drain in post-order issues
  everything.
- **Deadline scheduler** (`Deadline`, `DeadlineOrder`, `DeadlineDelay`, `DeadlineBound`, `DeadlineSweep`,
  `DeadlineExtents`, `DeadlineLimits`, `DeadlineTies`, `DeadlineZero`, `DeadlineData`). An expired request goes out
  within a bounded number of dispatch calls, whatever is inserted or merged meanwhile; as long as none has expired
  dispatches go on in sector order; and no sector is lost or doubled.
- **CFQ groups** (`CfqWeights`, `CfqShares`, `CfqTree`, `CfqFraction`, `CfqRuns`, `CfqFair`, `CfqData`). Activation
  counts and weight sums are right in every reachable state, exact shares sum to 1 and fixed-point shares to at most
  1, groups that stay on the tree never drift further apart than one charge, and so get disk time in proportion to
  their fractions.
- **Segments** (`Segments`, `SegmentCount`, `SegmentSplit`, `SegmentMap`, `SegmentFits`, `SegmentLimit`). The greedy
  scan is minimal; a split takes the longest prefix and counts it; a request put together from split bios in any way
  is never mapped to more entries than were counted, nor to more than the queue allows, on any queue.
- **Tags and software queues** (`TagMap`, `TagCache`, `TagResize`, `TagRace`, `TagWake`, `TagData`, `MqMap`,
  `MqPending`, `MqOffline`). Outstanding tags are distinct under interleaving, searches are complete, resizes offer
  what they set, no sleeper is lost, and requests are never stranded exactly if all software queues are on one
  hardware queue.
- **Completion** (`BioChain`, `BioErrors`, `RequestBios`, `Discard`). Chained bios finish once, after their subtree; a
  request agrees with its bios through merges and partial completions; discards are tiled on the device's grain.

`Lists` and `Arith` hold the few facts about lists and numbers that the models share.

Lists are sequences, red-black trees are ordered sequences, bitmap words are sets of bits, and jiffies are an
unbounded monotone clock. A function that runs under one lock is one step; steps are separate where the code
interleaves. What comes from outside (completions, errors, verdicts of other checks, times) is a parameter of the
step.

Where a property one would expect turns out false of the code, the model keeps the code as it is:

- With `writes_starved` 0 reads can wait for ever (`DeadlineLimits.ReadsStarveWithoutLimit`), and with it at least 1
  they cannot (`DeadlineBound.DispatchBound`). A request's place in its FIFO bounds its wait if at most one request
  behind it has the same deadline (`DeadlineBound.PlaceBound`), and with two it does not
  (`DeadlineTies.PlaceIsNoBound`).
- With an expiry setting of 0, a request that expires in this very jiffy is left out of the dispatch bound
  (`DeadlineZero.UrgentIff`), and rightly: requests inserted in that jiffy have the same deadline and can move it back
  as long as the jiffy lasts (`DeadlineZero.ZeroExpiryWaits`). From the next jiffy on the bound holds.
  `DeadlineZero.BoundedIff` gives the settings under which the wait is bounded.
- The wait that the byte check of throttling gives can be a jiffy short (`ThrottleWait.BpsWaitTooShort`);
  `ThrottleWait.BpsWaitEnoughIff` says exactly when it is not.
- `blk_mq_hctx_cpu_offline` runs for every hardware queue but clears the bit in the notified one, which can belong to
  another software queue. `MqOffline.OfflineSafeIff` gives the exact condition.
- A resize of the tags to just the reserved ones sets the depth to 0 and leaves the words as they were
  (`TagResize.DepthOfferedIff`). The cached tag of a CPU can then run past the last word (`TagResize.CacheLeaves`);
  `TagResize.CachesInRangeIff` gives the tag sets for which no run leads there.
- A partial completion that is not in whole sectors breaks the agreement of a request with its bios
  (`RequestBios.UpdateAgreesIff`).
- A recount after a partial completion counts vectors on a NO_SG_MERGE queue but segments before, so
  `nr_phys_segments` can pass `max_segments` (`SegmentLimit.CountsVectors`; `SegmentLimit.CountWithinIff` gives the
  queues where it cannot). The entries a request is mapped to never do (`SegmentLimit.EntriesWithinQueue`).
- A batch of the deadline scheduler does not always ascend: a front merge can pull the next request below the last one
  sent (`DeadlineSweep.AscendsIffGentle`).
- The error of a piece of a split bio is not always reported: a piece that succeeds later overwrites it
  (`BioErrors.ErrorLost`). `BioErrors.ErrorReportedIff` says exactly when it is.

In two places a check looks too weak on its own and its callers make up for it:

- With QUEUE_FLAG_NO_SG_MERGE a recount leaves the segment sizes stale, and the minus-one join would then count too
  few segments (`SegmentFits.UncountedFitsIff`). It does not happen: every bio that can be joined went through
  blk_queue_split, which measures it on every queue (`SegmentFits.SubmittedFits`), and passthrough requests, which
  bypass it, are never joined (`SegmentFits.PassthroughFits`).
- `blk_mq_tag_update_depth` compares a depth without the reserved tags to a number of tags with them. The guard of its
  only caller keeps every depth within the words (`TagResize.ResizesOffer`).

## Model

| member | source | states |
|---|---|---|
| FlushLists.WalkStep | linux-4.4.1/block/blk-flush.c:239-254 | one turn of the completion loop takes the head off the walked list and puts nothing back on a flush list, so walking the list while it changes is sound |
| FlushLists.FlushEndKeeps | linux-4.4.1/block/blk-flush.c:220-274 | the end of a flush keeps every unfinished request on exactly the list of its step, the double buffering, and leaves no waiting flush stalled |
| FlushLists.DataEndKeeps | linux-4.4.1/block/blk-flush.c:339-350 | the same for the end of DATA |
| FlushLists.InsertKeeps | linux-4.4.1/block/blk-flush.c:384-448 | the same for an insertion, whatever the device flags and the request ask for |
| FlushLists.RunsConsistent | linux-4.4.1/block/blk-flush.c:166-448 | in every run a flush is in flight iff the indices differ, every sequenced unfinished request is on exactly the list of its current step, and a pending list with no flush in flight waits for a request that executes DATA |
| FlushOnce.EndsExactlyOnce | linux-4.4.1/block/blk-flush.c:119-217 | in every run a request has ended exactly once if it has left the machine and the driver, and not before |
| FlushOnce.RunsOnce | linux-4.4.1/block/blk-core.c:142-156 | no request is inserted, or ends, twice in any run; a request ends only after its insertion |
| FlushDurability.KickSafe | linux-4.4.1/block/blk-flush.c:290-337 | a flush that is issued covers what every request on the list it takes waits for |
| FlushDurability.FlushDoneServes | linux-4.4.1/block/blk-flush.c:230-243 | a flush that ends has made durable what every request on its list waited for |
| FlushDurability.CompleteSeqSafe | linux-4.4.1/block/blk-flush.c:166-218 | recording a step as complete is safe once its effect is, and every promise of the trace is kept |
| FlushDurability.DataWaitsForPreflush | linux-4.4.1/block/blk-flush.c:166-274 | in every run, when the data of a REQ_FLUSH request is issued, every write completed before its insertion is durable |
| FlushDurability.EndsDurable | linux-4.4.1/block/blk-flush.c:98-448 | in every run a request that ends without error has its data written; with REQ_FLUSH all writes completed before its insertion are durable, with REQ_FUA its own data is |
| FlushOrder.KickTimely | linux-4.4.1/block/blk-flush.c:290-337 | a flush that is issued is for requests that were all queued before its issue |
| FlushOrder.OnlyFlushes | linux-4.4.1/block/blk-flush.c:220-274 | nothing but the end of a flush completes a flush step, and only of requests on the list of that flush |
| FlushOrder.FlushAfterQueueing | linux-4.4.1/block/blk-flush.c:166-337 | in every run, what completes a PREFLUSH or POSTFLUSH step of a request is the end of a flush issued after the request was last queued for a flush, as positions of the trace |
| FlushTimely.RunsKept | linux-4.4.1/block/blk-flush.c:166-448 | in every run with a clock that does not run back, who waits for a flush and since when, whether one is in flight and who executes DATA can be read off the stamped events alone, and is what the queue holds |
| FlushTimely.KickDue | linux-4.4.1/block/blk-flush.c:290-337 | blk_kick_flush issues a flush exactly if one is due by what the events say: somebody waits, none is in flight, and nobody executes DATA or somebody has waited for 5 * HZ |
| FlushTimely.NeverOverdue | linux-4.4.1/block/blk-flush.c:290-337 | in every run, after every sequenced insertion, end of DATA and end of a flush: if somebody waits and no flush is in flight, somebody executes DATA and nobody has waited for 5 * HZ |
| FlushTimely.NeverEarly | linux-4.4.1/block/blk-flush.c:290-337 | in every run a flush is issued only when somebody waits, none is in flight, and nobody executes DATA or somebody has waited for 5 * HZ |
| FlushAsked.NoNeedlessFlush | linux-4.4.1/block/blk-flush.c:98-117 | in every run on one device a request is queued for a flush at most as often as it asks for one that the device needs, and the driver sees REQ_FUA exactly if it was asked for and the device honours it |
| FlushProgress.CompletionShrinks | linux-4.4.1/block/blk-flush.c:220-350 | every completion of issued work, good or bad, leaves strictly fewer unset sequence bits |
| FlushProgress.EveryRequestFinishes | linux-4.4.1/block/blk-flush.c:166-350 | after any run, issued work completes at most as often as there are steps left, and when nothing is left to complete every request has ended or is a plain one at the driver |
| FlushProgress.BadEnd | linux-4.4.1/block/blk-flush.c:166-274 | a request ends with an error only in a step that reports one, of its own data or of a flush it was waiting for |
| FlushProgress.BadEndHasCause | linux-4.4.1/block/blk-flush.c:166-350 | in every run a request whose steps all succeed does not end with an error |
| FlushQueueObject.FlushQueue.KickFlush | linux-4.4.1/block/blk-flush.c:290-337 | in place: exactly the kick of the model, C1 to C3 included, which FlushTimely says when it is due |
| FlushQueueObject.FlushQueue.CompleteSeq | linux-4.4.1/block/blk-flush.c:166-218 | in place: exactly the completion of a step, and its BUG_ON cannot fire |
| FlushQueueObject.FlushQueue.FlushEndIo | linux-4.4.1/block/blk-flush.c:220-274 | in place, as a loop over the list: exactly the end of a flush |
| FlushQueueObject.FlushQueue.FlushDataEndIo | linux-4.4.1/block/blk-flush.c:339-350 | in place: exactly the end of DATA |
| FlushQueueObject.FlushQueue.InsertFlush | linux-4.4.1/block/blk-flush.c:384-448 | in place: exactly the insertion of the model |
| ThrottleRate.ElapsedRounded | linux-4.4.1/block/blk-throttle.c:725-733 | the rounded elapsed time is never less than the elapsed time and at most one slice more |
| ThrottleRate.RenewSound | linux-4.4.1/block/blk-throttle.c:764-800 | a new slice starts only when everything charged fits in the time before it |
| ThrottleRate.ChargeSound | linux-4.4.1/block/blk-throttle.c:816-832 | a charge within the budget keeps the total within the limit for the time up to now and one slice |
| ThrottleRate.TrimSound | linux-4.4.1/block/blk-throttle.c:610-666 | trimming takes off no more than the time it moves the start over allows |
| ThrottleRate.TrimLow | linux-4.4.1/block/blk-throttle.c:610-666 | after a charge and its trim the I/O counter is that of at most two slices and one more, or the slice is over |
| ThrottleRate.BytesWithinRate | linux-4.4.1/block/blk-throttle.c:572-832 | over any run, the bytes charged from t0 to t are at most bps * (t - t0 + slice) / HZ, as long as that product fits 64 bits |
| ThrottleRate.IosWithinRate | linux-4.4.1/block/blk-throttle.c:668-716 | the same for bios against iops; the 32-bit counter never wraps |
| ThrottleRate.IopsWaitEnough | linux-4.4.1/block/blk-throttle.c:704-716 | whoever waits as long as the I/O check says is within the I/O limit afterwards, unless something else was charged or the 32-bit product wrapped |
| ThrottleWait.BpsWaitEnoughIff | linux-4.4.1/block/blk-throttle.c:740-757 | whoever waits as long as the byte check says is within the byte limit then, if nothing else was charged and nothing wraps, if and only if the jiffies asked for are not a whole number of slices, or are none, or the part of a byte the allowance dropped covers the part of a jiffy the wait dropped |
| ThrottleWait.BpsWaitAndOne | linux-4.4.1/block/blk-throttle.c:740-757 | one jiffy more is always enough |
| ThrottleWait.BpsWaitTooShort | linux-4.4.1/block/blk-throttle.c:740-757 | with 100 jiffies and 1010 bytes a second a bio of 203 bytes waits as told and is still a byte over |
| ThrottleVerdict.AdmittedIff | linux-4.4.1/block/blk-throttle.c:764-814 | a bio is let through if and only if HZ * (bytes charged + size) is at most bps * t and HZ * (bios charged + 1) at most iops * t, t being the time since the slice in force started, rounded up to whole slices; limits of -1 and products that wrap apart |
| ThrottleVerdict.SliceLeft | linux-4.4.1/block/blk-throttle.c:780-811 | the check leaves the slice in force and extends it over the wait, so that whoever comes back when told finds it again |
| ThrottleVerdict.RefusedForBytes | linux-4.4.1/block/blk-throttle.c:718-814 | a bio refused for its bytes waits at least a jiffy, and one jiffy after its wait its bytes fit the slice that was left, if nothing was charged |
| ThrottleVerdict.RefusedForIos | linux-4.4.1/block/blk-throttle.c:668-814 | a bio refused for its I/O waits at least a jiffy, and after its wait it fits |
| ThrottleBacklog.BacklogGetsRate | linux-4.4.1/block/blk-throttle.c:572-832 | a group that always has a bio waiting, is refused only for bytes and comes back when told gets its rate: whenever a bio is refused, the bytes charged since the start, one byte for each bio, and the waiting bio are more than bps * (t - t0) / HZ |
| ThrottleGroup.ThrotlGroup.TrimSlice | linux-4.4.1/block/blk-throttle.c:610-666 | in place: exactly the trim |
| ThrottleGroup.ThrotlGroup.WithInBpsLimit | linux-4.4.1/block/blk-throttle.c:718-758 | the verdict, and a wait one jiffy after which the check passes if nothing else was charged |
| ThrottleGroup.ThrotlGroup.WithInIopsLimit | linux-4.4.1/block/blk-throttle.c:668-716 | the verdict, and a wait after which the check passes if nothing else was charged |
| ThrottleGroup.ThrotlGroup.MayDispatch | linux-4.4.1/block/blk-throttle.c:764-814 | in place: exactly the check, with the slice it renews or extends; AdmittedIff says when it passes |
| ThrottleGroup.ThrotlGroup.ChargeBio | linux-4.4.1/block/blk-throttle.c:816-832 | in place: a bio that was within both limits leaves both counters within what was allowed |
| ThrottleGroup.ThrotlGroup.VisitOnce | linux-4.4.1/block/blk-throttle.c:907-941 | in place: check, charge and trim are one visit of the runs that the rate bounds are about |
| ThrottleQueue.AddBioHeld | linux-4.4.1/block/blk-throttle.c:250-258 | adding a bio to a qnode adds exactly that bio to the list |
| ThrottleQueue.AddBioFrom | linux-4.4.1/block/blk-throttle.c:250-258 | the bio goes behind the others of its source and other sources are left alone |
| ThrottleQueue.PoppedHeld | linux-4.4.1/block/blk-throttle.c:291-314 | popping takes the first bio of the first qnode and nothing else |
| ThrottleQueue.PoppedOk | linux-4.4.1/block/blk-throttle.c:291-314 | popping keeps one qnode for each source and none empty, so the WARN_ON_ONCE cannot fire |
| ThrottleQueue.EverySourceOnce | linux-4.4.1/block/blk-throttle.c:28-50 | as many pops as there are sources serve each source exactly once, in list order |
| ThrottleTree.MoveUpOk | linux-4.4.1/block/blk-throttle.c:901-941 | moving a bio up keeps every nr_queued, and that of throtl_data, right |
| ThrottleTree.MoveUpHeld | linux-4.4.1/block/blk-throttle.c:901-941 | moving a bio up neither loses nor doubles one |
| ThrottleDrain.DispatchOneOk | linux-4.4.1/block/blk-throttle.c:901-941 | moving a bio up leaves every group that has bios on its parent's pending tree |
| ThrottleDrain.InsertByTimeOk | linux-4.4.1/block/blk-throttle.c:451-477 | insertion keeps a pending tree in order of dispatch time |
| ThrottleDrain.UpdateDisptimeOk | linux-4.4.1/block/blk-throttle.c:867-889 | a new dispatch time keeps every pending tree in order and puts a group that was off its tree back on |
| ThrottleRuns.SelectOk | linux-4.4.1/block/blk-throttle.c:943-1002 | a turn of dispatch keeps counters and pending trees, although the group is off its tree meanwhile |
| ThrottleRuns.SelectsEarliest | linux-4.4.1/block/blk-throttle.c:943-1002 | a turn of dispatch changes something only if a pending child is due, and then serves one that is due earliest: as many of its bios as it may dispatch, up to 6 reads and 2 writes, go to its parent and no other list changes; a child with bios whose time has come is never passed over |
| ThrottleRuns.SubmitOk | linux-4.4.1/block/blk-throttle.c:1396-1489 | a submission keeps them, at whatever level the bio is held back |
| ThrottleSubmit.PassesAll | linux-4.4.1/block/blk-throttle.c:1396-1489 | a bio is issued at once, and nothing else changes, if every group on its way up has nothing of its direction waiting and is within its limits |
| ThrottleSubmit.HeldAtFirst | linux-4.4.1/block/blk-throttle.c:1419-1489 | otherwise it is held at the first group on the way up that has bios of its direction waiting or is out of its limits, behind those that came the same way, and no other list changes |
| ThrottleSubmit.HeldBioRetimes | linux-4.4.1/block/blk-throttle.c:1462-1476 | a bio that is held gives its group the new dispatch time exactly if nothing of its direction was waiting there or the time was due to be worked out anyway; no other group's time changes and the mark is cleared |
| ThrottleSubmit.MovedBioMarks | linux-4.4.1/block/blk-throttle.c:843-865 | a bio that moves up leaves all dispatch times alone and marks the parent exactly if nothing of its direction was waiting there |
| ThrottleRuns.AllDrained | linux-4.4.1/block/blk-throttle.c:1496-1536 | after a walk in which every group comes after its children no group has pending children |
| ThrottleRuns.DrainLeavesNothing | linux-4.4.1/block/blk-throttle.c:1519-1553 | a drain leaves no bio queued anywhere and nothing counted |
| ThrottleRuns.DrainIssuesEachOnce | linux-4.4.1/block/blk-throttle.c:1519-1553 | a drain issues every queued bio exactly once |
| ThrottleWalk.PostOrderHas | linux-4.4.1/block/blk-throttle.c:1532-1533 | a post-order walk from a group visits exactly that group and the groups below it |
| ThrottleWalk.PostOrderIsChildrenFirst | linux-4.4.1/block/blk-throttle.c:1526-1533 | the post-order walk from the root group visits every group after its children, which is the order a drain needs |
| ThrottleWalk.DrainCompletes | linux-4.4.1/block/blk-throttle.c:1519-1553 | after any run, a drain that walks the hierarchy in post-order leaves nothing queued or counted, and every submitted bio has been issued exactly once |
| ThrottleWalk.FlatIsChildrenFirst | linux-4.4.1/block/blk-throttle.c:1526-1536 | in the flat hierarchy, where every group is directly below throtl_data, any walk over all groups is in that order |
| ThrottleRuns.RunsCountRight | linux-4.4.1/block/blk-throttle.c:843-1002 | in every run nr_queued of throtl_data is the sum of the groups', each is the number of bios on its lists, and a group with bios is on its parent's pending tree |
| ThrottleRuns.Conservation | linux-4.4.1/block/blk-throttle.c:843-1553 | in every run each bio is queued or issued exactly as often as it was submitted |
| ThrottleDataObject.ThrotlData.constructor | linux-4.4.1/block/blk-throttle.c:1555-1575 | nothing queued or pending, which is the start of the runs and keeps the invariant |
| ThrottleDataObject.ThrotlData.EnqueueTg | linux-4.4.1/block/blk-throttle.c:451-490 | in place: the group is on its parent's tree once, and the tree stays in order of dispatch time |
| ThrottleDataObject.ThrotlData.DequeueTg | linux-4.4.1/block/blk-throttle.c:492-502 | in place: the group is off its parent's tree |
| ThrottleDataObject.ThrotlData.UpdateTgDisptime | linux-4.4.1/block/blk-throttle.c:867-889 | in place: exactly the new place on the tree, and the flag cleared |
| ThrottleDataObject.ThrotlData.DispatchOneBio | linux-4.4.1/block/blk-throttle.c:901-941 | in place: exactly one bio moved up |
| ThrottleDataObject.ThrotlData.DispatchTg | linux-4.4.1/block/blk-throttle.c:943-974 | in place, as two loops: up to 6 reads and 2 writes moved up |
| ThrottleDataObject.ThrotlData.SelectDispatch | linux-4.4.1/block/blk-throttle.c:976-1002 | in place: exactly one turn of the dispatch loop |
| ThrottleDataObject.ThrotlData.DrainBios | linux-4.4.1/block/blk-throttle.c:1496-1511 | in place, as nested loops: exactly the drain of one service queue |
| ThrottleDataObject.ThrotlData.IssueAll | linux-4.4.1/block/blk-throttle.c:1084-1109 | in place: everything at the top issued, in pop order |
| ThrottleDataObject.ThrotlData.ThrotlDrain | linux-4.4.1/block/blk-throttle.c:1519-1553 | in place: exactly the drain of the model |
| ThrottleDataObject.ThrotlData.ThrotlBio | linux-4.4.1/block/blk-throttle.c:1396-1489 | in place, as a climb: exactly the submission; a bio that is not held back changes nothing but what was issued |
| ThrottleDataObject.PopEach | linux-4.4.1/block/blk-throttle.c:1544-1550 | the loop that empties a list gives its bios in round-robin order |
| DeadlineOrder.InsertIsSorted | linux-4.4.1/block/deadline-iosched.c:76-82 | inserting into the sorted list keeps it sorted by sector |
| DeadlineOrder.InsertAfterSorted | linux-4.4.1/block/deadline-iosched.c:168-187 | taking over the place of an earlier request keeps the FIFO sorted by deadline |
| DeadlineOrder.DispatchOk | linux-4.4.1/block/deadline-iosched.c:243-325 | a dispatch keeps both lists, their contents and at most one next_rq |
| DeadlineOrder.ApplyOk | linux-4.4.1/block/deadline-iosched.c:98-325 | every hook keeps the FIFOs sorted by deadline, both lists holding the same requests, and at most one next_rq |
| DeadlineDelay.PlaceKept | linux-4.4.1/block/deadline-iosched.c:168-187 | a merge moves a request back in its FIFO only by letting one it does not expire before absorb it |
| DeadlineDelay.DelayAfterMerge | linux-4.4.1/block/deadline-iosched.c:168-187 | whatever is merged, the request that carries a given one can be overtaken by no more requests than that one could |
| DeadlineDelay.DelayIs | linux-4.4.1/block/deadline-iosched.c:226-237 | the request in place k can be overtaken by k requests, and by all but one of those behind it with the same deadline |
| DeadlineBound.QuietStep | linux-4.4.1/block/deadline-iosched.c:98-187 | an insert or merge never puts an expired request further back, itself or inside the request that absorbed it |
| DeadlineBound.GoStep | linux-4.4.1/block/deadline-iosched.c:243-325 | a dispatch call sends the expired request out or brings it strictly closer |
| DeadlineBound.RunsGood | linux-4.4.1/block/deadline-iosched.c:340-370 | every state of every run from the empty scheduler keeps the order invariants |
| DeadlineBound.DispatchBound | linux-4.4.1/block/deadline-iosched.c:243-325 | an expired request that k requests can overtake goes out within (k+1)*2*B dispatch calls if it is a read and writes_starved is at least 1, and within (k+1)*(W+1)*B if it is a write, in any run |
| DeadlineBound.PlaceBound | linux-4.4.1/block/deadline-iosched.c:243-325 | the same with k the place in the FIFO plus all but one of the requests behind it with the same deadline; with at most one of those the place alone is the bound |
| DeadlineSweep.SendIs | linux-4.4.1/block/deadline-iosched.c:243-325 | a dispatch sends the next request if the batch goes on or the oldest has not expired, and the oldest otherwise |
| DeadlineSweep.SendSetsNext | linux-4.4.1/block/deadline-iosched.c:192-220 | after a dispatch the next request of its direction is one of least sector among those queued at or above the one sent, or none if there is none, and the other direction has none |
| DeadlineSweep.QuietKeepsNext | linux-4.4.1/block/deadline-iosched.c:98-187 | no insertion and no merge changes the next request, unless it is merged away |
| DeadlineSweep.AbsorbedNext | linux-4.4.1/block/deadline-iosched.c:67-96 | a next request that is merged away is replaced by one of least sector among those queued at or above it |
| DeadlineSweep.SweepsOn | linux-4.4.1/block/deadline-iosched.c:243-325 | two dispatches of one direction with any insertions and merges in between: the second sends the request that followed the first in sector order when that was sent, unless a new batch finds the oldest expired or there was none, in which case it sends the oldest; a request that followed and was merged away apart |
| DeadlineSweep.BatchAscends | linux-4.4.1/block/deadline-iosched.c:243-325 | in every run in which no front merge pulls the next request below the last one sent, the dispatches of a batch have ascending sectors |
| DeadlineSweep.AscendsIffGentle | linux-4.4.1/block/deadline-iosched.c:154-166 | after a front merge of the next request, the batch goes on ascending if and only if the merge did not pull it below the last one sent |
| DeadlineExtents.SectorsConserved | linux-4.4.1/block/deadline-iosched.c:98-325 | in every run in which only adjacent requests are merged, every sector is held by exactly as many requests, queued or dispatched, as it was asked for |
| DeadlineLimits.ReadsStarveWithoutLimit | linux-4.4.1/block/deadline-iosched.c:271-290 | with writes_starved 0 an expired read at the head of its FIFO, added in a run from the empty scheduler, can wait through any number of dispatch calls |
| DeadlineZero.UrgentIff | linux-4.4.1/block/deadline-iosched.c:98-187 | an expired request expires before anything inserted from now on, which the dispatch bound asks for, unless it expires in this very jiffy and the expiry setting is 0 |
| DeadlineZero.ZeroExpiryWaits | linux-4.4.1/block/deadline-iosched.c:98-187 | with an expiry setting of 0 no number of dispatch calls within the jiffy suffices for a request that is alone when it is inserted |
| DeadlineZero.BoundedIff | linux-4.4.1/block/deadline-iosched.c:243-325 | the wait of an expired request that is alone is bounded if and only if its expiry setting is not 0 and, for a read, writes_starved is not 0 |
| DeadlineTies.PlaceIsNoBound | linux-4.4.1/block/deadline-iosched.c:168-187 | at every batch size and every writes_starved from 1 on, some run from the empty scheduler makes a read first in its FIFO and expired, with two requests of the same deadline behind it, and goes on with a merge into the second so that the dispatch calls its place would promise leave it waiting |
| DeadlineDataObject.DeadlineData.constructor | linux-4.4.1/block/deadline-iosched.c:340-370 | the empty scheduler, which keeps the order invariants |
| DeadlineDataObject.DeadlineData.AddRequest | linux-4.4.1/block/deadline-iosched.c:98-111 | in place: exactly the insertion, invariants kept |
| DeadlineDataObject.DeadlineData.MergedRequest | linux-4.4.1/block/deadline-iosched.c:154-166 | in place: a front-merged request repositioned, order invariants kept |
| DeadlineDataObject.DeadlineData.MergedRequests | linux-4.4.1/block/deadline-iosched.c:168-187 | in place: the merge with the earlier deadline and place, order invariants kept |
| DeadlineDataObject.DeadlineData.MoveRequest | linux-4.4.1/block/deadline-iosched.c:204-220 | in place: exactly the move to the dispatch queue, with the one next_rq it sets |
| DeadlineDataObject.DeadlineData.ChooseDirection | linux-4.4.1/block/deadline-iosched.c:262-300 | the direction of a new batch and the starvation counter; the BUG_ONs cannot fire |
| DeadlineDataObject.DeadlineData.DispatchRequests | linux-4.4.1/block/deadline-iosched.c:243-325 | in place: exactly the dispatch, and how many requests it moved |
| DeadlineDataObject.RunsQueued | linux-4.4.1/block/deadline-iosched.c:262-290 | in every run a request on a FIFO is on the sorted list, so the BUG_ONs about an empty tree cannot fire |
| CfqWeights.ActivateGood | linux-4.4.1/block/cfq-iosched.c:1299-1348 | adding a group keeps nr_active and children_weight right everywhere, pending weights or not |
| CfqWeights.DeactivateGood | linux-4.4.1/block/cfq-iosched.c:1375-1406 | deleting a group keeps them right |
| CfqWeights.InactiveHasNoWeight | linux-4.4.1/block/cfq-iosched.c:1391-1392 | a group with nothing active has no children_weight, so the WARN_ON_ONCE cannot fire |
| CfqShares.SharesSumToOne | linux-4.4.1/block/cfq-iosched.c:1318-1345 | the exact compounded shares of the groups on the tree sum to 1 |
| CfqShares.FixedBelowShare | linux-4.4.1/block/cfq-iosched.c:1302-1345 | the fixed-point walk never exceeds the exact share |
| CfqFraction.FixedAboveShare | linux-4.4.1/block/cfq-iosched.c:1318-1345 | and stays within one unit for each level of it |
| CfqFraction.GivenItsShare | linux-4.4.1/block/cfq-iosched.c:1299-1348 | a group that comes onto the tree is given its exact share among the groups then on the tree in units of 1 / 4096, less at most one unit for each level, and at least one unit |
| CfqFraction.WishesTakeEffect | linux-4.4.1/block/cfq-iosched.c:1279-1348 | no weight that was asked for is lost; the group that comes onto the tree and every group above it that becomes active take the weights they were asked to take |
| CfqShares.FixedSumAtMostOne | linux-4.4.1/block/cfq-iosched.c:247-256 | the fixed-point fractions of all groups on the tree, in one state, sum to at most 1 << 12 |
| CfqTree.InsertOrdered | linux-4.4.1/block/cfq-iosched.c:1248-1274 | insertion keeps the tree in order of vdisktime |
| CfqFair.BehindEquals | linux-4.4.1/block/cfq-iosched.c:1248-1274 | a group goes behind every group whose vdisktime is not later and in front of the others, so equals take turns |
| CfqTree.ServiceAddOk | linux-4.4.1/block/cfq-iosched.c:1299-1348 | an add keeps weights, order and min_vdisktime, changes nobody else's time or fraction and gives the group a fraction of at least 1 |
| CfqTree.ServiceDelOk | linux-4.4.1/block/cfq-iosched.c:1375-1406 | a delete keeps them, and nobody on the tree loses its fraction |
| CfqTree.QueueAddOk | linux-4.4.1/block/cfq-iosched.c:1350-1373 | a new queue keeps the invariants; a group that comes onto the tree starts no earlier than min_vdisktime |
| CfqTree.QueueDelOk | linux-4.4.1/block/cfq-iosched.c:1408-1424 | a queue that goes keeps the invariants |
| CfqTree.GetNextOk | linux-4.4.1/block/cfq-iosched.c:978-987 | min_vdisktime moves up and stays at most every vdisktime on the tree |
| CfqFraction.CatchesUp | linux-4.4.1/block/cfq-iosched.c:978-987 | min_vdisktime is brought up to the least vdisktime on the tree |
| CfqTree.ServedOk | linux-4.4.1/block/cfq-iosched.c:1458-1484 | a served group moves right by its scaled charge and nothing else moves, comes or goes |
| CfqFair.MovesByShare | linux-4.4.1/block/cfq-iosched.c:949-957 | a group of fraction f that is served for `charge` moves right by the c with c * f <= charge * 2^24 < (c + 1) * f, and no other group moves |
| CfqFair.StartsBehind | linux-4.4.1/block/cfq-iosched.c:1350-1373 | a group that comes onto the tree starts HZ / 5 behind the last one there, and at min_vdisktime if there is none |
| CfqRuns.RunsOk | linux-4.4.1/block/cfq-iosched.c:1248-1484 | in every run weights, counts, tree order, fractions and min_vdisktime stay right |
| CfqRuns.ReachableShares | linux-4.4.1/block/cfq-iosched.c:1299-1406 | in every reachable state with a group on the tree exact shares sum to 1 and fixed-point shares to at most 1 |
| CfqRuns.MinMonotone | linux-4.4.1/block/cfq-iosched.c:960-987 | min_vdisktime never goes back |
| CfqRuns.LagBound | linux-4.4.1/block/cfq-iosched.c:3181-3191 | two groups that stay on the tree are never further apart than at the start or than the largest scaled charge |
| CfqFair.VirtualTimeIsWork | linux-4.4.1/block/cfq-iosched.c:1458-1484 | in every run in which a group stays on the tree, its virtual time moves by 2^24 times its charges, each divided by the fraction it has then, less at most one unit for each service |
| CfqFair.Fairness | linux-4.4.1/block/cfq-iosched.c:1458-1484 | while two groups stay on the tree, those sums differ by at most their distances at the start and at the end and one unit for each service of either |
| CfqFair.FairShares | linux-4.4.1/block/cfq-iosched.c:247-256 | with fixed fractions, 2^24 times the disk time of each divided by its fraction differs by at most that, the distance at the end being at most that at the start or the largest scaled charge |
| CfqDataObject.CfqData.constructor | linux-4.4.1/block/cfq-iosched.c:1629-1636 | the groups with their weights and nothing on the tree, which is the start of the runs and keeps the invariant |
| CfqDataObject.CfqData.InsertNode | linux-4.4.1/block/cfq-iosched.c:1248-1274 | in place, as a search: exactly the ordered insertion, and the cached leftmost node stays right |
| CfqDataObject.CfqData.EraseNode | linux-4.4.1/block/cfq-iosched.c:1197-1203 | in place: the node is gone and the cached leftmost node stays right |
| CfqDataObject.CfqData.Climb | linux-4.4.1/block/cfq-iosched.c:1336-1345 | in place, as the upward loop: groups activated as the model says, and the fraction is that of the final state although computed on the way; no division by 0 |
| CfqDataObject.CfqData.GroupServiceTreeAdd | linux-4.4.1/block/cfq-iosched.c:1299-1348 | in place: exactly the add |
| CfqDataObject.CfqData.ReleaseWalk | linux-4.4.1/block/cfq-iosched.c:1381-1401 | in place, as the upward loop: exactly the deactivation |
| CfqDataObject.CfqData.GroupServiceTreeDel | linux-4.4.1/block/cfq-iosched.c:1375-1406 | in place: exactly the delete |
| CfqDataObject.CfqData.NotifyQueueAdd | linux-4.4.1/block/cfq-iosched.c:1350-1373 | in place: exactly the notification |
| CfqDataObject.CfqData.NotifyQueueDel | linux-4.4.1/block/cfq-iosched.c:1408-1424 | in place: exactly the notification |
| CfqDataObject.CfqData.GetNextCfqg | linux-4.4.1/block/cfq-iosched.c:3181-3191 | the group with the least vdisktime, and min_vdisktime moved up |
| CfqDataObject.CfqData.GroupServed | linux-4.4.1/block/cfq-iosched.c:1458-1484 | in place: exactly the charge, and the group moves right by the c with c * f <= charge * 2^24 < (c + 1) * f |
| Segments.ScanLegal | linux-4.4.1/block/blk-merge.c:171-239 | the scan cuts the vectors into legal segments that concatenate to them |
| Segments.ScanMinimal | linux-4.4.1/block/blk-merge.c:171-239 | no legal cut has fewer segments than the scan |
| SegmentCount.CountedOk | linux-4.4.1/block/blk-merge.c:250-272 | a recount counts a legal cut of the bio, and sizes that bound its ends where the queue keeps sizes |
| SegmentCount.CutJoin | linux-4.4.1/block/blk-merge.c:275-308 | two cuts whose facing segments are contiguous and small enough make one with a segment less |
| SegmentCount.BackMergeOk | linux-4.4.1/block/blk-merge.c:444-491 | a back merge, done or refused, leaves a count of a legal cut |
| SegmentCount.FrontMergeOk | linux-4.4.1/block/blk-merge.c:493-515 | the same for a front merge |
| SegmentLimit.BackMergeIff | linux-4.4.1/block/blk-merge.c:444-491 | a bio is merged at the back, its vectors behind the others and its segments counted, if and only if it is not refused for other reasons and the counts together are at most max_segments; otherwise vectors and count are as before |
| SegmentLimit.FrontMergeIff | linux-4.4.1/block/blk-merge.c:444-515 | the same at the front |
| SegmentCount.MergeRequestsOk | linux-4.4.1/block/blk-merge.c:528-570 | the same for merging requests, minus-one join included, on every queue if sizes are right, and the vectors are those of both in order |
| SegmentLimit.MergeRequestsIff | linux-4.4.1/block/blk-merge.c:528-570 | requests are merged if and only if that is not refused for other reasons and the counts, less one if the segments that meet become one, are at most max_segments; otherwise both keep vectors and count |
| SegmentCount.RecalcOk | linux-4.4.1/block/blk-merge.c:171-248 | a recount of any chain of bios counts a legal cut of it, whatever sizes the bios carried |
| SegmentCount.RestBiosAll | linux-4.4.1/block/blk-core.c:2623-2638 | dropping the bios that are done and advancing the next takes exactly the completed bytes off the front |
| SegmentCount.ResumeOk | linux-4.4.1/block/blk-core.c:2623-2675 | after a partial completion the recount counts a legal cut of exactly the bytes that are left |
| SegmentMap.SegmentMapSg | linux-4.4.1/block/blk-merge.c:310-351 | one vector extends the last entry or starts one, as the scan does |
| SegmentMap.BiosMapSg | linux-4.4.1/block/blk-merge.c:353-393 | mapping sets up the entries of the scan, and they cover exactly the request's bytes in order |
| SegmentMap.RecalcRqSegments | linux-4.4.1/block/blk-merge.c:171-239 | the counting loop gives the scan's number of segments and the sizes of the first and the last |
| SegmentMap.ScanSubadditive | linux-4.4.1/block/blk-merge.c:171-239 | two chains together need no more segments than apart |
| SegmentSplit.PrefixIsLongest | linux-4.4.1/block/blk-merge.c:71-140 | the front part of a split is the longest prefix the queue takes: sectors, gaps and segments |
| SegmentSplit.ProgressIff | linux-4.4.1/block/blk-merge.c:82-118 | a split leaves something in front if and only if the queue takes the first vector alone |
| SegmentSplit.SplitCounts | linux-4.4.1/block/blk-merge.c:107-158 | what the split hands on is counted as a legal cut with its first and last sizes, on every queue and whatever the bio carried before, within the queue's segments |
| SegmentSplit.SplitBio | linux-4.4.1/block/blk-merge.c:71-140 | the loop finds that prefix, its sectors, its number of segments and the sizes of its first and last |
| SegmentFits.BuiltOk | linux-4.4.1/block/blk-merge.c:171-570 | any history of appends, prepends, merges and partial completions leaves a count of a legal cut |
| SegmentFits.SubmittedFits | linux-4.4.1/block/blk-merge.c:142-441 | on every queue, whatever its flags and limits, a request put together from bios that went through blk_queue_split is mapped to no more entries than nr_phys_segments |
| SegmentLimit.RestFewer | linux-4.4.1/block/blk-merge.c:171-239 | what a partial completion leaves needs no more segments than the whole did |
| SegmentLimit.EntriesWithinQueue | linux-4.4.1/block/blk-merge.c:142-570 | on every queue, a request put together from bios that went through blk_queue_split, by merges and partial completions in any order, is mapped to at most max_segments entries |
| SegmentLimit.CountWithinQueue | linux-4.4.1/block/blk-merge.c:142-570 | its nr_phys_segments is at most max_segments as long as there is no partial completion, and always if SG merging is on or there is no clustering |
| SegmentLimit.CountsVectors | linux-4.4.1/block/blk-merge.c:171-239 | with NO_SG_MERGE and clustering, at any max_segments from 1 on, a request of whole sectors has a counter of twice max_segments after its first sector completes |
| SegmentLimit.CountWithinIff | linux-4.4.1/block/blk-merge.c:171-239 | the counter is within the limit in all such histories, or all in whole sectors, if and only if SG merging is on, or there is no clustering, or max_segments is 0 |
| SegmentFits.PassthroughFits | linux-4.4.1/block/blk-map.c:30-44 | so is a request of uncounted bios that are only appended, as passthrough requests are |
| SegmentFits.MiscountsWithoutSizes | linux-4.4.1/block/blk-merge.c:250-308 | two one-vector requests of bios that bypassed the split would merge into one that counts one segment and maps to two entries |
| SegmentFits.UncountedFitsIff | linux-4.4.1/block/blk-merge.c:250-308 | joining requests of such bios would be safe if and only if SG merging is on, or only one segment is allowed, or there is no clustering, or no window is larger than a segment |
| TagMap.ShiftAndMask | linux-4.4.1/block/blk-mq-tag.h:16-17 | word and bit of a tag are quotient and remainder |
| TagMap.OffersExactly | linux-4.4.1/block/blk-mq-tag.c:516-536 | after a depth change the words offer exactly the tags below the depth if and only if there are words for that depth |
| TagResize.ResizesOffer | linux-4.4.1/block/blk-mq.c:2328-2350 | after any sequence of resizes the map offers exactly the tags below the last depth but 0 that was set |
| TagResize.DepthOfferedIff | linux-4.4.1/block/blk-mq-tag.c:516-536 | depth and words agree if and only if the last resize that was accepted was not to just the reserved tags, which sets the depth to 0 and leaves the words as they were |
| TagResize.CacheStaysIff | linux-4.4.1/block/blk-mq-tag.c:228-240 | after any sequence of resizes, the cached tag that any get leaves has a word if and only if the last accepted resize was not to just the reserved tags, or the words have room to spare |
| TagResize.CacheLeaves | linux-4.4.1/block/blk-mq-tag.c:228-240 | with 8 tags, 4 of them reserved, a resize to 4 leaves a map on which a get of tag 3 caches tag 4, which has no word |
| TagResize.RunsSearchWell | linux-4.4.1/block/blk-mq-tag.c:191-241 | in every run of resizes, gets and puts, a search from a cached tag with a word gives a free tag for which there is a request and changes no other, and under FIFO fails if and only if all are taken |
| TagResize.CachesInRangeIff | linux-4.4.1/block/blk-mq-tag.c:228-240 | in every run of resizes, gets and puts every cached tag has a word if and only if fewer than 4 tags are reserved or the words first allocated have a bit more than there are normal tags |
| TagMap.AllocFits | linux-4.4.1/block/blk-mq-tag.c:538-574 | the words first allocated hold the whole depth |
| TagMap.GetWord | linux-4.4.1/block/blk-mq-tag.c:147-176 | a word search finds a clear bit below the depth, or every bit is set, save below the start when it may not wrap |
| TagMap.GetTakesFree | linux-4.4.1/block/blk-mq-tag.c:191-241 | a tag that is got is one the words offer, was free, and is the only one that changes; where the words agree with the depth it is below the depth |
| TagMap.PutUndoesGet | linux-4.4.1/block/blk-mq-tag.c:380-387 | putting a tag restores the map |
| TagMap.FifoFailsWhenFull | linux-4.4.1/block/blk-mq-tag.c:191-241 | under FIFO a search fails if and only if every tag the words offer is taken, from any cached tag, also a stale one, and whatever the depth says |
| TagMap.RoundRobinFailsTwiceWhenFull | linux-4.4.1/block/blk-mq-tag.c:191-241 | under round robin a failed search resets the cache, and the next fails too if and only if every tag the words offer is taken |
| TagMap.CacheInRange | linux-4.4.1/block/blk-mq-tag.c:228-240 | where the words agree with the depth and hold it, the cached tag keeps a word |
| TagCache.GoesOn | linux-4.4.1/block/blk-mq-tag.c:228-240 | after a search in round robin, or one that found the cached tag, the next tag is the one behind it, if that is free by then, whatever was got and put meanwhile; the last tag is never the one to start with |
| TagCache.TriesAgain | linux-4.4.1/block/blk-mq-tag.c:228-240 | without round robin, after a search that had to take another tag the next one takes the cached tag, if that is free by then |
| TagCache.NeverBack | linux-4.4.1/block/blk-mq-tag.c:147-241 | a search in round robin never goes back within the word it starts in |
| TagCache.OneAtATime | linux-4.4.1/block/blk-mq-tag.c:191-241 | whoever gets and puts one tag at a time, with nobody else about, goes through all tags but the last in turn |
| TagRace.TagsDistinct | linux-4.4.1/block/blk-mq-tag.c:147-421 | in every interleaving of stale searches, test-and-sets, puts and depth changes outstanding tags are distinct, and a tag, reserved or normal, is outstanding exactly while its bit is set |
| TagWake.WakeCnt | linux-4.4.1/block/blk-mq-tag.c:531-533 | the batch is between 1 and 8, and 8 batches fit the depth if that is at least 8 |
| TagWake.BatchIsLargest | linux-4.4.1/block/blk-mq-tag.c:531-533 | it is the largest such batch, and 1 if the depth is below 8 |
| TagWake.NobodyAsleep | linux-4.4.1/block/blk-mq-tag.c:358-378 | the search for a queue to wake finds none only if nobody sleeps |
| TagWake.FreeCounts | linux-4.4.1/block/blk-mq-tag.c:380-403 | while anybody sleeps, a free brings the wakeup of all closer by exactly one |
| TagWake.OneBatch | linux-4.4.1/block/blk-mq-tag.c:380-403 | one queue at a time is counted down and then it alone is woken, its count is set again and the next free starts behind it |
| TagWake.DepthIsEnough | linux-4.4.1/block/blk-mq-tag.c:516-536 | freeing a whole tag space of at least 8 wakes everybody, if no larger batch is left over from before a resize |
| TagWake.NoSleeperLost | linux-4.4.1/block/blk-mq-tag.c:273-403 | in every run of frees, sleeps, leaves and resizes, whoever sleeps is woken or has left by the time of the next 8 * wake_cnt frees without new sleepers, wake_cnt being the largest there has been |
| TagWake.WaitStates.constructor | linux-4.4.1/block/blk-mq-tag.c:576-588 | the wait states of a new map: every queue counts down from at least 1 and nobody sleeps |
| TagWake.WaitStates.WakePtr | linux-4.4.1/block/blk-mq-tag.c:358-378 | in place, as a loop: the first queue with sleepers, and wake_index moved to it |
| TagWake.WaitStates.ClearTag | linux-4.4.1/block/blk-mq-tag.c:389-402 | in place: exactly the free of the model; the count never goes below zero |
| TagWake.WaitStates.UpdateDepth | linux-4.4.1/block/blk-mq-tag.c:659-672 | in place: the new batch, and everybody woken; the counts are left as they are |
| TagDataObject.BitmapTags.GetWordBit | linux-4.4.1/block/blk-mq-tag.c:147-176 | as a loop: exactly the search of a word |
| TagDataObject.BitmapTags.GetTag | linux-4.4.1/block/blk-mq-tag.c:191-241 | in place, as a loop over words: exactly the search, the bit set and the cache moved |
| TagDataObject.BitmapTags.ClearTag | linux-4.4.1/block/blk-mq-tag.c:380-387 | in place: that tag is free and no other tag changed |
| TagDataObject.BitmapTags.UpdateDepth | linux-4.4.1/block/blk-mq-tag.c:516-536 | in place, as a loop: exactly the new depths; a depth of 0 leaves the words as they were |
| MqMap.SlotsDistinct | linux-4.4.1/block/blk-mq.c:1821-1831 | software queues of one hardware queue have different slots below nr_ctx |
| MqMap.SlotUsed | linux-4.4.1/block/blk-mq.c:1821-1831 | every slot below nr_ctx belongs to a software queue |
| MqMap.MapSwqueue | linux-4.4.1/block/blk-mq.c:1812-1831 | the loop gives every mapped software queue its index and finds it there |
| MqPending.RunsOk | linux-4.4.1/block/blk-mq.c:52-79 | if offline handlers clear only their own bit, in every interleaving an unlocked software queue with requests is marked or being flushed |
| MqPending.StrandsOther | linux-4.4.1/block/blk-mq.c:1573-1613 | otherwise there is a run that strands the requests of another software queue |
| MqPending.NeverStrandedIff | linux-4.4.1/block/blk-mq.c:688-716 | no run strands a request if and only if no offline handler that is called clears the bit of another software queue |
| MqPending.OwnHandlerIsSafe | linux-4.4.1/block/blk-mq.c:1573-1593 | the handler of a software queue's own hardware queue clears only its own bit |
| MqOffline.SwqueuesValid | linux-4.4.1/block/blk-mq.c:1821-1831 | the mapping gives every software queue a slot of its own |
| MqOffline.ForeignBit | linux-4.4.1/block/blk-mq.c:1573-1593 | with two hardware queues in use some handler clears, for a software queue of the other, the bit of one of its own |
| MqOffline.OfflineSafeIff | linux-4.4.1/block/blk-mq.c:1573-1697 | with the indices of the mapping and every handler called, no run strands a request if and only if all software queues are on one hardware queue |
| MqPending.FlushBusyCtxs | linux-4.4.1/block/blk-mq.c:688-716 | the loop, alone, empties every marked software queue in slot order and leaves no mark |
| BioChain.LoopIsRecursion | linux-4.4.1/block/bio.c:299-306 | the flattened completion loop does what the recursive definition does |
| BioChain.EndioOk | linux-4.4.1/block/bio.c:1712-1765 | counting a completion keeps every bio's count equal to what it waits for, however far it is passed up |
| BioChain.ChainOk | linux-4.4.1/block/bio.c:312-337 | chaining a bio keeps the counts |
| BioChain.EndsOnceAfterSubtree | linux-4.4.1/block/bio.c:1712-1765 | in every run and completion order a root's end_io has run exactly once if its whole tree has completed, a chained bio has been put exactly once if its subtree has, and neither before |
| BioChain.RemainingPositive | linux-4.4.1/block/bio.c:1712-1729 | the BUG_ON of the counter cannot fire |
| BioErrors.ErrorsGoUp | linux-4.4.1/block/bio.c:1740-1765 | a completion reaches the bio it is for and every bio that it finishes one below; these take over its error and no other error changes |
| BioErrors.ErrorReportedIff | linux-4.4.1/block/bio.c:299-306 | a bio is split into any number of pieces and these complete in any order: when all have, it is finished, and it has an error if and only if one of them failed and no piece completed successfully after it |
| BioErrors.ErrorLost | linux-4.4.1/block/bio.c:299-306 | with two pieces, the error of the first is lost when the second succeeds |
| BioChain.BioPool.BioEndio | linux-4.4.1/block/bio.c:1740-1765 | in place, as the loop: exactly the completion |
| BioChain.BioPool.BioChain | linux-4.4.1/block/bio.c:330-337 | in place: the chaining, after which every count still equals what is waited for |
| RequestBios.BioMergeOk | linux-4.4.1/block/blk-core.c:1543-1587 | a bio merged where blk_try_merge says keeps length, position and contiguity |
| RequestBios.MergeRequestsOk | linux-4.4.1/block/blk-merge.c:622-697 | merging contiguous requests keeps them |
| RequestBios.TryMergeIff | linux-4.4.1/block/blk-merge.c:753-760 | a bio is merged at the back if and only if the longer request would agree with its bios, and at the front if and only if that would and it does not fit at the back |
| RequestBios.JoinsIff | linux-4.4.1/block/blk-merge.c:622-697 | two mergeable requests are joined if and only if their bios together are contiguous, and are left alone otherwise |
| RequestBios.NotBotched | linux-4.4.1/block/blk-core.c:2665-2672 | the "request botched" branch is unreachable |
| RequestBios.UpdateAgreesIff | linux-4.4.1/block/blk-core.c:2624-2678 | a completion keeps request and bios in agreement if and only if it is in whole sectors or completes all |
| RequestBios.UpdateReturns | linux-4.4.1/block/blk-core.c:2558-2565 | there is more exactly if fewer bytes than the request has complete; what was ended and what is left are what was there |
| RequestBios.EveryBioEndsOnce | linux-4.4.1/block/blk-core.c:2566-2678 | after any run, completing blk_rq_bytes returns false and ends every bio that ever came in exactly as often as it came in |
| RequestBios.BlockRequest.AttemptBackMerge | linux-4.4.1/block/blk-core.c:1543-1563 | in place: a bio that blk_try_merge puts behind leaves length, position and contiguity in agreement |
| RequestBios.BlockRequest.AttemptFrontMerge | linux-4.4.1/block/blk-core.c:1565-1587 | in place: the same for a bio that blk_try_merge puts in front |
| RequestBios.BlockRequest.ConsumeBios | linux-4.4.1/block/blk-core.c:2623-2639 | the loop takes whole bios off the front, ends exactly those and advances the next |
| RequestBios.BlockRequest.UpdateRequest | linux-4.4.1/block/blk-core.c:2566-2678 | in place: exactly the completion |
| Discard.ChunkEnd | linux-4.4.1/block/blk-lib.c:84-103 | a chunk has at least one sector, at most UINT_MAX >> 9, and ends aligned if anything is left |
| Discard.ChunkIsLongest | linux-4.4.1/block/blk-lib.c:84-103 | no longer chunk within the limit ends aligned or takes all that is left |
| Discard.ChunksTile | linux-4.4.1/block/blk-lib.c:74-120 | the chunks tile the range, and every inner boundary is aligned |
| Discard.IssueDiscard | linux-4.4.1/block/blk-lib.c:74-120 | the loop ends and submits exactly those chunks |
| Discard.SplitSectors | linux-4.4.1/block/blk-merge.c:12-53 | a split is within the device's limit and leaves the rest aligned; none is made exactly if the bio fits or no whole grain does |
| Discard.MaxDiscardIs | linux-4.4.1/block/blk-merge.c:27-28 | the limit is the largest whole number of grains that the device and bi_size allow |
| Discard.SplitIsLongest | linux-4.4.1/block/blk-merge.c:12-53 | a split takes as many sectors as the limit and the alignment allow |
| Discard.PiecesTile | linux-4.4.1/block/blk-merge.c:12-53 | splitting again and again tiles the bio with pieces within the limit, aligned after the first |
| Discard.TooSmallIsNotSplit | linux-4.4.1/block/blk-merge.c:29-32 | a device that cannot discard a whole grain gets the bio as it is, exactly if its limit is below a grain |

## Left out

- A request without data that carries REQ_FUA is excluded from the flush machine, as the head of blk-flush.c excludes
  it.
- The blk-mq variant of the flush hooks, requeueing of the flush request, and which list head the driver queue uses.
- Jiffies wrap-around: the clock is an unbounded natural number, and comparisons are those of the unwrapped times.
- Parent slices restarted with credit, limit changes and drains in the rate bound; they relax the limit on purpose.
- ThrottleBacklog.BacklogGetsRate: slices are at least two jiffies (HZ is at least 20), the group is never refused for
  its I/O rate, and it comes back exactly when told.
- ThrottleRuns.SelectOk: the verdicts of the rate check are inputs, so it does not say how many bios a group
  dispatches.
- ThrottleDataObject.ThrotlData.UpdateTgDisptime: the dispatch time is an input; that it is the least wait of the rate
  check is not modelled.
- ThrottleDataObject.ThrotlData.DispatchTg: how many bios may go is an input, for the same reason.
- ThrottleDataObject.ThrotlData.SelectDispatch: the verdicts are inputs; that the group served is the earliest is
  SelectsEarliest.
- ThrottleDataObject.ThrotlData.ThrotlBio: whether the bio is within the limits of each level is an input.
- Reference counts of groups, pending timers and the work queue of throttling.
- DeadlineExtents.SectorsConserved: that only adjacent requests are merged is the business of attempt_merge, which
  RequestBios.JoinsIff is about.
- The elevator core: hashing of requests, back-merge caches, and the choice of merge candidates.
- CFQ below groups: queues, idling, seek and think-time heuristics, preemption, and the count field of the group tree.
- CfqDataObject.CfqData.GroupServed: as CfqTree.ServedOk.
- CfqTree.ServedOk: the products and sums of virtual time are unbounded integers; 64-bit overflow is not modelled.
- CfqShares.FixedBelowShare: the weight sums are unbounded integers; 32-bit overflow with very many groups is not
  modelled.
- Creation and removal of CFQ and throttling groups: the tree is fixed during a run.
- SegmentLimit.CountWithinIff: segments and windows of at least 2048 bytes; blk-settings.c keeps both at a page or
  more.
- SegmentSplit.SplitBio: vectors are whole sectors; the code rounds each length down to sectors before it cuts.
- SegmentSplit.PrefixIsLongest: as SegmentSplit.SplitBio.
- Segments of discards and WRITE SAME requests, padding and drain entries of scatterlists, and integrity segments.
- The fair share of shared tag maps (hctx_may_queue) is an input of the search, and sleeping in bt_get is a step of
  its own.
- TagRace.TagsDistinct: a search is any proposal of a bit there is, which covers stale results; memory barriers are
  not modelled.
- MqPending.NeverStrandedIff: the calls are a parameter here, and those the code makes are fixed in OfflineSafeIff.
- MqOffline.OfflineSafeIff: all CPUs are online when the queues are mapped, the mapping is fixed during a run, and
  running the hardware queue after an insertion is not modelled.
- BioErrors.ErrorReportedIff: the pieces are chained to one bio, as repeated splits chain them; deeper trees have only
  the step, ErrorsGoUp. Success does not touch bi_error, as in req_bio_endio.
- RequestBios.EveryBioEndsOnce: REQ_FLUSH_SEQ requests keep their bios back, which is the subject of the flush
  modules.
- Bio cloning, bounce buffers, memory pools, sysfs, ioctl and cgroup files.
