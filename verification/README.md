# GroundCore planning core: a verified model

GroundCore is a satellite ground-station platform. This project models the stateful planning
code at its centre and proves what that code guarantees over whole runs: the tasking scheduler
and the plans compiled for it, the resource allocator and the hardware pool, the pass schedule
with its conflict detection and optimizer, the divergence detector, the hash-chained log,
shadow failover, the two ring buffers, pass prediction and the Doppler schedule.

`dafny verify dfyconfig.toml` checks every file.

## Reading the model

One module per source file or component. Code that only computes is modelled by functions.
Objects that change in place are classes (`TaskingScheduler`, `ResourceAllocator`, `Pool`,
`DivergenceDetector`, `Log`, `PassAcquisition`, `ShardRing`, `SampleRing`); each of their methods
is proved against a function on plain values, and the run-level theorems are about those
functions. A `seq` or `map` field stands for a `Vec`, `VecDeque` or `HashMap` the object owns.

Conventions: `f64` is `real`; instants and durations are nanoseconds in an `int`; UUIDs are ids
supplied by the caller and fresh where a predicate says so; the clock, random numbers and the
iteration order of hash maps are parameters or arbitrary choices; a region holding a lock is one
atomic step; the entry digest, elevation and range of an orbital sample, and the demodulator's
per-sample step are parameters. The digest is assumed injective only in the lemmas that say so.

| module | source |
|---|---|
| `Tasking`, `MissionCompiler` | `oisl/src/mission/scheduler.rs`, `oisl/src/mission/compiler.rs`, `oisl/src/lib.rs` |
| `ResourceAllocation` | `oisl/src/resource/allocator.rs` |
| `HardwarePool` | `hardware/src/pool.rs` |
| `PassSchedule`, `Optimizer` | `scheduler/src/schedule.rs`, `scheduler/src/optimization.rs` |
| `Divergence` | `digital-twin/src/divergence.rs` |
| `BitemporalLog` | `bitemporal/src/log.rs` |
| `ShadowFailover` | `rf-layer/src/shadow.rs`, `rf-layer/src/demodulator.rs` |
| `RingBuffers` | `hardware/src/shard.rs`, `rf-layer/src/sdr.rs` |
| `PassPrediction` | `constellation/src/pass.rs` |
| `DopplerSchedule` | `rf-layer/src/doppler.rs` |

`Timeline` and `Modular` hold shared definitions and facts about remainders.

## What does not hold as documented

The model follows the code. Where its documentation promises more, the exact condition is proved.

- `schedule` does not always return: it stops exactly when the whole queue is grounded, or some
  grounded part of it has no timeline (`Tasking.StopsIff`); otherwise it rotates forever, as it
  does on a single task whose dependency is absent (`Tasking.LoneBlockedTaskSpins`).
- An observation plan delivers nothing: each downlink gets a window of 300 s and needs 600 s, so a
  plan can be scheduled exactly when it revisits every 300 s or more and no ground station is found
  for any downlink (`MissionCompiler.ObservationPlanSucceedsIff`); otherwise it fails on the first
  shortage (`MissionCompiler.ObservationPlanFails`, `MissionCompiler.ShortRevisitFails`).
- Custody is meant to last the full persistence. It covers the smaller of horizon and persistence
  exactly when that duration fits in 540 s per segment plus 60 s
  (`MissionCompiler.CustodyCoversIff`), never past 100 minutes. The number of segments comes from
  whole seconds, so 600 s and one nanosecond are not covered either.
- A failed hardware allocation is not undone: what it took before failing stays held through
  every later run (`HardwarePool.FailedAllocationOrphans`, `HardwarePool.OrphanedForever`), unless
  a release of the same pass that was already under way lists the device, or the device is added
  to the pool anew. Two overlapping releases of one pass lose a device although nothing fails
  (`HardwarePool.OverlappingReleasesLoseADevice`). `HardwarePool.NoDeviceLostIff` says exactly
  which interleavings end with every held device accounted for.
- Failover is described as lossless. Promotion rolls the demodulator back to the latest snapshot,
  so on increasing sample ids, for every demodulator that records the id of its last sample as the
  source's does, it is lossless exactly while the last id is below the snapshot interval
  (`ShadowFailover.FailoverIsLosslessIff`), although the shadow state still holds the live one.
- An accepted log need not verify: it does in every map order exactly when the first entry names
  no predecessor and reception times strictly increase (`BitemporalLog.LogVerifiesIff`); for every
  digest some accepted log fails (`BitemporalLog.LateEntryBreaksTheChain`).
- A tenant can exceed its quota by releasing, once negative claims were granted
  (`ResourceAllocation.NegativeClaimsBreakTheQuota`). No release or preemption can do so exactly
  when each quota covers the tenant's positive claims (`ResourceAllocation.RemovalsKeepQuotaIff`).
- A pass that lists one device twice in a nonempty window is reported as conflicting with itself
  (`PassSchedule.ReportNamesClashes`), and the role-by-role test misses exactly the devices shared
  across roles only (`PassSchedule.SharedIff`).
- Incremental optimization scores the tail alone, so an accepted move can make the whole schedule
  worse (`Optimizer.TailGainCanBeAWholeLoss`). Over all configurations, tails and draws, neither a
  move nor a run of the loop lowers the whole score exactly when fewer than two started passes are
  still running (`Optimizer.MoveKeepsWholeIff`, `Optimizer.ClimbKeepsWholeIff`).
- The radio's buffer can be read through a shared reference. Any run of concurrent reads delivers
  the distinct samples held once and in order exactly when no two reads that deliver something
  overlap (`RingBuffers.ConcurrentReadsAreFifoIff`); two that loaded the same counters repeat
  items or push the tail past the head (`RingBuffers.OverlappingReadsAreFifoIff`).
- From an empty schedule the annealer schedules something as soon as its first request lasts five
  minutes and gets distinct devices, and nothing at all if no request lasts five minutes
  (`Optimizer.Optimize`).
- The optimizer's preemption move only swaps neighbours, which cannot change the score
  (`Optimizer.SwapKeepsScore`), so incremental optimization never reorders passes. Its shift move
  spans zero to ten minutes; it is the documented one to five exactly for the remainders that
  `Optimizer.ShiftAsDocumentedIff` names.
- Below 1 kHz the Doppler schedule repeats sample ids (`DopplerSchedule.BuiltIdsIncreaseIff`).

## Model

| member | source | states |
|---|---|---|
| `Timeline.OverlapsIff` | oisl/src/lib.rs:124-126 | Two windows overlap if and only if they share an instant, or one is empty and strictly inside the other. |
| `Tasking.FitsInIff` | oisl/src/mission/scheduler.rs:117-129 | What each kind needs, in seconds: 300 for an observation or relay, 600 for a downlink, 30 for a link, and for a transfer the whole seconds at 10^9 bits per second. |
| `Tasking.RivalsIff` | oisl/src/mission/scheduler.rs:160-188 | Two tasks with nonempty windows are rivals if and only if both set up links to one terminal and their windows share an instant. |
| `Tasking.LatestEnd` | oisl/src/mission/scheduler.rs:136-142 | The largest end among the dependencies that are placed, or none. |
| `Tasking.StartTimeIsEarliest` | oisl/src/mission/scheduler.rs:132-145 | The chosen start respects window and placed dependencies, and no start that does is earlier. |
| `Tasking.StepKeepsConsistent` | oisl/src/mission/scheduler.rs:77-158 | One turn of the loop keeps every placed task in its window, for its duration, after its direct dependencies. |
| `Tasking.ReplayKeepsConsistent` | oisl/src/mission/scheduler.rs:64-108 | The same over every interleaving of enqueues and turns with fresh ids. |
| `Tasking.EveryRunRespectsDependencies` | oisl/src/mission/scheduler.rs:64-158 | In every such run from an empty scheduler, including runs that hit errors, every placed task is inside its window, and it starts after the end of every transitive dependency. |
| `Tasking.Progress` | oisl/src/mission/scheduler.rs:70-108 | Rotation places every ranked set of queued tasks unless a placement fails first (measure: tasks left, then the position of a ready one). |
| `Tasking.GroundedStops` | oisl/src/mission/scheduler.rs:70-75 | With no missing and no cyclic dependency the loop terminates. |
| `Tasking.StopsIff` | oisl/src/mission/scheduler.rs:70-88 | The loop terminates if and only if the queue is grounded or a grounded part of it has no timeline. |
| `Tasking.NothingReadySpins` | oisl/src/mission/scheduler.rs:70-88 | While no queued task is ready the loop runs on for every number of turns, placing nothing, recording nothing and keeping the same tasks queued. |
| `Tasking.LoneBlockedTaskSpins` | oisl/src/mission/scheduler.rs:70-88 | In particular one task with a missing dependency, itself included, is an input on which `schedule` never returns. |
| `Tasking.FailureHasACause` | oisl/src/mission/scheduler.rs:147-155 | A run that ends in an error has met grounded tasks for which no timeline exists. |
| `Tasking.FailureNamesShortage` | oisl/src/mission/scheduler.rs:147-155 | The error of any failed run names a queued task, the least time its kind needs, and the shorter time left after the latest of its window's start and its dependencies' ends. |
| `Tasking.LoneTaskSucceedsIff` | oisl/src/mission/scheduler.rs:110-158 | A task without dependencies is scheduled if and only if its window lasts as long as its kind needs. |
| `Tasking.SuccessPlacesAll` | oisl/src/mission/scheduler.rs:70-108 | On success the queue is empty, exactly the queued tasks are added, and each starts at the least time any timeline allows. |
| `Tasking.SucceedsIff` | oisl/src/mission/scheduler.rs:70-158 | `schedule` succeeds if and only if the queue is grounded and some timeline exists. |
| `Tasking.OrderDoesNotMatter` | oisl/src/mission/scheduler.rs:70-158 | Any queue order of the same tasks succeeds together and yields the same timeline. |
| `Tasking.InOrderNeverRequeues` | oisl/src/mission/scheduler.rs:71-88 | A plan whose dependencies point backwards is consumed front to back without re-queueing. |
| `Tasking.TaskingScheduler.constructor` | oisl/src/mission/scheduler.rs:56-62 | Starts with empty queue, timeline and conflict list. |
| `Tasking.TaskingScheduler.Enqueue` | oisl/src/mission/scheduler.rs:65-67 | Appends to the queue and changes nothing else. |
| `Tasking.TaskingScheduler.DetectConflicts` | oisl/src/mission/scheduler.rs:160-188 | Reports a contention exactly when a placed link task uses the same terminal in an overlapping window, and names such a pair. |
| `Tasking.TaskingScheduler.ScheduleSingleTask` | oisl/src/mission/scheduler.rs:77-108 | Does exactly one turn of the value-level loop, recording at most one contention. |
| `Tasking.TaskingScheduler.Schedule` | oisl/src/mission/scheduler.rs:70-75 | Whenever the loop stops, the object ends in the state and result of that run; on success the queue is empty and exactly the queued tasks were placed. |
| `Tasking.TaskingScheduler.ScheduleWithin` | oisl/src/mission/scheduler.rs:70-75 | For every queue, stopping or not, the object after any number of turns is in the state and result of that many turns of the value-level loop. |
| `MissionCompiler.NumSegments` | oisl/src/mission/compiler.rs:457-464 | The least number of 600 s segments covering the seconds, and at least one. |
| `MissionCompiler.Relays` | oisl/src/mission/compiler.rs:467-471 | Exactly the satellites other than the target, in map order. |
| `MissionCompiler.RelaysAppend` | oisl/src/mission/compiler.rs:467-471 | The relays keep the order of the constellation. |
| `MissionCompiler.CompileCustody` | oisl/src/mission/compiler.rs:432-540 | Error cases, and otherwise the chain of segment tasks and link reservations with their ids and bandwidth, segment by segment. |
| `MissionCompiler.CustodySegmentIsReserved` | oisl/src/mission/compiler.rs:482-537 | Each segment is a 600 s link task 540 s after the one before, waiting for it only; its reservation joins the task's satellite to the task's peer terminal over the task's window, at 10 Mbps, with each end's own terminal. |
| `MissionCompiler.CoverageIsContiguous` | oisl/src/mission/compiler.rs:482-488 | The windows leave no gap up to 540 n + 60 s and cover nothing later. |
| `MissionCompiler.AtMostTwoAtOnce` | oisl/src/mission/compiler.rs:462-488 | Neighbours overlap by exactly 60 s and no instant lies in three windows. |
| `MissionCompiler.CustodyCoversIff` | oisl/src/mission/compiler.rs:454-488 | For all durations, with n segments: all of the smaller of horizon and persistence is covered if and only if it is at most 540 n + 60 s; the shortfall is below 60 (n-1) + 1 s. |
| `MissionCompiler.LongCustodyFallsShort` | oisl/src/mission/compiler.rs:454-488 | Past 6000 s the last requested instant is never covered. |
| `MissionCompiler.HandoverChangesRelay` | oisl/src/mission/compiler.rs:490 | Consecutive segments use different relays if and only if there are two or more. |
| `MissionCompiler.CustodyStep` | oisl/src/mission/compiler.rs:494-509 | The scheduler places the next segment at once, at the start of its window, with a contention from the second on. |
| `MissionCompiler.CustodyPlanIsScheduled` | oisl/src/mission/compiler.rs:480-537 | A custody plan is placed completely, with no re-queue, each segment at its window start, and exactly n-1 contentions. |
| `MissionCompiler.CompileDataRelay` | oisl/src/mission/compiler.rs:231-330 | Error cases, the poisoned router lock among them, and otherwise one chained link task and one reservation per hop. |
| `MissionCompiler.RelayTasksAreAChain` | oisl/src/mission/compiler.rs:275-298 | What is emitted is a chain: each hop waits for the one before it only. |
| `MissionCompiler.RelayHopIsReserved` | oisl/src/mission/compiler.rs:275-325 | Each hop's reservation joins the task's satellite to the task's peer terminal over the task's window, with the hop's bandwidth. |
| `MissionCompiler.RelayPlanSucceedsIff` | oisl/src/mission/compiler.rs:275-298 | A relay plan never waits on the queue and is placed if and only if every window leaves 30 s per link from each earlier hop. |
| `MissionCompiler.NumRevisits` | oisl/src/mission/compiler.rs:348-353 | The number of whole revisits in the horizon, and at least one. |
| `MissionCompiler.CompileObservation` | oisl/src/mission/compiler.rs:333-430 | No satellite is an error; otherwise one observation per revisit, each followed by a downlink and its reservation when a station is found. |
| `MissionCompiler.DownlinkIsReserved` | oisl/src/mission/compiler.rs:364-425 | Observation windows start one revisit apart and last at most 600 s; a downlink follows on the same satellite, waits for its observation only, and is reserved from that satellite's terminal to its station's over its window. |
| `MissionCompiler.ObservationPlanSucceedsIff` | oisl/src/mission/compiler.rs:364-425 | An observation plan is scheduled if and only if it revisits every 300 s or more and holds no downlink. |
| `MissionCompiler.ObservationPlanFails` | oisl/src/mission/compiler.rs:387-412 | With a downlink and revisits of 300 s or more it fails on a downlink, required 600 s and available 300 s. |
| `MissionCompiler.ShortRevisitFails` | oisl/src/mission/compiler.rs:364-385 | With shorter revisits it fails on its first observation, required 300 s and available the revisit. |
| `ResourceAllocation.FirstConflict` | oisl/src/resource/allocator.rs:204-224 | None exactly when no allocation on the terminal overlaps the window. |
| `ResourceAllocation.AllocateGrantsIff` | oisl/src/resource/allocator.rs:94-146 | A claim is granted if and only if usage plus claim is within the tenant's quota, if any, and no live allocation of the terminal shares an instant with the window; what is recorded is the call. Otherwise nothing changes and the error is the quota or the first collision in the list. |
| `ResourceAllocation.Position` | oisl/src/resource/allocator.rs:150-156 | A position holding the id, or none exactly when the id is absent. |
| `ResourceAllocation.ApplyKeepsExclusive` | oisl/src/resource/allocator.rs:94-201 | Every operation keeps ids unique and terminals exclusive. |
| `ResourceAllocation.EveryRunIsExclusive` | oisl/src/resource/allocator.rs:94-224 | In every run no two live allocations on one terminal overlap in time. |
| `ResourceAllocation.NoInstantTwice` | oisl/src/resource/allocator.rs:94-224 | After any run from the empty allocator no instant of a terminal is allocated twice. |
| `ResourceAllocation.SetQuotaKeepsQuotaIff` | oisl/src/resource/allocator.rs:89-91 | Setting a quota keeps all tenants within quota if and only if the tenant's usage fits it. |
| `ResourceAllocation.RaisingAQuotaIsAdmissible` | oisl/src/resource/allocator.rs:89-91 | A quota set before the tenant's first allocation, or raised, is such a quota. |
| `ResourceAllocation.ApplyKeepsQuota` | oisl/src/resource/allocator.rs:102-146 | Every admissible operation keeps all tenants within quota. |
| `ResourceAllocation.EveryRunStaysWithinQuota` | oisl/src/resource/allocator.rs:94-237 | In every admissible run a tenant's total power never exceeds its quota. |
| `ResourceAllocation.NegativeClaimsBreakTheQuota` | oisl/src/resource/allocator.rs:149-172 | A run from the empty allocator after which a release pushes a tenant over its quota. |
| `ResourceAllocation.ReleaseKeepsQuotaIff` | oisl/src/resource/allocator.rs:149-172 | Removing one allocation keeps all tenants within quota if and only if its tenant has no quota or its usage without the claim fits. |
| `ResourceAllocation.RemovalsKeepQuotaIff` | oisl/src/resource/allocator.rs:149-201 | Every run of releases and preemptions stays within quota if and only if each quota covers its tenant's positive claims. |
| `ResourceAllocation.CriticalIsNeverPreempted` | oisl/src/resource/allocator.rs:57-60 | A critical allocation survives every run that does not release it by id. |
| `ResourceAllocation.PreemptsExactlyIff` | oisl/src/resource/allocator.rs:175-201 | After any run from the empty allocator preempting a live allocation removes exactly it unless it is critical, which is refused; an unknown id is reported. |
| `ResourceAllocation.IdsForWithout` | oisl/src/resource/allocator.rs:158-169 | Removing an allocation removes its id, and nothing else, from every index entry. |
| `ResourceAllocation.IndexesAfterAppend` | oisl/src/resource/allocator.rs:131-144 | Both indexes still list exactly the live allocations in list order after a grant. |
| `ResourceAllocation.IndexesAfterRemoval` | oisl/src/resource/allocator.rs:158-169 | And after a removal. |
| `ResourceAllocation.IndexedScanIsFullScan` | oisl/src/resource/allocator.rs:203-224 | Walking a terminal's index entry finds the same first conflict as scanning the whole list. |
| `ResourceAllocation.IndexedSumIsFullSum` | oisl/src/resource/allocator.rs:226-237 | Summing a tenant's index entry equals the sum over the whole list. |
| `ResourceAllocation.ResourceAllocator.constructor` | oisl/src/resource/allocator.rs:79-86 | Empty ledger, indexes in agreement. |
| `ResourceAllocation.ResourceAllocator.SetTenantQuota` | oisl/src/resource/allocator.rs:89-91 | Sets the tenant's quota and changes nothing else. |
| `ResourceAllocation.ResourceAllocator.CheckConflicts` | oisl/src/resource/allocator.rs:204-224 | Through the index, the first conflict of a full scan. |
| `ResourceAllocation.ResourceAllocator.TenantUsage` | oisl/src/resource/allocator.rs:227-237 | Through the index, the tenant's power over the whole list. |
| `ResourceAllocation.ResourceAllocator.Allocate` | oisl/src/resource/allocator.rs:94-146 | Same result and ledger as the index-free allocator; indexes stay in agreement. |
| `ResourceAllocation.ResourceAllocator.Release` | oisl/src/resource/allocator.rs:149-172 | Same for release, including the unknown id. |
| `ResourceAllocation.ResourceAllocator.Preempt` | oisl/src/resource/allocator.rs:175-201 | Same for preemption, refusing what is not preemptible. |
| `HardwarePool.TakeEffect` | hardware/src/pool.rs:271-280 | What an allocation does to one device: held devices are untouched, and on success every listed one was free and is now held. |
| `HardwarePool.TakeFailsPartway` | hardware/src/pool.rs:274-280 | A failing allocation has already taken every device before the first bad id. |
| `HardwarePool.TakeSucceedsIff` | hardware/src/pool.rs:143-154 | An allocation succeeds if and only if the ids are distinct and each names a device of the pool that is healthy and unheld. |
| `HardwarePool.TakeErrorIsFirst` | hardware/src/pool.rs:271-280 | A failing one reports the first id it cannot take: not found if and only if the pool lacks it, else not available. |
| `HardwarePool.FreeEffect` | hardware/src/pool.rs:307-312 | A release frees exactly the listed devices that the pass itself holds. |
| `HardwarePool.AllocateKeepsRecords` | hardware/src/pool.rs:265-293 | An allocation, failed or not, keeps every live record's devices held by its pass. |
| `HardwarePool.FinishKeepsRecords` | hardware/src/pool.rs:307-315 | So does a release acting on a stale copy of its record. |
| `HardwarePool.AddDeviceIsSafeIff` | hardware/src/pool.rs:231-234 | Adding a device in any state keeps the records held if and only if every live record that lists its id belongs to the pass the device names as holder; for a free device, if and only if none lists it. |
| `HardwarePool.EveryInterleavingHolds` | hardware/src/pool.rs:265-318 | In every interleaving each device of a live record is held by exactly that pass. |
| `HardwarePool.NoSharedDevice` | hardware/src/pool.rs:265-318 | So no two live records share a device. |
| `HardwarePool.MarkedUnhealthy` | hardware/src/pool.rs:340-346 | Marking changes the health of one device and nothing else. |
| `HardwarePool.UnhealthyIsNeverTaken` | hardware/src/pool.rs:143-154 | An unhealthy device is handed to no one in any later run that does not add it anew. |
| `HardwarePool.FailedAllocationOrphans` | hardware/src/pool.rs:274-280 | A failed allocation leaves the pool unchanged if and only if it fails on its first device; otherwise what it took is orphaned. |
| `HardwarePool.ReallocationOrphans` | hardware/src/pool.rs:289-290 | Allocating again for a pass with a live record orphans the old record's devices. |
| `HardwarePool.StaleReleaseOrphans` | hardware/src/pool.rs:307-315 | A release finishing on a stale copy removes its pass's newer record and orphans the devices no unfinished release of the pass lists. |
| `HardwarePool.OverlappingReleasesLoseADevice` | hardware/src/pool.rs:297-317 | On any pool with two free devices two overlapping releases around an allocation lose a device with no step failing. |
| `HardwarePool.OrphanedForever` | hardware/src/pool.rs:161-171 | An orphaned device stays held through every later run that does not add it anew. |
| `HardwarePool.StepKeepsTrackIff` | hardware/src/pool.rs:231-317 | From a state where every held device is in a record or an unfinished release of its holder, a step keeps that if and only if its stated condition on the state before it holds. |
| `HardwarePool.NoDeviceLostIff` | hardware/src/pool.rs:231-318 | An interleaving that adds only new devices ends that way if and only if every step of it met the condition. |
| `HardwarePool.Pool.AddDevice` | hardware/src/pool.rs:231-234 | Inserts the given device as one step of the interleaving model. |
| `HardwarePool.Pool.Allocate` | hardware/src/pool.rs:265-293 | One step of the interleaving model, with the record or the first error. |
| `HardwarePool.Pool.BeginRelease` | hardware/src/pool.rs:297-305 | The first step of a release: a copy of the record, or the missing-allocation error; the pool is unchanged. |
| `HardwarePool.Pool.FinishRelease` | hardware/src/pool.rs:307-317 | The second step of a release, on whatever copy was taken. |
| `PassSchedule.BuildIndex` | scheduler/src/schedule.rs:191-208 | Each device maps to the passes using it, once per listing, in schedule order. |
| `PassSchedule.BucketPairs` | scheduler/src/schedule.rs:193-217 | One device's bucket pairs exactly the passes that share it, and a pass with itself when it lists the device twice. |
| `PassSchedule.ScanBucket` | scheduler/src/schedule.rs:214-232 | Adds exactly the bucket's pairs to those seen and reports each new overlapping one once. |
| `PassSchedule.CheckConflicts` | scheduler/src/schedule.rs:188-235 | Whatever the map order, every clash is reported exactly once and nothing else is. |
| `PassSchedule.WindowsOverlapIff` | scheduler/src/schedule.rs:280-282 | Nonempty pass windows overlap if and only if they share an instant. |
| `PassSchedule.ClashesOfDistinctDevices` | scheduler/src/schedule.rs:182-235 | With distinct own devices the clashes are exactly the overlapping pairs sharing a device in any role, and include all that `hardware_conflicts` flags. |
| `PassSchedule.ListsTwiceIff` | scheduler/src/schedule.rs:191-208 | A pass lists a device twice if and only if its devices are not distinct. |
| `PassSchedule.ReportNamesClashes` | scheduler/src/schedule.rs:210-235 | With distinct pass ids the report names two passes if and only if they clash in schedule order, and one pass against itself if and only if it lists a device twice in a nonempty window. |
| `PassSchedule.SameRoleIsShared` | scheduler/src/schedule.rs:286-312 | The role-by-role test implies a shared device. |
| `PassSchedule.SharedIff` | scheduler/src/schedule.rs:286-312 | Two allocations share a device if and only if the role-by-role test flags them or a device serves different roles in the two. |
| `PassSchedule.RolesCanHideAConflict` | scheduler/src/schedule.rs:286-312 | Allocations exist that share a device which that test misses. |
| `Optimizer.ShiftIsBounded` | scheduler/src/optimization.rs:300-324 | A shift keeps the length, moves at most ten minutes and lands in the future. |
| `Optimizer.ShiftIsExact` | scheduler/src/optimization.rs:300-324 | The drawn minutes are applied whenever the pass then starts in the future; the guard on its end never refuses. |
| `Optimizer.ShiftAsDocumentedIff` | scheduler/src/optimization.rs:303-305 | The drawn shift is one to five minutes if and only if the remainder is 0 to 4 or -6 to -2; a draw of -1 shifts by nothing and one of 9 by ten minutes. |
| `Optimizer.ReallocationKeepsRest` | scheduler/src/optimization.rs:327-347 | Reallocation leaves shadow and rotator alone and takes the drawn antenna of the pool. |
| `Optimizer.ReallocationRotates` | scheduler/src/optimization.rs:333-340 | It moves to the pool's next SDR, around the end. |
| `Optimizer.ReallocationFromOutside` | scheduler/src/optimization.rs:333-340 | From an SDR the pool lacks it moves to the pool's second, if there is one. |
| `Optimizer.FirstUnscheduled` | scheduler/src/optimization.rs:366-373 | A request that is not scheduled, or none exactly when all are. |
| `Optimizer.CreatedPass` | scheduler/src/optimization.rs:380-423 | A new pass is its request with the pool's first devices or the default names, and has a shadow if and only if the tier is one of the two upper ones and the pool has one. |
| `Optimizer.NeighborAdds` | scheduler/src/optimization.rs:270-278 | An empty schedule gets a pass for the first request; the adding move appends a pass for the first request not yet scheduled, and changes nothing if there is none. |
| `Optimizer.NeighborEdits` | scheduler/src/optimization.rs:279-297 | The other moves change only the window of one pass, only its hardware, or the order of two neighbours. |
| `Optimizer.NeighborDescends` | scheduler/src/optimization.rs:270-377 | Every neighbour keeps all starting passes with their durations, adds only requests, and repeats none. |
| `Optimizer.EvaluateSchedule` | scheduler/src/optimization.rs:199-267 | The score is a function of the schedule although conflicts are found in arbitrary order. |
| `Optimizer.ScoreIs` | scheduler/src/optimization.rs:199-267 | The score in numbers: 100 per point of fairness, 50 of reputation, minus 200 per conflict, 30 times the share of passes lasting 300 s, plus the keyhole terms. |
| `Optimizer.KeyholeCosts` | scheduler/src/keyhole.rs:274-284 | A keyhole warning lowers the score by 100 times the fraction lost, or 30 times with a handoff. |
| `Optimizer.FirstPassPaysIff` | scheduler/src/optimization.rs:199-267 | A first pass raises the score if and only if it lasts five minutes and does not clash with itself. |
| `Optimizer.SwapKeepsScore` | scheduler/src/optimization.rs:350-358 | Swapping neighbours never changes the score. |
| `Optimizer.ScoreCountsConflicts` | scheduler/src/optimization.rs:199-242 | Between schedules of the same passes a higher score means fewer conflicts. |
| `Optimizer.Optimize` | scheduler/src/optimization.rs:122-196 | For all draws and timeouts the result scores at least its start, the rollback never runs, no starting pass is lost or stretched, and no request is scheduled twice; from an empty start it is not empty once an iteration runs and the first request lasts five minutes on distinct devices, and it is empty if no request lasts five minutes. |
| `Optimizer.Select` | scheduler/src/optimization.rs:439-443 | Exactly the started, or not started, passes. |
| `Optimizer.SelectAppends` | scheduler/src/optimization.rs:439-443 | They keep the schedule's order. |
| `Optimizer.GreedyStep` | scheduler/src/optimization.rs:465-473 | An accepted greedy step keeps every pass in place and strictly lowers the conflicts. |
| `Optimizer.HillClimb` | scheduler/src/optimization.rs:461-473 | The loop does two hundred strict-improvement iterations, keeps the passes in order and never adds a conflict or lowers the tail's score. |
| `Optimizer.ClashesOfWhole` | scheduler/src/optimization.rs:475-479 | The conflicts of the reassembled schedule are those of its two parts plus those across. |
| `Optimizer.NeighborStaysConfined` | scheduler/src/optimization.rs:270-347 | A move of a tail that schedules every request keeps passes from starting before the clock and uses only devices of the tail or the pool. |
| `Optimizer.EditGainsAtMostOne` | scheduler/src/optimization.rs:461-479 | While at most one started pass runs on a device the tail could get, editing one pass of the tail adds at most one conflict with started passes. |
| `Optimizer.ClimbKeepsWholeScore` | scheduler/src/optimization.rs:461-479 | In that case no number of iterations, for any draws, lowers the score of the whole schedule. |
| `Optimizer.LosingMove` | scheduler/src/optimization.rs:327-347 | For any started passes of which two are still running there are a pool and a tail in which a reallocation ends one conflict and starts two. |
| `Optimizer.MoveKeepsWholeIff` | scheduler/src/optimization.rs:461-479 | Over all configurations, later tails and draws, an accepted move never lowers the whole score if and only if fewer than two started passes end after the first instant a tail can start. |
| `Optimizer.ClimbKeepsWholeIff` | scheduler/src/optimization.rs:431-482 | The same for the whole loop, with any positive number of iterations. |
| `Optimizer.TailGainCanBeAWholeLoss` | scheduler/src/optimization.rs:300-324 | Under every configuration there are started passes, a tail and a shift the loop accepts although the whole score drops. |
| `Optimizer.IncrementalOptimize` | scheduler/src/optimization.rs:431-482 | Started passes form an unchanged prefix; the tail is the climb from the old future passes and the new requests, in order, with their durations, no more conflicts and no lower score; the whole score is no lower either if the clock does not run backwards, no new request lies in the past, and at most one started pass is still running on a device the tail could get. |
| `Divergence.Interval.Distance` | digital-twin/src/divergence.rs:46-64 | Never negative, and zero exactly inside. |
| `Divergence.Sigma` | digital-twin/src/divergence.rs:304-310 | Never negative and zero exactly between the bounds; times the width, if positive, it is the distance to the nearer bound, and else it is that distance. |
| `Divergence.CusumIsLargestSuffix` | digital-twin/src/divergence.rs:219-246 | Until detection the statistic is the largest suffix excess since the reset. |
| `Divergence.DetectedIffCrossed` | digital-twin/src/divergence.rs:219-239 | The detector has detected if and only if some suffix reached the threshold after some observation. |
| `Divergence.FiresAtFirstCrossing` | digital-twin/src/divergence.rs:219-239 | `update` returns true exactly once, at the first observation where a suffix reaches the threshold. |
| `Divergence.CrossingMeans` | digital-twin/src/divergence.rs:285-319 | With the detectors' parameters a crossing is a stretch of observations whose sigmas exceed one each by five in total. |
| `Divergence.StreamsDoNotMix` | digital-twin/src/divergence.rs:285-319 | A detector depends only on its own observations and the resets. |
| `Divergence.ResultsDoNotMix` | digital-twin/src/divergence.rs:295-342 | The results for one (link, metric) are those of a lone detector fed that subsequence. |
| `Divergence.InsideNeverFires` | digital-twin/src/divergence.rs:304-319 | An in-interval sample never fires a change point. |
| `Divergence.RecordsAreExact` | digital-twin/src/divergence.rs:295-359 | For any interleaving: a record appears exactly outside the interval, and is a change point exactly at the first crossing of its own stream since the last reset. |
| `Divergence.DivergenceDetector.ProcessObservation` | digital-twin/src/divergence.rs:295-342 | Returns and logs a record exactly when the observation is outside its interval; the detectors follow the event history. |
| `Divergence.DivergenceDetector.ClearLog` | digital-twin/src/divergence.rs:350-352 | Empties the log and keeps the detectors. |
| `Divergence.DivergenceDetector.ResetDetectors` | digital-twin/src/divergence.rs:355-359 | Resets every detector and keeps the log. |
| `BitemporalLog.IncreasingLogVerifies` | bitemporal/src/log.rs:216-234 | Accepted appends with an unlinked first entry and increasing times verify in every map order. |
| `BitemporalLog.ChainIsAppendOrder` | bitemporal/src/log.rs:223-231 | With an injective digest the only order that passes is the append order. |
| `BitemporalLog.LogVerifiesIff` | bitemporal/src/log.rs:174-234 | With an injective digest and fresh ids, a log verifies in every map order if and only if its first entry is unlinked and times strictly increase. |
| `BitemporalLog.OrderVerifiesIff` | bitemporal/src/log.rs:216-234 | In one map order it verifies if and only if the first entry is unlinked and the stable sort restores the append order. |
| `BitemporalLog.SortIsStable` | bitemporal/src/log.rs:219-221 | Sorting keeps the order of entries with equal reception times. |
| `BitemporalLog.LateEntryBreaksTheChain` | bitemporal/src/log.rs:216-234 | For every digest there are two accepted entries, the later received earlier, whose log does not verify. |
| `BitemporalLog.LinkedFirstEntryBreaksTheChain` | bitemporal/src/log.rs:174-234 | For every digest an empty log accepts an entry naming a predecessor, and then does not verify. |
| `BitemporalLog.LatestHashDeterminesLog` | bitemporal/src/log.rs:87-98 | Two such logs with the same latest hash hold the same entries. |
| `BitemporalLog.Log.Append` | bitemporal/src/log.rs:174-200 | Accepts exactly entries that verify and link to the latest hash; the maps and the hash follow the accepted history. |
| `BitemporalLog.Log.GetPassEntries` | bitemporal/src/log.rs:208-213 | With fresh ids, the pass's entries in append order. |
| `BitemporalLog.Log.VerifyChain` | bitemporal/src/log.rs:216-234 | The chain test on the entries sorted by reception time; with an injective digest and fresh ids, true if and only if the first entry is unlinked and the sort restores the append order. |
| `ShadowFailover.RunTracks` | rf-layer/src/shadow.rs:79-107 | In every run with increasing ids each retained snapshot is the exact state before its sample, and the shadow mirrors the primary. |
| `ShadowFailover.RunIsRecent` | rf-layer/src/demodulator.rs:279-307 | In every run with increasing ids at most the limit of snapshots is kept, the last id is less than one interval past the latest of them, and limit, interval and handles are unchanged. |
| `ShadowFailover.SnapshotTakenIff` | rf-layer/src/demodulator.rs:279-296 | A snapshot has been taken if and only if the last id has reached the interval. |
| `ShadowFailover.NewestDueAreKept` | rf-layer/src/demodulator.rs:279-303 | With increasing ids a snapshot is taken at exactly the ids fifty or more past the one before, and the newest hundred are kept. |
| `ShadowFailover.RunKeepsBooks` | rf-layer/src/shadow.rs:79-107 | The sample count, the last committed id, and for each snapshot the id and times of the sample it was taken at. |
| `ShadowFailover.OldSampleForcesSnapshot` | rf-layer/src/demodulator.rs:279-281 | A sample older than the last snapshot triggers one, by wrapping subtraction, if and only if it is older by at most 2^64 minus the interval. |
| `ShadowFailover.SnapshotPlusReplayIsLive` | rf-layer/src/demodulator.rs:216-307 | Replaying from any retained snapshot's sample onward over its state gives the live state. |
| `ShadowFailover.ReplayIsBounded` | rf-layer/src/demodulator.rs:279-296 | With increasing ids, gaps allowed, between one and fifty samples need replay, and at most fifty before the first snapshot. |
| `ShadowFailover.PromotionRollsBack` | rf-layer/src/shadow.rs:111-142 | Promotion swaps the handle, works once, restores the latest snapshot, and leaves the live state in the shadow. |
| `ShadowFailover.NoSnapshotNoLoss` | rf-layer/src/shadow.rs:109-135 | Below the interval promotion keeps the state of every demodulator whatsoever. |
| `ShadowFailover.FailoverIsLosslessIff` | rf-layer/src/shadow.rs:109-135 | On increasing ids, gaps allowed, for every demodulator whose state records its last sample id from 0 on: promotion keeps the state if and only if the last id is below the snapshot interval. |
| `ShadowFailover.PassAcquisition.constructor` | rf-layer/src/shadow.rs:48-76 | A fresh acquisition, shadow active exactly when present. |
| `ShadowFailover.PassAcquisition.ProcessPrimarySample` | rf-layer/src/shadow.rs:79-107 | One step of the value model: snapshot before the sample, then demodulate, commit and mirror. |
| `ShadowFailover.PassAcquisition.PromoteShadow` | rf-layer/src/shadow.rs:111-142 | One promotion of the value model, or an error without a shadow. |
| `RingBuffers.Accept` | hardware/src/shard.rs:171-173 | What a write takes: the longest prefix that fits, or all exactly when all fits and else nothing. |
| `RingBuffers.NothingLostOrReordered` | hardware/src/shard.rs:171-205 | Every run of the value-level queue, from any contents, keeps what was accepted equal to what was read followed by what is queued. |
| `RingBuffers.AvailableOf` | hardware/src/shard.rs:208-223 | Available plus used is capacity minus one. |
| `RingBuffers.UsedIsDistance` | hardware/src/shard.rs:217-223 | Used is the distance from tail to head around the buffer. |
| `RingBuffers.Store` | hardware/src/shard.rs:175-180 | The storing loop extends the circular contents by the samples, across wrap-around. |
| `RingBuffers.CopyOut` | hardware/src/shard.rs:196-201 | The copying loop delivers the first items and leaves the rest of the output alone. |
| `RingBuffers.ShardRing.Write` | hardware/src/shard.rs:171-184 | Contents grow by the accepted prefix; at most capacity minus one are held. |
| `RingBuffers.ShardRing.Read` | hardware/src/shard.rs:192-205 | Delivers and removes the oldest items. |
| `RingBuffers.SampleRing.Write` | rf-layer/src/sdr.rs:133-158 | Accepts all or nothing; at most capacity are held; overflow is an error. |
| `RingBuffers.SampleRing.Read` | rf-layer/src/sdr.rs:161-174 | Delivers and removes the oldest items; the counters change as by one load and one advance of the concurrent model. |
| `RingBuffers.DriveShard` | hardware/src/shard.rs:171-205 | The shard's buffer driven through any writes and reads does what that queue does: earlier contents and accepted samples are, in order, what was read followed by what is held. |
| `RingBuffers.DriveSample` | rf-layer/src/sdr.rs:133-174 | The same for the radio's buffer, which accepts all or nothing. |
| `RingBuffers.OverlappingReadsAreFifoIff` | rf-layer/src/sdr.rs:161-174 | Two reads that loaded the same counters leave a valid buffer if and only if their counts fit, and deliver its contents in order if and only if moreover the second's items repeat behind the first's; with distinct contents, if and only if one asked for nothing or nothing was held. |
| `RingBuffers.ConcurrentReadsAreFifoIff` | rf-layer/src/sdr.rs:161-174 | Any interleaving of the loads and advances of any number of reads that all finish delivers distinct contents once, in order, leaving the rest, if and only if no two reads with items overlap. |
| `PassPrediction.AccumulateIsExtreme` | constellation/src/pass.rs:185-197 | The running values are the run's first time, first peak and largest range. |
| `PassPrediction.ScanIsSound` | constellation/src/pass.rs:169-216 | At every sample the closed runs are maximal and in order and, with the open one, hold every sample that is up. |
| `PassPrediction.ScanProfile` | constellation/src/pass.rs:162-233 | The loop yields exactly the runs of the scan, each with its pass. |
| `PassPrediction.PredictPasses` | constellation/src/pass.rs:152-236 | Exactly the maximal runs, in order, with rise, set, peak and range; an unknown station is an error. |
| `PassPrediction.PassesAreDisjointInTime` | constellation/src/pass.rs:199-216 | On a time-ordered profile a pass sets no later than the next one rises and peaks in between. |
| `DopplerSchedule.BuiltIdsIncreaseIff` | rf-layer/src/doppler.rs:39-47 | Built ids never decrease, and strictly increase if and only if the rate is at least 1000 Hz or there is at most one knot. |
| `DopplerSchedule.PredictionsAreKept` | rf-layer/src/doppler.rs:39-66 | From 1 kHz on the correction at each prediction's own sample is that prediction. |
| `DopplerSchedule.ExactAtKnots` | rf-layer/src/doppler.rs:63-66 | Interpolation is exact at the knots. |
| `DopplerSchedule.ClampedOutside` | rf-layer/src/doppler.rs:68-74 | It is clamped outside them. |
| `DopplerSchedule.InterpolatesTheLine` | rf-layer/src/doppler.rs:76-81 | Between two knots the value is that on the line between them with the fraction dropped toward zero, stated in integers. |
| `DopplerSchedule.StaysBetweenNeighbours` | rf-layer/src/doppler.rs:76-81 | After truncation it stays between the two neighbouring offsets. |
| `DopplerSchedule.InterpolationIsOdd` | rf-layer/src/doppler.rs:80-81 | Truncation toward zero makes it symmetric in the sign of the offsets. |
| `DopplerSchedule.InterpolationIsMonotone` | rf-layer/src/doppler.rs:61-82 | It rises, or falls, in the sample id whenever the offsets do. |
| `DopplerSchedule.BinarySearch` | rf-layer/src/doppler.rs:63-66 | A matching position or the insertion point, on any sorted schedule. |
| `DopplerSchedule.InterpolateBySearch` | rf-layer/src/doppler.rs:61-82 | On any sorted schedule, repeated ids included: never divides by zero, returns an offset of the id if it has one, the truncated value on the line between its neighbours else, and the first or last offset outside; on distinct ids it is the interpolation. |

## Left out

- Floating point: `f64` and `f32` arithmetic is over `real`, so rounding, NaN and the saturation of float-to-integer casts are not modelled; volumes above 2^53 bytes would round before the division in `calculate_task_timing`.
- Integer width: counters and products are unbounded. Sample ids are 64-bit and the subtraction in `should_snapshot` wraps, as in builds without overflow checks; a build with them stops there instead.
- Tasking.TaskingScheduler.Schedule: defined where the loop stops, since a method must end; `Tasking.TaskingScheduler.ScheduleWithin` covers every queue.
- RingBuffers.SampleRing.Read: one call runs to its end; readers that overlap are the subject of `RingBuffers.ConcurrentReadsAreFifoIff`, on the buffer as a value. There the copying loop is one step with the advance, since only a writer, which the source makes exclusive, could change what it copies; counters are unbounded except that the difference wraps when the tail has passed the head.
- Divergence: the detectors inside the map are values, as the map owns them; in-place update of one detector is a map update.
- Optimizer.Optimize: the Boltzmann test is an arbitrary coin, which allows more than the exponential does; fairness gap and average reputation are constants of a call, as the source never changes them while optimizing.
- Optimizer.IncrementalOptimize: the fragment cache that records committed pass ids is not modelled.
- BitemporalLog: the digest is taken over the record of fields, not over their concatenated bytes.
- ShadowFailover: the snapshot checksum only triggers a warning on restore and is not modelled; health comparison and the memory shard are left out.
- HardwarePool: circuit breakers, `find_available` and health timestamps do not affect who holds a device and are not modelled.
- MissionCompiler: stand-alone downlink plans, the choice of a ground station, plan validation, confidence and explanations; asset resolution, stations and routes are parameters.
- Orbital mechanics, tracking filters, link budgets, signal processing loops, cryptography, serialization, REST and vendor adapters, uplink queueing and federation are not modelled.
