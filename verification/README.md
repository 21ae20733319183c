# A verified model of the scheduler core

This project models the scheduler of a Linux 3.4 kernel with an added weighted round-robin class, and proves what
its parts keep over whole runs. Each module is one part of the system:

- `RtQueue`, `RtHierarchy`, `RtRuns`, `RtPick`, `RtOrder`, `RtCpu`: the real-time run queue, a tree of priority arrays in
  which a group's place in its parent depends on the best priority queued beneath it.
- `TgWalk`, `RtAdmission`, `RtAdmissionRuns`, `RtAdmissionRaces`: the goto-based walk over the group tree and the
  admission test of real-time bandwidth settings built on it, without and with overlapping sysctl writes.
- `RtBandwidth`, `RtThrottle`: per-CPU real-time budgets, borrowed between CPUs, reclaimed at unplug, charged, throttled
  and paid back by the period timer.
- `FixedPoint`, `LoadAverage`, `CpuLoad`, `CpuDecay`, `LoadAccounting`, `LoadCounts`: the global load average, its
  fixed-point arithmetic, the per-CPU load statistics and their table-driven decay, and the distributed count behind the
  average.
- `WrrRotation`, `WrrPath`, `SchedClasses`, `SchedCell`, `SchedChanges`, `SchedAccounts`, `SchedRuns`, `SchedSteps`,
  `WrrTurns`, `WrrRq`: the weighted round-robin class, the class-ordered pick, and the transactions that change a task's
  class, priority, group or CPU.
- `Locks`: the order in which pi_locks and run-queue locks are taken.
- `Basics`: shared definitions.
- `SchedDomains`, `Completions`: re-partitioning of the CPUs into domains, and completions.

Beside the invariants over whole runs, lemmas named `...Exact` say field by field what each single step does, without
naming the function that computes it.

Where the source updates objects in place there is a class whose methods are proved equal to functions on values; the
theorems are about those functions. Concurrent code is a state machine with one step per atomic operation, and a run is
any sequence of steps; a step that is not possible where it stands does not happen. The configuration is a 32-bit SMP
kernel with group scheduling of real-time tasks; `Locks` covers both settings of CONFIG_PREEMPT. `dafny verify
dfyconfig.toml` checks the whole project.

## What the proofs found

- `__enable_runtime` clears a throttle without re-queueing the group: harmless exactly under the condition of
  `EnableRuntimeKeepsInvIff`, and not after the run of `LeftBehind`. Applied to a queue that is already enabled it can
  leak runtime (`EnableBalancedIff`, `DoubleEnableLeaks`).
- `sched_rt_handler` shows its sysctls to everybody before it tests them. A change of the root group tested meanwhile can
  be left standing above the limit that is put back (`SlipsThrough`). `RtAdmissionRaces.EveryInterleaving` says exactly
  when the whole-tree guarantee holds; nothing but a change of the root group made in that doubt breaks it.
- `group_path` is one buffer for all CPUs. A tick or a query elsewhere between writing and comparing it can refill a task
  from another task's group (`ForeignRefills`); a refill is the task's own exactly under the condition of
  `WrrPath.EveryInterleaving`, which `RotationShares` and `RunKeepsSlices` name as `OwnPaths`.
- A WRR slice of zero lasts 2^32 ticks. It comes from a refill on the task's own path exactly for groups other than `/`
  and `/bg_non_interactive`, for the former when HZ is below 10 and for the latter when it is below 100 (`RefillZeroIff`).
  It also comes with a task: nothing sets the slice on entry to the class (`SlicesKept`), so a task that enters with zero
  has a first turn of 2^32 ticks in any group at any HZ (`FirstTurnWraps`). The turn and share theorems hold for those
  slices too; `TurnIsGroupSliceIff` says exactly when a turn lasts the group's slice.
- The parameter test of `__sched_setscheduler` accepts an RT policy with priority zero, against its comment, and the WRR
  policy with a priority, which the comment does not name. With the WRR policy read into the rule for non-RT policies,
  these are exactly the departures (`AcceptableIffDocumented`, `UndocumentedAccepted`).
- `rt_mutex_setprio` knows only the RT and the fair class: a WRR task that was boosted and gets its own priority back is
  left in the fair class with the WRR policy (`UnboostRestoresIff` has the exact condition).
- The write index of the idle slots goes with the load window exactly if an even number of index flips came between the
  two reads of a CPU going idle (`TakenAsMeantIff`). It does not if the CPU falls between the move of the window and the
  flip (`FlipMisplaces`), nor if a whole passing call falls between its two reads (`StraddleMisplaces`).
- A wait that finds a token at once and was given a timeout beyond LONG_MAX takes it and returns a negative value
  (`PositiveIffTook`, `TakesAndReturnsNegative`). Only the interruptible and killable variants hand that value on as
  negative; `wait_for_completion_timeout` returns it as an unsigned long.
- The queue returned by `task_rq_lock` stays the task's queue until its owner drops one of the two locks or itself moves
  the task; the pushing of RT tasks after a policy change does the latter, so `Locks` ends ownership there.

## Model
| member | source | states |
|---|---|---|
| RtQueue.HighestMeaning | basic/kernel/sched/rt.c:968-1006 | In a consistent queue the cached priority is the best of everything queued, the list at it is non-empty, and it is MAX_RT_PRIO exactly when nothing is queued |
| RtQueue.HoldsWhere | basic/kernel/sched/rt.c:355-358 | A queued entity is in the list of its own priority and in no other |
| RtQueue.PushOk | basic/kernel/sched/rt.c:1072-1098 | Inserting an entity keeps bitmap, counters, boosted count and cached priority exact and adds exactly that entity |
| RtQueue.PullOk | basic/kernel/sched/rt.c:1100-1112 | Removing an entity keeps the same and removes exactly that entity, clearing the bit only when its list empties |
| RtQueue.RequeueOk | basic/kernel/sched/rt.c:1191-1203 | Moving an entity to either end of its list changes nothing but the order |
| RtQueue.EmptyRqOk | basic/kernel/sched/rt.c:60-85 | A freshly initialised queue is consistent and holds nothing |
| RtHierarchy.DeqOk | basic/kernel/sched/rt.c:1100-1112 | Removing an entity whose parent group is off its own queue keeps every queue of the tree consistent and moves only that entity |
| RtHierarchy.EnqOk | basic/kernel/sched/rt.c:1072-1098 | Inserting under the same condition does too, and the entity ends up queued exactly if it is a task or a group that is neither empty nor throttled |
| RtHierarchy.DeqStack | basic/kernel/sched/rt.c:1118-1131 | After the top-down removal the entity and every group above it are off their queues, and nothing else of the tree moved |
| RtHierarchy.EnqUp | basic/kernel/sched/rt.c:1133-1138 | The bottom-up insertion puts the entity and every eligible group above it back, at the priority of what is now queued beneath |
| RtHierarchy.Restore | basic/kernel/sched/rt.c:1140-1150 | After a removal the groups above come back exactly if they still have something to run |
| RtHierarchy.ChainRoundTrip | basic/kernel/sched/rt.c:1118-1150 | Taking a chain out and putting it back repairs the whole-tree invariant even if the chain was out of place before |
| RtHierarchy.EnqueueEntityOk | basic/kernel/sched/rt.c:1133-1138 | `enqueue_rt_entity` restores the whole-tree invariant, touches only the entity's chain, and leaves a task queued |
| RtHierarchy.DequeueEntityOk | basic/kernel/sched/rt.c:1140-1150 | `dequeue_rt_entity` restores the whole-tree invariant, touches only the entity's chain, and leaves a task unqueued |
| RtHierarchy.EnqueueTaskExact | basic/kernel/sched/rt.c:1133-1138 | Enqueueing a task puts it first or last in the list of its priority in its own group's queue, as asked, and leaves every other list of that queue as it was |
| RtHierarchy.DequeueTaskExact | basic/kernel/sched/rt.c:1140-1150 | Dequeueing a task changes its own group's queue by exactly its removal |
| RtRuns.ThrottleOk | basic/kernel/sched/rt.c:437-446 | Throttling a group takes its entity off its parent unless it is boosted, and keeps the whole-tree invariant |
| RtRuns.RtRqEnqueueOk | basic/kernel/sched/rt.c:420-435 | `sched_rt_rq_enqueue` repairs a group missing from its parent's queue, whatever took it off |
| RtRuns.UnthrottleOk | basic/kernel/sched/rt.c:796-823 | The timer's release of a group keeps the whole-tree invariant |
| RtRuns.EnableRuntimeKeepsInvIff | basic/kernel/sched/rt.c:714-724 | Clearing the throttle flag without re-queueing, as `__enable_runtime` does, keeps the invariant exactly if the group was not being held off its parent's queue |
| RtPick.LeftBehind | basic/kernel/sched/rt.c:714-724 | A run from boot (create a group, put a task in it, queue it, throttle the group) after which clearing the flag leaves the group off its parent's queue with a task to run |
| RtRuns.RequeueUp | basic/kernel/sched/rt.c:1205-1214 | `requeue_task_rt` leaves every group with the same entities, counters and cached priority |
| RtRuns.ShuffledInv | basic/kernel/sched/rt.c:1191-1214 | Reordering within lists keeps the whole-tree invariant |
| RtRuns.SetTaskOk | basic/kernel/sched/core.c:4339-4355 | A change of priority or group of a task that is off the queues keeps the invariant |
| RtRuns.CreateGroupOk | basic/kernel/sched/rt.c:131-156 | A new, empty group below an existing one keeps the invariant |
| RtRuns.ApplyOk | basic/kernel/sched/rt.c:420-1214 | Every step of every kind keeps the whole-tree invariant |
| RtPick.RootBeats | basic/kernel/sched/rt.c:968-1098 | The root's cached priority is at least as good as that of every non-empty group with no throttled ancestor |
| RtPick.RootBeatsTask | basic/kernel/sched/rt.c:1352-1376 | ...and as that of every queued task not beneath a throttled group |
| RtPick.PickNextEntity | basic/kernel/sched/rt.c:1335-1350 | Its BUG_ON cannot fire; it yields the head of the best list, whose priority is the cached one |
| RtPick.PickNextTask | basic/kernel/sched/rt.c:1352-1376 | Terminates by tree depth, trips no BUG_ON, returns nothing exactly when the root is empty or throttled, and otherwise a queued task not beneath a throttled group whose priority is best among all such |
| RtPick.EveryRun | basic/kernel/sched/rt.c:968-1150 | After any run from boot: at every level bit i is set iff list i is non-empty, the delimiter stays set, counters are the totals, the cached priority is the least non-empty index; every group entity is in its parent's list of its own best priority iff it is non-empty and not throttled without a boosted task, and otherwise in no list; a task is in no list but that of its priority in its group |
| RtPick.BoostedMeaning | basic/kernel/sched/rt.c:448-467 | A group's boosted count is positive, and so lifts its throttling, exactly while something boosted is queued in it: a task above its own priority or a group that holds one |
| RtOrder.PushExact | basic/kernel/sched/rt.c:1091-1094 | `__enqueue_rt_entity` puts the entity at the head or the tail of its priority's list, as asked, and leaves every other list alone |
| RtOrder.PullExact | basic/kernel/sched/rt.c:1100-1112 | `__dequeue_rt_entity` takes the entity out and leaves every other entity in its place and order |
| RtOrder.RequeueExact | basic/kernel/sched/rt.c:1191-1203 | `requeue_rt_entity` moves the entity to the end asked for |
| RtOrder.EnqueueRelinks | basic/kernel/sched/rt.c:1133-1138 | Along the whole chain of `enqueue_rt_entity` every entity ends at the end asked for of the list of the priority it has then, or nowhere if it may not be queued; no other entity moves and no other list changes |
| RtOrder.DequeueRelinks | basic/kernel/sched/rt.c:1140-1150 | `dequeue_rt_entity` likewise, the groups above going to the tails |
| RtOrder.RequeueRelinks | basic/kernel/sched/rt.c:1205-1214 | `requeue_task_rt` likewise, for the task and every queued group above it |
| RtOrder.ThrottleExact | basic/kernel/sched/rt.c:868-892 | Throttling sets the flag and takes the group off its parent exactly if it was queued and holds nothing boosted; the groups above go to the tails, and nothing else changes |
| RtOrder.UnthrottleExact | basic/kernel/sched/rt.c:796-823 | The release clears the flag and puts the group back at the tail exactly if it was off its parent with something to run |
| RtOrder.ApplyExact | basic/kernel/sched/rt.c:420-1214 | What every kind of step does, list by list |
| RtOrder.StepBefore | basic/kernel/sched/rt.c:1072-1214 | No step about other tasks or about groups changes the order of two queued tasks |
| RtOrder.FirstInFirstOut | basic/kernel/sched/rt.c:1091-1094 | Of two tasks of one group and priority, each queued at the tail, the one queued first is ahead, and the later one not at the head, in every state of every run that does not touch the two again, whatever else is queued, dequeued, requeued, throttled and released |
| RtCpu.RtState.EnqueueOne | basic/kernel/sched/rt.c:1072-1098 | In-place `__enqueue_rt_entity` with its counters computes the specified insertion: the entity at the end asked for of its list, every other list as it was |
| RtCpu.RtState.DequeueOne | basic/kernel/sched/rt.c:1100-1112 | In-place `__dequeue_rt_entity` with its counters computes the specified removal |
| RtCpu.RtState.DequeueStack | basic/kernel/sched/rt.c:1118-1131 | The loop that builds the `back` chain and walks it computes the recursive top-down removal |
| RtCpu.RtState.EnqueueEntity | basic/kernel/sched/rt.c:1133-1138 | The bottom-up loop computes the recursive insertion |
| RtCpu.RtState.DequeueEntity | basic/kernel/sched/rt.c:1140-1150 | The bottom-up loop with its non-empty test computes the recursive restoration |
| RtCpu.RtState.ThrottleGroup | basic/kernel/sched/rt.c:868-892 | Setting the flag and dequeueing the group keeps the whole-tree invariant |
| RtCpu.RtState.UnthrottleGroup | basic/kernel/sched/rt.c:796-823 | Clearing the flag and re-queueing the group keeps the whole-tree invariant |
| TgWalk.WalkTgTreeFrom | basic/kernel/sched/core.c:658-687 | The goto loop terminates and makes exactly the calls of the recursive walk up to and including the first that returns non-zero, whose value it returns |
| TgWalk.TourCounts | basic/kernel/sched/core.c:658-687 | The walk calls `down` once and `up` once on each group of the subtree and on no other |
| TgWalk.TourNests | basic/kernel/sched/core.c:658-687 | Everything below a group is visited in one contiguous block between its `down` and its `up` |
| TgWalk.SiblingOrder | basic/kernel/sched/core.c:658-687 | The children of a group are walked in the order of its list |
| TgWalk.PerformBegins | basic/kernel/sched/core.c:658-687 | The calls made are the beginning of the tour, all of it if the walk returns zero, and each got the data the one before left |
| TgWalk.PerformStops | basic/kernel/sched/core.c:658-687 | All calls made but the last returned zero; the last returned what the walk returns |
| RtAdmission.SaneRatio | basic/kernel/sched/core.c:7545-7551 | A bandwidth with runtime at most its period has a ratio of at most one, wrap-around of the 64-bit shift included |
| RtAdmissionRuns.LimitIs | basic/kernel/sched/sched.h:668-679 | The global limit is runtime/period of the sysctls in units of 2^20, rounded down, and all of it for a negative runtime |
| RtAdmission.RatioExactIff | basic/kernel/sched/core.c:7545-7551 | As arithmetic, the ratio is the true 20-bit fraction exactly when the runtime is below 2^44 ns |
| RtAdmission.ShareBelow | basic/kernel/sched/core.c:7545-7551 | For a runtime a 32-bit `long` of microseconds can express, the true share of the time exceeds the computed ratio by less than one unit of 2^20 |
| RtAdmission.SharesBound | basic/kernel/sched/core.c:7579-7633 | In an accepted tree the true runtime/period shares of pairwise non-nested groups sum to less than (limit + their number) / 2^20 |
| RtAdmission.TreeOkByPaths | basic/kernel/sched/core.c:7579-7633 | The per-group tests at every group add up to the whole-tree guarantee |
| RtAdmission.AntichainBound | basic/kernel/sched/core.c:7579-7633 | In an accepted tree any pairwise non-nested groups have ratios summing to at most the root's, which is at most the limit |
| RtAdmissionRuns.TgRtSchedulable | basic/kernel/sched/core.c:7579-7633 | The visitor's loop computes the per-group verdict, with its 32-bit sum |
| RtAdmissionRuns.VerdictZero | basic/kernel/sched/core.c:7635-7650 | The walk answers zero exactly if every group passes |
| RtAdmissionRuns.CheckIs | basic/kernel/sched/core.c:7579-7633 | A group is answered busy exactly if it would be left without runtime while it has RT tasks and bandwidth is controlled |
| RtAdmissionRuns.VerdictFirst | basic/kernel/sched/core.c:7635-7650 | What the walk returns, if not zero, is the answer of the first group in walk order that does not pass |
| RtAdmissionRuns.RtSchedulable | basic/kernel/sched/core.c:7635-7650 | The walk over the visitor returns the verdict of the recursive walk |
| RtAdmissionRuns.NoWrap | basic/kernel/sched/core.c:7579-7633 | From an accepted tree, no 32-bit sum of the walk for one sane change wraps |
| RtAdmissionRuns.AcceptIff | basic/kernel/sched/core.c:7579-7650 | From an accepted tree, the walk accepts a change exactly if the changed tree has the whole-tree guarantee (and no group left without runtime is reported busy) |
| RtAdmissionRuns.AddChildOk | basic/kernel/sched/core.c:7438-7473 | Creating a group (with zero runtime) keeps the guarantee |
| RtAdmissionRuns.RemoveOk | basic/kernel/sched/core.c:7475-7498 | Removing a group keeps the guarantee |
| RtAdmissionRuns.AddChildExact | basic/kernel/sched/core.c:7438-7473 | A new group is the first child of its parent, with no children; every other group keeps its settings and its children |
| RtAdmissionRuns.RemoveExact | basic/kernel/sched/core.c:7475-7498 | A group that goes leaves its parent's list; every other group keeps its settings and its children |
| RtAdmissionRuns.SetBandwidthOk | basic/kernel/sched/core.c:7652-7680 | A bandwidth change is accepted exactly if the result has the guarantee; accepted, it gives exactly that group exactly that bandwidth and touches no other group or sysctl; rejected, it alters nothing; the guarantee is kept |
| RtAdmissionRuns.WriteGlobalOk | basic/kernel/sched/core.c:7728-7821 | A write of the global limits that nothing overlaps is accepted exactly if it is sane and the tree is within it; accepted, it sets both sysctls and the period of new groups and leaves the tree; rejected, it alters nothing; the guarantee is kept |
| RtAdmissionRuns.NextOk | basic/kernel/sched/core.c:7652-7821 | Every settings operation, done without overlap, keeps the guarantee and a rejected one alters nothing |
| RtAdmissionRuns.NextExact | basic/kernel/sched/core.c:7652-7821 | For every kind of change: exactly which are accepted, what an accepted one has changed, and that a rejected one has changed nothing |
| RtAdmissionRuns.NextFits | basic/kernel/sched/core.c:7682-7726 | Every runtime stays unlimited or below 2^31 microseconds, hence below 2^44 ns |
| RtAdmissionRuns.EveryRun | basic/kernel/sched/core.c:7545-7821 | After any run of accepted and rejected changes from boot, one after the other, any pairwise non-nested groups have ratios summing to at most the global ratio, and true shares to less than that plus one unit of 2^20 each |
| RtAdmissionRaces.NestedIs | basic/kernel/sched/core.c:7579-7633 | A tree is within a limit exactly if children's ratios sum to at most their parent's throughout and the root's ratio is within the limit |
| RtAdmissionRaces.VisitOk | basic/kernel/sched/core.c:7579-7633 | A walk whose groups meet different sysctls still establishes the tests that do not depend on them, and the root's against what it met |
| RtAdmissionRaces.CommitOk | basic/kernel/sched/core.c:7652-7680 | Committing such a walk keeps the nesting, and keeps the root within the limit in force unless the root itself was changed and tested while a write had not passed its test |
| RtAdmissionRaces.TestOk | basic/kernel/sched/core.c:7728-7752 | A write passes its test only if the tree is within the new limit |
| RtAdmissionRaces.NextOk | basic/kernel/sched/core.c:7652-7821 | Every step of overlapping writes and walks keeps all of this |
| RtAdmissionRaces.WriterExact | basic/kernel/sched/core.c:7728-7821 | A write is in force at once; it passes exactly if sane, with the tree within it and no group with RT tasks left without runtime; a rejected one puts back what was there, an accepted one sets the period of new groups |
| RtAdmissionRaces.WalkerExact | basic/kernel/sched/core.c:7579-7680 | A visit gives the change up exactly if its group does not pass under the sysctls of that moment; a change that gets through alters its own group and nothing else |
| RtAdmissionRaces.GroupExact | basic/kernel/sched/core.c:7438-7498 | Groups come and go one at a time, at their place in the parent's list |
| RtAdmissionRaces.EveryInterleaving | basic/kernel/sched/core.c:7652-7821 | Over every interleaving of sysctl writes, tests, put-backs and group-by-group walks: non-nested groups sum to at most the root's ratio; with no write under way the whole-tree guarantee holds exactly if the last change also passes under the sysctls then in force, which is so unless the root group was changed in doubt |
| RtAdmissionRaces.SlipsThrough | basic/kernel/sched/core.c:7793-7821 | A run from boot in which the root group is given all of the time while a sysctl value is written that is then rejected and put back: the guarantee fails |
| RtAdmissionRuns.RtSettings.TgSetRtBandwidth | basic/kernel/sched/core.c:7652-7680 | In place: exactly that group gets exactly that bandwidth if the walk accepts it, nothing is altered on error; guarantee kept |
| RtAdmissionRuns.RtSettings.SchedRtHandler | basic/kernel/sched/core.c:7793-7821 | In place and uninterrupted: sysctls are written, checked and put back on error; accepted, they and the period of new groups are the new ones; guarantee kept |
| FixedPoint.PowerError | basic/kernel/sched/core.c:2406-2426 | `fixed_power_int` never exceeds one and differs from the exact power by at most n/2, for every n and even scale |
| FixedPoint.MulApprox | basic/kernel/sched/core.c:2406-2426 | Rounded multiplication of two approximations has the sum of their errors plus a half, and stays at most one |
| FixedPoint.FixedPowerInt | basic/kernel/sched/core.c:2406-2426 | The square-and-multiply loop computes the function the error bound is about |
| LoadAverage.CalcLoadNear | basic/kernel/sched/core.c:2264-2271 | One step is within a half of the exact weighted average |
| LoadAverage.StepsNear | basic/kernel/sched/core.c:2264-2271 | n steps are within n/2 of the exact n-step average |
| LoadAverage.CalcLoadNNear | basic/kernel/sched/core.c:2451-2457 | The catch-up formula is within 1/2 + n|load-active|/4096 of the exact n-step average |
| LoadAverage.CatchUp | basic/kernel/sched/core.c:2451-2457 | The catch-up formula is within (n+1)/2 + n|load-active|/4096 of n single steps |
| LoadAverage.CalcLoadStep | basic/kernel/sched/core.c:2264-2271 | A step stays between load and active and moves exactly when the distance times (2048-exp) is large enough to round to one unit |
| LoadAverage.Settles | basic/kernel/sched/core.c:2264-2271 | With constant active the distance never grows and falls by at least one a step until distance times (2048-exp) is at most 1024 |
| LoadAverage.RestingDistance | basic/kernel/linux/sched.h:124-129 | The 1, 5 and 15 minute averages come to rest within 6, 30 and 93 units of the active count |
| LoadAverage.NoOverflow | basic/kernel/sched/core.c:2264-2271 | Loads below a bound that fits keep every intermediate value within an unsigned long |
| CpuLoad.DecayLoadMissed | basic/kernel/sched/core.c:2588-2626 | The table loop computes the decay and reads only inside the table, for every input |
| CpuLoad.DecayMono | basic/kernel/sched/core.c:2588-2626 | Decay never raises a load and is monotone in it |
| CpuDecay.TableRow | basic/kernel/sched/core.c:2588-2598 | Each table entry is the exact power of (2^idx - 1)/2^idx on the 128-point scale, rounded down |
| CpuDecay.LookUp | basic/kernel/sched/core.c:2618-2621 | One look-up never overshoots and loses at most a 128th of the load and one unit |
| CpuDecay.LoopNear | basic/kernel/sched/core.c:2618-2624 | So does each look-up of the loop, for every number of missed ticks |
| CpuDecay.DecayNear | basic/kernel/sched/core.c:2558-2626 | `decay_load_missed` never exceeds the exact load * ((2^idx - 1)/2^idx)^missed and falls short of it by at most (load/128 + 1) per bit of `missed`, for every load, row and number of ticks |
| CpuLoad.OneTick | basic/kernel/sched/core.c:2633-2671 | With one update per jiffy each average moves strictly towards the load and never past it |
| CpuLoad.AverageExact | basic/kernel/sched/core.c:2649-2668 | An entry's new value is the mean of what is left of the old one after the missed ticks, with weight 2^i - 1, and the load, rounded up when the load is above it and down otherwise |
| CpuLoad.ReachesLoad | basic/kernel/sched/core.c:2633-2671 | Under constant load each average is exact after at most as many ticks as it was units away |
| CpuLoad.LoadStats.UpdateCpuLoad | basic/kernel/sched/core.c:2633-2671 | In place over the array: every entry gets its decayed weighted average, nothing when no jiffy passed, across jiffies wrap-around |
| LoadAccounting.LocalConserves | basic/kernel/sched/core.c:2246-2389 | Every step of a CPU, folds and deposits included, keeps global count + both slots + deltas in flight = accounted activity |
| LoadAccounting.GlobalConserves | basic/kernel/sched/core.c:2380-2389 | Every step of `calc_global_load` keeps it too |
| LoadAccounting.TakenAsMeantIff | basic/kernel/sched/core.c:2319-2337 | A deposit is in the slot its window asks for exactly if an even number of flips came between the index and the opening time its CPU read, and is taken by the drain it is meant for exactly if moreover that drain was still to come |
| LoadAccounting.CleanDeposit | basic/kernel/sched/core.c:2319-2337 | That holds if no global step comes between reading the index and depositing and the flip is not half done: then a deposit made while the window is closed is taken by the very next drain, one made while it is open by the drain after this window's |
| LoadAccounting.TakenInTurn | basic/kernel/sched/core.c:2380-2389 | A drain takes exactly the deposits whose slot's turn it is |
| LoadAccounting.StraddleMisplaces | basic/kernel/sched/core.c:2308-2337 | A run in which a whole passing call comes between the read of the index and that of the opening time: nothing falls into the flip, the window is closed, yet the next drain passes the deposit over |
| LoadAccounting.FlipMisplaces | basic/kernel/sched/core.c:2487-2497 | A run in which a CPU goes idle between the move of the window and the flip: its window is closed, yet the next drain passes its deposit over |
| LoadAccounting.GlobalWindow | basic/kernel/sched/core.c:2468-2530 | Every step that sets the window leaves it ending within one period of the jiffies just read, moved by whole periods, whatever time passed inside the call |
| LoadAccounting.NextOk | basic/kernel/sched/core.c:2246-2555 | Every step keeps conservation, the slots, the window and what CPUs have read |
| LoadAccounting.EveryInterleaving | basic/kernel/sched/core.c:2246-2555 | Over every interleaving on any number of CPUs: the conservation law; every deposit is drained within two passing calls, and by the one it is meant for exactly under the condition of TakenAsMeantIff |
| LoadAccounting.EveryWindow | basic/kernel/sched/core.c:2468-2530 | Over every interleaving: the window has moved by whole multiples of LOAD_FREQ since boot, and after each passing call it satisfies update + 10 - LOAD_FREQ <= jiffies read < update + 10 |
| LoadCounts.FoldExact | basic/kernel/sched/core.c:2246-2259 | A fold accounts running plus uninterruptible tasks as they are, and carries on exactly the change |
| LoadCounts.HandOnExact | basic/kernel/sched/core.c:2344-2357 | What is carried goes to the global count on a tick, one period after which the next is due, and on going idle to the slot of the index read if the window was still to open and to the other if not |
| LoadCounts.ReadsExact | basic/kernel/sched/core.c:2319-2337 | A CPU going idle reads the index, then the jiffies, then whether these are before the window |
| LoadCounts.OutsideExact | basic/kernel/sched/core.c:5293-5297 | Counts change as told, and a CPU that goes down takes back what it has accounted |
| LoadCounts.GlobalExact | basic/kernel/sched/core.c:2380-2530 | `calc_global_load` step by step: which slot is read and taken, what is added, how far the window moves, and that the index flips last |
| LoadCounts.GoesOn | basic/kernel/sched/core.c:2246-2530 | Nobody gets stuck: a call or a CPU under way can always go on, a call can begin once the window has been open for ten ticks, and a quiet CPU can fold from the tick exactly when its window has come |
| LoadCounts.EveryInterleaving | basic/kernel/sched/core.c:2246-2555 | Over every interleaving: when each CPU has folded since its counts last changed, global count + both slots + deltas in flight = tasks running or uninterruptible on all CPUs |
| LoadCounts.ExitExact | basic/kernel/sched/core.c:2360-2377 | A CPU that wakes inside or after its window takes the global one, or the next if that has not been open for ten ticks |
| LoadCounts.EveryCpuWindow | basic/kernel/sched/core.c:2360-2377 | Over every interleaving each CPU's window is a whole number of periods after the first |
| RtBandwidth.BorrowOk | basic/kernel/sched/rt.c:561-610 | A loan conserves runtime, never takes a lender below its own rt_time, and gives a borrower within its period a 1/n part of the lender's spare time, capped at the period |
| RtBandwidth.BalanceOk | basic/kernel/sched/rt.c:561-610 | The whole loop conserves runtime, no lender falls below its own time, and a borrower within its period stays within it |
| RtBandwidth.BalanceExact | basic/kernel/sched/rt.c:561-607 | What the loop does, exactly: the borrower gets every lender's n-th part or what its period has room for; the others give in order, each its part until the room is used up; `more` is answered iff some queue had time to spare |
| RtBandwidth.AllLend | basic/kernel/sched/rt.c:561-607 | A borrower left below its period has got exactly the n-th part of the spare time of every queue that had any, and no other queue has changed |
| RtBandwidth.ReclaimOk | basic/kernel/sched/rt.c:648-672 | Greedy reclaim takes exactly what is wanted as long as the others together have it |
| RtBandwidth.ReclaimExact | basic/kernel/sched/rt.c:646-672 | The greedy reclaim exactly: every other finite queue in turn gives all it has until nothing is wanted; a surplus goes to the first |
| RtBandwidth.NothingLeaks | basic/kernel/sched/rt.c:616-692 | From balanced books the reclaim ends with want == 0, so `BUG_ON(want)` cannot fire, and the books balance again once the queue is marked disabled |
| RtBandwidth.DisabledOk | basic/kernel/sched/rt.c:616-692 | `__disable_runtime` keeps the books balanced in every case |
| RtBandwidth.EnableBalancedIff | basic/kernel/sched/rt.c:703-725 | `__enable_runtime` keeps the books balanced exactly on a queue that was disabled or already held its share |
| RtBandwidth.LendingRun | basic/kernel/sched/rt.c:561-610 | A run from two fresh shares of 50 of 100 ns: CPU 0 is charged 60 and borrows 25 |
| RtBandwidth.DoubleEnableLeaks | basic/kernel/sched/rt.c:678-725 | After that run, enabling CPU 1 again although it is enabled makes disabling both CPUs trip `BUG_ON(want)` |
| RtBandwidth.ChargedOk | basic/kernel/sched/rt.c:845-937 | A charge with its loan and throttling keeps the books, and leaves the queue throttled, within its budget, or without a limit |
| RtBandwidth.TimerOk | basic/kernel/sched/rt.c:780-831 | A timer pass with its loan and pay-back keeps the books, never adds to a debt, and leaves a queue throttled only if it owes at least its budget |
| RtBandwidth.ChargedExact | basic/kernel/sched/rt.c:845-892 | A charge exactly: over its budget a queue borrows, and is throttled iff it has used more than even that; where the group has no runtime its time is dropped instead |
| RtBandwidth.TimerExact | basic/kernel/sched/rt.c:779-823 | A timer pass exactly: a throttled queue over its budget borrows first, `overrun` budgets are paid, and the throttle is lifted iff less than one budget is owed then |
| RtBandwidth.DisabledExact | basic/kernel/sched/rt.c:612-690 | Disabling exactly: the queue is marked and what it lacks of its share or has beyond it is settled with the others in turn |
| RtBandwidth.BudgetBound | basic/kernel/sched/rt.c:561-610 | No budget exceeds one share per CPU |
| RtBandwidth.NextOk | basic/kernel/sched/rt.c:561-937 | Every charge, timer pass, loan, disable, enable and bandwidth change keeps the books balanced |
| RtBandwidth.NextExact | basic/kernel/sched/rt.c:561-892 | Every step exactly: loans, charges, timer passes and disabling as above; enabling gives that queue its share, no time and no throttle; a new share reaches every queue |
| RtBandwidth.EveryRun | basic/kernel/sched/rt.c:561-937 | Over every run, timer passes included, the finite budgets sum to one share each, and a disable at any point reclaims everything |
| RtBandwidth.GroupBandwidth.DoBalanceRuntime | basic/kernel/sched/rt.c:561-610 | In place: the loop lends in order as `BalanceExact` says, answers `more` iff someone had time to spare, and conserves runtime |
| RtBandwidth.GroupBandwidth.DisableRuntime | basic/kernel/sched/rt.c:616-692 | The in-place loop, with the BUG_ON as an assertion, computes the specified reclaim and keeps the books balanced |
| RtBandwidth.GroupBandwidth.EnableRuntime | basic/kernel/sched/rt.c:703-725 | In place, on any queue: the share is restored, debt and flag cleared; the books stay balanced exactly if the queue was disabled or held its share |
| RtBandwidth.GroupBandwidth.BalanceFor | basic/kernel/sched/rt.c:758-772 | In place: borrows exactly when over budget |
| RtBandwidth.GroupBandwidth.ChargeRuntime | basic/kernel/sched/rt.c:845-937 | In place: charge, loan, throttle or drop as specified; books kept |
| RtBandwidth.GroupBandwidth.PeriodTimer | basic/kernel/sched/rt.c:780-831 | In place: loan, pay-back and release as specified; books kept |
| RtThrottle.NextOk | basic/kernel/sched/rt.c:780-937 | Every charge and timer step keeps: unthrottled implies time at most budget, throttled implies at least, and charged = time + drained |
| RtThrottle.ChargeExact | basic/kernel/sched/rt.c:845-892 | A charge is owed in full, and a limiting budget is throttled iff it was or has now been overrun; without any runtime the overrun is dropped |
| RtThrottle.PeriodExact | basic/kernel/sched/rt.c:779-823 | A timer pass pays what `overrun` budgets cover, lifts the throttle iff less than one budget is left of a debt, and answers idle iff nothing is owed or queued |
| RtThrottle.EveryRun | basic/kernel/sched/rt.c:780-937 | Over every run an unthrottled queue has used at most (K+1) budgets in K accounted periods |
| RtThrottle.WaitOk | basic/kernel/sched/rt.c:780-831 | While it stays throttled and uncharged the debt falls by exactly one budget a period |
| RtThrottle.ReleasedInTime | basic/kernel/sched/rt.c:780-831 | A throttled queue with no further charge is released within floor(time/budget) periods |
| RtThrottle.NotReleasedEarly | basic/kernel/sched/rt.c:780-831 | ...and not while a whole budget of debt is left after each earlier period |
| RtThrottle.TimerStaysOn | basic/kernel/sched/rt.c:780-831 | The timer never answers idle while the queue is throttled |
| RtThrottle.AloneIs | basic/kernel/sched/rt.c:780-937 | On a span of one CPU the charging and the timer of `RtBandwidth`, loans included, are those of this queue |
| RtThrottle.ThrottledRq.RuntimeExceeded | basic/kernel/sched/rt.c:845-892 | In place: throttles exactly when over a positive budget below the period; a zero budget drops the debt; answers yes exactly when throttled and nothing boosted is queued |
| RtThrottle.ThrottledRq.UpdateCurr | basic/kernel/sched/rt.c:898-937 | In place: charges and throttles as specified, and asks for a reschedule exactly when effectively throttled |
| RtThrottle.ThrottledRq.PeriodTimer | basic/kernel/sched/rt.c:780-831 | In place: pays back at most overrun budgets, releases below budget, answers idle as specified |
| Locks.BodyUpward | basic/kernel/sched/sched.h:1018-1121 | Each locking routine, called as its source demands, acquires blockingly only upward in the order pi_lock < run queues by address, releases only what is held, and ends with exactly the locks it promises |
| Locks.DoubleLockUpward | basic/kernel/sched/sched.h:1087-1105 | `double_rq_lock` acquires upward and ends with both locks, equal queues included |
| Locks.RunOneOk | basic/kernel/sched/core.c:295-344 | Each single lock operation, the retries of `task_rq_lock` included, keeps the discipline |
| Locks.SetTaskCpuOk | basic/kernel/sched/core.c:1085-1119 | Moving a task under its pi_lock or its queue's lock never takes it from another thread that owns it through `task_rq_lock` |
| Locks.NextOk | basic/kernel/sched/sched.h:1018-1121 | Every step of every thread keeps mutual exclusion, the lock order and ownership |
| Locks.NoCycle | basic/kernel/sched/sched.h:1018-1121 | Where the discipline holds there is no cycle of waiters of any length |
| Locks.NoDeadlock | basic/kernel/sched/core.c:295-344 | In every state any run of any number of threads reaches, waiters never form a cycle |
| Locks.SomeoneCanGo | basic/kernel/sched/sched.h:1018-1121 | ...and from every stuck thread the waits lead to a thread that is not stuck |
| Locks.CallsDeliver | basic/kernel/sched/core.c:295-344 | In every reachable state a thread outside a call holds exactly the locks promised, and the queue `task_rq_lock` returned is still its task's queue |
| Locks.StepExact | basic/kernel/sched/core.c:295-345 | A step changes only its own thread and only `set_task_cpu` a task's CPU; a try takes its lock exactly if nobody holds it; the task locks look again after locking and start over exactly if the task has moved; what they returned lapses only with one of its locks or by moving the task |
| Locks.TaskLockEnds | basic/kernel/sched/core.c:295-345 | `task_rq_lock` and `__task_rq_lock` end in no other way than holding the lock of the queue the task is on |
| Locks.TaskLockKeepsPiIff | basic/kernel/sched/core.c:295-345 | `task_rq_lock` gives the task's own lock up when it starts over, `__task_rq_lock` keeps it |
| Locks.WakeLocalHoldsBothIff | basic/kernel/sched/core.c:1652-1681 | `try_to_wake_up_local` has both the task's and the queue's lock to wake the task under exactly if the task is on this queue and not running |
| Locks.BalanceKeepsOwnIff | basic/kernel/sched/sched.h:1018-1060 | `double_lock_balance` never gives up its own queue exactly without CONFIG_PREEMPT and with its own queue first in address order |
| Locks.OwnerUndisturbed | basic/kernel/sched/core.c:1096-1107 | No step of another thread ends that ownership |
| WrrRotation.Turn | basic/kernel/sched/wrr.c:156-183 | The head runs for exactly as many ticks as its slice lasts (2^32 for a slice of zero), then is at the tail with its group's slice |
| WrrRotation.Turns | basic/kernel/sched/wrr.c:156-183 | After the turns of the tasks in front, they are at the tail with full slices, each having run exactly its slice |
| WrrRotation.TickWait | basic/kernel/sched/wrr.c:156-183 | Each tick brings every waiting task exactly one tick closer |
| WrrRotation.WaitExact | basic/kernel/sched/wrr.c:7-17 | With any tail enqueues interleaved, and whatever slices are refilled to, a task is head after exactly the sum of the slices in front of it and not before |
| WrrRotation.Rotations | basic/kernel/sched/wrr.c:156-183 | Over k rotations from full slices the queue returns and each task gets exactly k times its group's slice |
| WrrRotation.Weights | basic/kernel/linux/sched.h:1273-1274 | Foreground to background is exactly 10:1 when HZ is a multiple of 100, and at least 10:1 from HZ 100 on |
| WrrRotation.PathRefillIff | basic/kernel/sched/wrr.c:172-177 | A refill by what the two comparisons find in the path buffer is that of the task's own group if they answer as on its own path, and from HZ 100 on only then |
| WrrRotation.RefillZeroIff | basic/kernel/sched/wrr.c:172-177 | A refill from a group's own path leaves zero, and the next turn lasts 2^32 ticks, exactly for groups other than the two named ones, for the foreground group below HZ 10 and the background group below HZ 100 |
| WrrRotation.OwnRun | basic/kernel/sched/wrr.c:156-183 | A run of ticks whose refills are from the own group is that many ticks of the rotation |
| WrrRotation.TurnIsGroupSliceIff | basic/kernel/sched/wrr.c:169-177 | A turn lasts the group's slice exactly if it starts with that slice and it is not zero; after a refill exactly if the refill is not zero |
| WrrRotation.RunKeepsBounds | basic/kernel/sched/wrr.c:7-17 | So does every run of ticks with own-group refills and tail enqueues of tasks within bounds |
| WrrRotation.TickKeepsBounds | basic/kernel/sched/wrr.c:169-177 | With HZ at least 100 and only the two named groups, ticks keep every slice between one and its group's slice |
| WrrPath.NextOk | basic/kernel/sched/wrr.c:172-177 | Every step of every CPU and of `get_rr_interval_wrr` on the shared path buffer keeps: a finished refill is that of the paths found, and an undisturbed one finds its own |
| WrrPath.NextExact | basic/kernel/sched/wrr.c:172-177 | Each comparison looks at the buffer as it is then, the first that matches sets the slice, and none leaves it at zero; a write or query leaves its own path there |
| WrrPath.EveryInterleaving | basic/kernel/sched/wrr.c:172-177 | Over every interleaving on any number of CPUs a refill is the task's own group's exactly (from HZ 100 on) if the comparisons answered as on its own path; they do if nobody else wrote the buffer in between |
| WrrPath.ForeignRefills | basic/kernel/sched/wrr.c:172-177 | Two runs: another CPU's background task leaves a foreground task with the background slice, and one of any other group leaves it with none, a turn of 2^32 ticks |
| SchedClasses.EnqueueOk | basic/kernel/sched/wrr.c:7-32 | Enqueueing adds exactly one task to exactly its class's queue and every counter stays the length it stands for |
| SchedClasses.DequeueOk | basic/kernel/sched/wrr.c:60-75 | Dequeueing takes out exactly that task, counters exact |
| SchedClasses.RequeueOk | basic/kernel/sched/wrr.c:77-86 | Requeueing moves a task within the WRR queue and changes no membership |
| SchedClasses.BestUnique | basic/kernel/sched/sched.h:862-864 | The class walk's result is the only one with no higher class offering a task |
| SchedClasses.PickNextTask | basic/kernel/sched/core.c:3297-3320 | With exact counters, the all-fair shortcut and the walk both return the task of the highest class (stop, rt, wrr, fair, idle) that offers one |
| SchedClasses.OnlyFair | basic/kernel/sched/core.c:3303-3311 | When all counted tasks are fair no other class has one to offer |
| SchedClasses.ShortcutNeedsCounts | basic/kernel/sched/core.c:3303-3311 | With counters that disagree with the queues the shortcut can pass over a waiting RT task |
| SchedClasses.CheckPreemptCurr | basic/kernel/sched/core.c:1059-1082 | Across classes the current task is marked iff the woken task's class is strictly higher; within the WRR class never |
| SchedCell.AcceptableIs | basic/kernel/sched/core.c:4239-4244 | The parameter test of `__sched_setscheduler` accepts exactly priorities up to 99 that are zero or come with an RT or the WRR policy |
| SchedCell.AcceptableIffDocumented | basic/kernel/sched/core.c:4234-4244 | It agrees with the documented rule except exactly for an RT policy with priority zero and the WRR policy with priority 1 to 99 |
| SchedCell.UndocumentedAccepted | basic/kernel/sched/core.c:4243-4243 | FIFO with priority 0 is accepted and lands in the RT class at priority 99; WRR with priority 50 is accepted and lands in the WRR class |
| SchedCell.DequeueInv | basic/kernel/sched/core.c:722-727 | After `dequeue_task` the task is in no queue and everything else is where it belongs |
| SchedCell.EnqueueInv | basic/kernel/sched/core.c:715-720 | After `enqueue_task` every task is in exactly its class's queue |
| SchedCell.TransactionInv | basic/kernel/sched/core.c:4335-4355 | Dequeue, put, change, set current, enqueue leaves the task in exactly the queue of its new class, for any of the four kinds of change |
| SchedCell.ChangeTaskInv | basic/kernel/sched/core.c:4171-4357 | So does the whole operation with its early returns |
| SchedChanges.ChangeExact | basic/kernel/sched/core.c:3948-4357 | Every change of policy, priority, nice value or group: which come to nothing; what the task is after any other, field by field; that it is in the queue of the class it then has, last in the WRR queue; and that no other task changes or moves |
| SchedChanges.BoostReaches | basic/kernel/sched/core.c:3985-3997 | A queued task given a priority below 100 is in the RT queue, given any other it is in the fair queue |
| SchedChanges.UnboostRestoresIff | basic/kernel/sched/core.c:3985-3997 | Getting its priority back after a boost restores a task's class exactly if that is the class its priority stands for: a WRR task is left out of the WRR class |
| SchedCell.ActivateInv | basic/kernel/sched/core.c:729-735 | A wake-up leaves the task in exactly its class's queue |
| SchedCell.SleepInv | basic/kernel/sched/core.c:3342-3362 | A blocking task leaves every queue |
| SchedCell.YieldInv | basic/kernel/sched/wrr.c:88-93 | A yield changes no membership |
| SchedCell.TickInv | basic/kernel/sched/wrr.c:156-183 | A tick changes no membership |
| SchedCell.SwitchInv | basic/kernel/sched/core.c:3371-3382 | A switch changes no membership and runs a task queued on this CPU |
| SchedAccounts.UpdateCurrAcct | basic/kernel/sched/wrr.c:38-58 | Charging settles the account: charged equals elapsed, and the tasks gain exactly what was charged |
| SchedAccounts.PutPrevAcct | basic/kernel/sched/wrr.c:114-120 | Putting the running task settles the account although its start time is zeroed |
| SchedAccounts.SetCurrAcct | basic/kernel/sched/wrr.c:129-136 | From a settled account, set_curr starts timing from now |
| SchedAccounts.TransactionAcct | basic/kernel/sched/core.c:4335-4355 | A transaction on a running or waiting task, with the clock moving at both ends, keeps the account exact |
| SchedAccounts.TickAcct | basic/kernel/sched/wrr.c:156-183 | A tick keeps the account exact |
| SchedAccounts.SwitchAcct | basic/kernel/sched/core.c:3287-3320 | A switch settles the outgoing task and times a WRR successor from now |
| SchedRuns.NextInv | basic/kernel/sched/core.c:715-743 | Every step on any CPU keeps membership, counters and accounts on all CPUs |
| SchedRuns.MigrateInv | basic/kernel/sched/core.c:5225-5230 | Migration of a queued task leaves it in exactly its class's queue on the destination |
| SchedRuns.WakeInv | basic/kernel/sched/core.c:1398-1406 | A wake-up onto any CPU leaves the task in exactly its class's queue there |
| SchedRuns.NextGains | basic/kernel/sched/wrr.c:38-58 | Every step charges tasks exactly what the run queues record |
| SchedRuns.SlicesKept | basic/kernel/sched/core.c:4171-4187 | No operation but the tick changes a slice: entry to the WRR class sets none |
| SchedSteps.LocalExact | basic/kernel/sched/core.c:715-743 | What each tick, yield, sleep, switch and change does to its run queue and its tasks, field by field, and that no other run queue changes |
| SchedSteps.UpdateCurrExact | basic/kernel/sched/wrr.c:38-58 | What the current WRR task has run is added to its time and no other's, and it is timed from now |
| SchedSteps.TickExact | basic/kernel/sched/wrr.c:156-183 | A WRR tick takes one off the slice; at zero it is refilled and the task goes to the tail if not alone |
| SchedSteps.YieldExact | basic/kernel/sched/wrr.c:88-93 | The yielding WRR task is last and the others keep their order |
| SchedSteps.SleepExact | basic/kernel/sched/core.c:3342-3362 | A blocking task is queued no more, and no other task changes |
| SchedSteps.SwitchExact | basic/kernel/sched/core.c:3371-3382 | A switch runs the best task of the highest class that offers one, a WRR task from now on, and changes no queue |
| SchedSteps.WakeExact | basic/kernel/sched/core.c:1398-1406 | A wake-up puts the task on the CPU chosen, in the queue of its class, last if it is a WRR task |
| SchedSteps.MigrateExact | basic/kernel/sched/core.c:5201-5240 | A migration takes a queued task from its CPU's queue to the destination's and leaves any other task where it is |
| SchedRuns.FirstTurnWraps | basic/kernel/sched/core.c:4179-4180 | A run from boot, for every HZ: a foreground task with slice zero wakes, is made SCHED_WRR and runs, and its first turn lasts 2^32 ticks |
| SchedRuns.EveryRunPlaced | basic/kernel/sched/core.c:3948-4047 | Over every run: a task with on_rq set is in exactly the queue of its class on its CPU, any other in none; wrr_nr_running is the WRR queue length and nr_running the total |
| SchedRuns.EveryRunCharged | basic/kernel/sched/wrr.c:38-136 | Over every run: total execution time gained equals the clock_task time elapsed with a WRR task current, less what the current tasks have not yet been charged |
| WrrTurns.TickTurns | basic/kernel/sched/wrr.c:95-112 | On a CPU with no stop or RT task, a tick of the class with the reschedule it asks for is one tick of the rotation, refilling as the path buffer says |
| WrrTurns.WakeJoins | basic/kernel/sched/wrr.c:7-32 | A WRR wake-up is a join at the tail |
| WrrTurns.ScheduleStays | basic/kernel/sched/wrr.c:95-112 | A schedule without a tick runs the head again, changes no slice and moves the clock |
| WrrTurns.RunRotates | basic/kernel/sched/wrr.c:77-112 | Every run of ticks, wake-ups and schedules is a run of the rotation |
| WrrTurns.OwnPathsRefill | basic/kernel/sched/wrr.c:172-177 | If the path buffer answers on the running task's own path whenever a slice runs out, every refill of the run is the task's own |
| WrrTurns.RunKeepsSlices | basic/kernel/sched/wrr.c:156-183 | Over every such run of tasks in the two named groups, with refills answered on the own path, every slice stays between one and its group's |
| WrrTurns.TurnComes | basic/kernel/sched/wrr.c:156-183 | The task at position i is current after exactly the sum of the slices in front of it, whatever wakes up meanwhile and whatever the path buffer holds |
| WrrTurns.RotationShares | basic/kernel/sched/wrr.c:156-183 | Over k rotations from full slices, with refills answered on the own path, every task is current for exactly k times its group's slice |
| WrrRq.RunQueue.UpdateCurr | basic/kernel/sched/wrr.c:38-58 | In place: charges the running WRR task and settles the account |
| WrrRq.RunQueue.Enqueue | basic/kernel/sched/wrr.c:7-32 | In place: the task at the end asked for, the others as they were, counters exact |
| WrrRq.RunQueue.Dequeue | basic/kernel/sched/wrr.c:60-75 | In place: charges, then removes exactly the task, counters exact |
| WrrRq.RunQueue.Requeue | basic/kernel/sched/wrr.c:77-86 | In place: same tasks, the moved one at the chosen end |
| WrrRq.RunQueue.YieldTask | basic/kernel/sched/wrr.c:88-93 | In place: the running task is last |
| WrrRq.RunQueue.PickNext | basic/kernel/sched/wrr.c:95-112 | In place: the head, timed from now, or nothing |
| WrrRq.RunQueue.PutPrev | basic/kernel/sched/wrr.c:114-120 | In place: settles the account, then zeroes the start time |
| WrrRq.RunQueue.SetCurr | basic/kernel/sched/wrr.c:129-136 | In place: from a settled account, exact again |
| WrrRq.RunQueue.TaskTick | basic/kernel/sched/wrr.c:156-183 | In place: charge, count down with wrap, refill by what the comparisons find in the path buffer, rotate when two or more are queued |
| WrrRq.RunQueue.Change | basic/kernel/sched/core.c:4335-4355 | In place: the transaction makes the task what was asked for and leaves every task in exactly its queue |
| SchedDomains.FindDomain | basic/kernel/sched/core.c:6828-6832 | The inner loops find a domain exactly if one with equal mask and attributes is listed |
| SchedDomains.Domains.Destroy | basic/kernel/sched/core.c:6826-6837 | Exactly the CPUs of domains not asked for again, or all on a new topology, are detached |
| SchedDomains.Domains.Partition | basic/kernel/sched/core.c:6810-6870 | Every CPU ends attached to the domain of the new mask that holds it, or detached if none; a domain asked for again keeps its build when the topology is unchanged, every other is built anew |
| SchedDomains.BuildStep | basic/kernel/sched/core.c:6846-6857 | Building or keeping one domain is right for every CPU, inside it or not |
| Completions.PositiveIffTook | basic/kernel/sched/core.c:3696-3720 | A returning call is positive iff it took a token, except exactly for a wait that finds a token at once and was given a timeout beyond LONG_MAX |
| Completions.TakesAndReturnsNegative | basic/kernel/sched/core.c:3718-3719 | One post, then a wait given -5: it takes the token and returns -5 |
| Completions.NextOk | basic/kernel/sched/core.c:3665-3730 | Every step keeps posted = taken + done + overflows * 2^32 and the meaning of every returned value |
| Completions.EveryInterleaving | basic/kernel/sched/core.c:3665-3730 | Over every interleaving of posts, tries and waits: that equation, and positive results are exactly the tokens taken when no timeout is beyond LONG_MAX |
| Completions.NoTokenLost | basic/kernel/sched/core.c:3696-3720 | A sleeping wait whose token has come takes it when it runs, timed out or signalled or not |
| Completions.PostExact | basic/kernel/sched/core.c:3665-3693 | `complete` posts one token and `complete_all` half of what an unsigned int counts, modulo its width |
| Completions.WaitExact | basic/kernel/sched/core.c:3696-3720 | What every try and wait returns: with a token what is left of the timeout, or one if nothing; without one zero when the time is up, -ERESTARTSYS on a signal, and otherwise it sleeps on with what is left |

## Left out
- Real-time queue: leaf lists beyond the on/off flag, pushable and migratory counters, cpupri, overload masks, reschedule requests and `exec_start` in the pick.
- Real-time push and pull between CPUs, `find_lowest_rq`, `pick_next_highest_task_rt`: not modelled.
- Round-robin slices of the RT class and RLIMIT_RTTIME watchdogs: not modelled.
- Removal of groups from the real-time tree: groups are only created there; the admission model removes them.
- The test for "has RT tasks" (EBUSY): an arbitrary predicate of the group in the admission model, because the source asks only about the root queue's group.
- RtAdmissionRuns.EveryRun: operations do not overlap; `RtAdmissionRaces` lets them.
- RtAdmissionRuns.RtSettings.SchedRtHandler: one uninterrupted call; its steps are those of `RtAdmissionRaces`.
- RtAdmissionRaces.EveryInterleaving: a walk reads period and runtime of the sysctls together, groups come and go only between walks, and a period of zero in flight gives a ratio of zero, as the 32-bit division does.
- WrrPath.EveryInterleaving: writing the path and each comparison are one step each; a comparison that meets a half-written path is not modelled.
- Autogroups, cgroup files, sysctl plumbing, capability, rlimit and SELinux checks: not modelled.
- RtThrottle.EveryRun: one queue with a fixed budget; `RtBandwidth` has the same operations with loans, and `RtRuns` a group's place in the tree.
- RtThrottle.ThrottledRq.PeriodTimer: re-queueing a released group is `RtRuns.UnthrottleOk`; the timer's answer when bandwidth control is switched off is not modelled.
- RtBandwidth: 64-bit arithmetic is unbounded integers; `BudgetBound` gives the bound under which that is exact. The locks inside the loops and the RCU iteration are not modelled.
- LoadAccounting.EveryInterleaving: jiffies do not wrap, and the three averages themselves are not state there; `LoadAverage` covers them.
- LoadAverage.CatchUp: stated over unbounded integers; `NoOverflow` gives the bound for one step.
- CpuLoad: loads are unbounded integers; only jiffies wrap.
- Locks: memory order, interrupts and lock fairness are not modelled; a retry loop of `task_rq_lock` may retry for ever. Locks other than pi_locks and run-queue locks are absent.
- WRR hooks with empty or undefined bodies (`select_task_rq_wrr`, `set_cpus_allowed_wrr`, online/offline, pre- and post-schedule), `task_fork_wrr`, `get_rr_interval_wrr`: not modelled.
- CFS, stop and idle classes: queues with counters; what they offer when asked is an input.
- SchedRuns.EveryRunCharged: execution time is counted only where the WRR class charges it; what the RT and fair classes add to `sum_exec_runtime` is not modelled.
- Reschedule requests: `CheckPreemptCurr` and `TaskTick` answer them; the state machine of `SchedRuns` lets a switch happen at any time.
- WrrTurns.TurnComes: a tick that asks for a reschedule is followed by it before the next tick.
- Load weights, statistics, tracing, preempt notifiers, context switch, hot-plug draining (`migrate_tasks`): not modelled.
- SchedDomains.Domains.Partition: building a domain is one operation that succeeds; its internal levels, groups and power are not modelled, and attributes are compared as one value.
- Completions.EveryInterleaving: the order in which sleepers are woken and MAX_SCHEDULE_TIMEOUT as a special value are not modelled.
- Benchmarks, user programs, scripts and build files of the repository: not modelled.
