# CPU scheduling simulator: a verified model

This project models the scheduling engine of a CPU-scheduling simulator.
`src/scheduling_algorithms.py` holds the class `SchedulingAlgorithm` with six policies:
first come first served (FCFS), preemptive and non-preemptive shortest job first (SJF), Round Robin,
and preemptive and non-preemptive priority. `Project/src/process.py` holds the records the engine works on:
the `Priority` enumeration, `Process` with its defaults and `reset`, `TimeSlot` and its duration, and
`SchedulingResult.calculate_metrics`, which summarises a run.

Each policy takes a process list and returns a `SchedulingResult`. The result holds:
- a timeline of time slots, where the id `"IDLE"` marks idle time;
- the processes with their start and completion times filled in;
- the number of context switches and the total time.

How the Dafny mirrors the Python:
- **Class and loops.** `SchedulingAlgorithm` is a Dafny class whose constant field is the context-switch delay.
  Each policy is a method whose `while` loop keeps the Python loop's variables: clock, slots, switch count,
  completed list, and the ready queue and admission index where the source has them.
  A loop invariant ties those variables to the specification.
  Each branch of a loop body is a helper method of its own, for example `DispatchReady` and `IdleUntilArrival`.
- **Shared loops.** The two non-preemptive policies differ only in their sort key, and so do the two preemptive ones.
  Each pair shares one loop that takes a selection `Rule`:
  - `ShortestRemaining`: `remaining_time`;
  - `ShortestBurst`: `(cpu_burst_time, arrival_time)`;
  - `HighestPriority`: `(-priority.value, arrival_time)`.
- **Selection.** `sorted(ready, key)[0]` is modelled as the ready process that precedes every other ready one.
  "Precedes" means a smaller key, or an equal key and an earlier list position, because Python's sort is stable.
- **What each policy promises.** The outcome of each policy is stated as a predicate over its result:
  - FCFS (`FcfsOutcome`): the timeline and the records are closed-form functions of the input,
    with n − 1 switches.
  - Non-preemptive policies (`NonPreemptiveRun`):
    - every process runs once, for its whole burst;
    - a switch delay falls between consecutive runs, n − 1 switches in all;
    - each process dispatched preceded, in key order, every process that had arrived and was still waiting.
  - Preemptive policies (`PreemptiveRun`):
    - one-unit slices, and each process gets as many slots as its burst;
    - a switch is charged exactly when a process with work left is displaced;
    - every slice went to the first ready process in key order, given the remaining times at that moment.
  - Round Robin (`RoundRobinRun`):
    - no slice is longer than the quantum, and each process gets ⌈burst / quantum⌉ slices;
    - every slice of a process but its last is a full quantum;
    - a switch delay follows every slice, including the last;
    - processes start in list order.
  - Round Robin, dispatch order (`RoundRobinSchedule`): the run is also pinned down pass by pass.
    `RoundRobinSchedule` is a recursive function over the loop's variables (`LoopState`).
    Each pass admits the arrived processes at the back of the FIFO queue, then serves the head (`ServeHead`) or idles.
    A head that still has work goes to the back of the queue, behind the processes that arrived during its slice.
    `ScheduleRoundRobin` ensures its result equals `RoundRobinSchedule`,
    and `SliceStep` states the requeue order on the loop's own variables.
- **Idle slots.** For every policy, each idle slot ends at some process's arrival.
  While the CPU idles, every process has either completed or not yet arrived.
  The `break` of FCFS and Round Robin is proved unreachable.

Round Robin charges a context switch after every slice, including the slice that completes the last process
(`src/scheduling_algorithms.py:253-254`). So its switch count equals the number of slots that run a process,
and its total time is the end of the last slot plus one switch delay. FCFS and the non-preemptive policies
charge a switch only while processes remain (lines 47-49, 180-182, 385-387), for n − 1 in total.
The model follows the code in each case.

FCFS does not call `reset()`. The model keeps this: a start time that was already set before the run survives it.

## Model

| member | source | states |
|---|---|---|
| Process.Priority.Value | Project/src/process.py:5-8 | every level's value lies between LOW = 1 and HIGH = 3 |
| Process.PriorityOrder | Project/src/process.py:5-8 | HIGH > NORMAL > LOW, and two levels have equal values only when they are the same level |
| Process.PriorityFromName | Project/src/process.py:26-27 | a name finds a level exactly when its upper-cased form is HIGH, NORMAL or LOW, and then it finds the level of that name; an unknown name gives no level, where Python raises KeyError |
| Process.UpperIdempotent | Project/src/process.py:26-27 | upper-casing an already upper-cased name changes nothing |
| Process.PriorityFromNameIgnoresCase | Project/src/process.py:26-27 | a name and its upper-cased form look up the same level |
| Process.PriorityNameRoundTrip | Project/src/process.py:26-27 | every level is found again from its own name and from its lower-case spelling |
| Process.Priority.Name | Project/src/process.py:5-8 | a level's member name is HIGH, NORMAL or LOW, and upper-casing leaves it unchanged |
| Process.Upper | Project/src/process.py:26-27 | upper-casing keeps the length, turns each lower-case letter into its capital, keeps every other character, and leaves no lower-case letter |
| Process.NewProcess | Project/src/process.py:11-27 | construction fails only for a priority name that names no level; otherwise the record keeps the given id, arrival, burst and priority, remaining time defaults to the burst, and every time field is unset |
| Process.NewProcessIsFresh | Project/src/process.py:23-25 | a process built without a remaining time has all its work outstanding and no times set |
| Process.Reset | Project/src/process.py:29-35 | reset keeps id, arrival, burst and priority, and returns remaining time to the burst with every time field unset |
| Process.ResetIsFreshConstruction | Project/src/process.py:23-35 | a reset record equals a fresh construction from the same static fields, and resetting twice equals resetting once |
| Process.TimeSlot.Duration | Project/src/process.py:43-44 | a slot's duration is what takes its start to its end, and it is non-negative exactly when the slot does not end before it starts |
| Timeline.Append | src/scheduling_algorithms.py:35-40 | appending a slot adds its duration and one slot to its own process's service and slot count, becomes that process's last end and, if it had none, its first start; other processes are unaffected |
| Timeline.AppendTotals | src/scheduling_algorithms.py:35-49 | appending a slot adds its duration to the span and, unless it is idle, to the busy time and the count of run slots |
| Timeline.NoSlot | src/scheduling_algorithms.py:227-228 | a process has no first start exactly when no slot runs it, exactly when it has no last end, and then it has received no service |
| Timeline.LastEndWitness | src/scheduling_algorithms.py:242-243 | a process's last end is the end of a slot that runs it |
| Timeline.ServiceWithinTrace | src/scheduling_algorithms.py:100-115 | on an ordered timeline the service a process receives fits between its first start and its last end |
| Timeline.SpanWithin | Project/src/process.py:77-78 | on an ordered timeline 0 ≤ busy time ≤ summed slot lengths ≤ last end − first start |
| Workload.UniqueIdsDistinct | src/scheduling_algorithms.py:87-89 | with unique ids, two positions of the list hold different processes; this is what makes Python's value-equality `in` test identity |
| Workload.CompletedBurstIsTotal | src/scheduling_algorithms.py:20 | once every process has completed, the completed bursts are all the bursts |
| Workload.TotalBurstSame | src/scheduling_algorithms.py:77-78 | progress updates leave the summed bursts unchanged |
| Workload.ServedAll | src/scheduling_algorithms.py:117-120 | once no process has work left, the work done equals all the bursts |
| Workload.ServedNone | src/scheduling_algorithms.py:77-78 | after reset no work has been done |
| Workload.SliceLength | src/scheduling_algorithms.py:230 | min(limit, remaining) is at most both arguments and equals one of them |
| Workload.BurstOfUnique | src/scheduling_algorithms.py:96 | with unique ids, the burst found by id is that process's burst |
| Workload.UpdateOne | src/scheduling_algorithms.py:105-120 | changing one record changes the completed count, outstanding work, work done, completed bursts and future arrivals by exactly that record's contribution |
| Workload.AllDone | src/scheduling_algorithms.py:20 | when the completed count is the list length, every process has a completion time |
| Workload.NoneDone | src/scheduling_algorithms.py:77-78 | with no completion times, nothing counts as completed |
| Workload.SomeNotDone | src/scheduling_algorithms.py:20 | while fewer than all have completed, some process has no completion time |
| Workload.CountDoneBound | src/scheduling_algorithms.py:20 | the completed count never exceeds the list length |
| Workload.CompletedBurstAll | src/scheduling_algorithms.py:117-120 | when every process has completed, completed bursts = work done + work outstanding |
| Workload.FutureShrinks | src/scheduling_algorithms.py:121-131 | moving the clock to a later arrival strictly lowers the number of processes still to arrive |
| Workload.FutureNotGrowing | src/scheduling_algorithms.py:121-131 | moving the clock forward never raises the number of processes still to arrive |
| Workload.SameWellFormed | src/scheduling_algorithms.py:77-78 | progress updates keep ids unique, distinct from IDLE, and bursts positive |
| Selection.Range | src/scheduling_algorithms.py:21-24 | the run of indices a list slice admits, in order |
| Selection.Arrived | src/scheduling_algorithms.py:21-22 | the FCFS filter holds exactly the processes from the admission index on that have arrived, in increasing list order |
| Selection.ArrivedIsPrefix | src/scheduling_algorithms.py:21-24 | on a list sorted by arrival, the arrived processes form a contiguous run from the admission index, and the next one has not arrived |
| Selection.NoneArrived | src/scheduling_algorithms.py:21-22 | when nothing from the index on has arrived, the filter is empty |
| Selection.ArrivedUnqueued | src/scheduling_algorithms.py:218-220 | the Round Robin filter holds exactly the processes from the index on that have arrived and are neither queued nor completed |
| Selection.ArrivedUnqueuedIsArrived | src/scheduling_algorithms.py:218-220 | when nothing past the index is queued or completed, the Round Robin filter equals the plain arrival filter |
| Selection.NextArrival | src/scheduling_algorithms.py:51-52 | `next(...)` gives nothing exactly when everything from the index on has arrived; otherwise it gives the first process after the index that arrives later than the clock |
| Selection.ReadyFrom | src/scheduling_algorithms.py:87-89 | the ready list holds exactly the processes that have arrived, are not completed and have work left, in increasing list order |
| Selection.PendingArrivals | src/scheduling_algorithms.py:122-123 | the list holds the arrival of every uncompleted process, and only such arrivals |
| Selection.Min | src/scheduling_algorithms.py:122-123 | `min` returns a member of the list that is no larger than any member |
| Selection.MinPendingArrival | src/scheduling_algorithms.py:122-123 | the earliest arrival among the uncompleted processes: the arrival of one of them, and no later than any of theirs |
| Selection.Select | src/scheduling_algorithms.py:92-93 | the head of the stably sorted ready list is a ready process that precedes every ready process in key order |
| Selection.SelectIsUnique | src/scheduling_algorithms.py:92-93 | any ready process that precedes every ready process is the one selected, so the selection is determined by the key and list order |
| Selection.KeyOrder | src/scheduling_algorithms.py:159 | the key order is the order of each sort key (lines 92, 159, 297 and 364): least remaining time; least burst, then earliest arrival; highest priority value, then earliest arrival; any two keys are equal or ordered one way |
| Selection.PrecedesOrder | src/scheduling_algorithms.py:92 | precedence after a stable sort is a total order on list positions: reflexive, total, antisymmetric and transitive |
| RunSpec.CompletionBound | src/scheduling_algorithms.py:117-118 | a finished process completes no earlier than its arrival plus its burst |
| RunSpec.SomePending | src/scheduling_algorithms.py:20 | while the completed list is shorter than the process list, some process is not in it |
| RunSpec.StatusComplete | src/scheduling_algorithms.py:43-45 | recording a completion and appending the process keeps the completed list equal to the processes with a completion time |
| RunSpec.StatusUpdate | src/scheduling_algorithms.py:105-108 | updating a process that stays uncompleted keeps that agreement |
| RunSpec.ClockAppend | src/scheduling_algorithms.py:40-42 | a slot appended at the clock moves the clock to its end, keeping clock = summed slot lengths + switches × delay |
| RunSpec.ClockSwitch | src/scheduling_algorithms.py:47-49 | charging a switch adds one delay to the clock and one to the count |
| RunSpec.SwitchChargedAppend | src/scheduling_algorithms.py:40-49 | after a slot that ran a process and a charged switch, the next slot starts one delay after it |
| RunSpec.IdleAfterUpdate | src/scheduling_algorithms.py:43-44 | updating an uncompleted process by the clock keeps every earlier idle slot justified |
| RunSpec.IdleAfterRun | src/scheduling_algorithms.py:40 | appending a run slot adds no idle slot to justify |
| RunSpec.ChargedRun | src/scheduling_algorithms.py:40-49 | a run slot at the clock followed by a switch while work remains keeps the clock and the switch spacing |
| RunSpec.ChargedIdle | src/scheduling_algorithms.py:55-61 | an idle slot at the clock keeps the clock and the spacing, with no switch charged |
| RunSpec.NewIdleJustified | src/scheduling_algorithms.py:122-131 | an idle slot from the clock to the earliest pending arrival ends at an arrival, and no uncompleted process arrives inside it |
| RunSpec.IdleAfterIdle | src/scheduling_algorithms.py:125-130 | appending a justified idle slot keeps every idle slot justified |
| FirstComeFirstServed.StartBounds | src/scheduling_algorithms.py:26-33 | process k starts at its arrival or when the CPU is free, whichever is later, and never before time 0 |
| FirstComeFirstServed.CpuFree | src/scheduling_algorithms.py:26-49 | with a non-negative switch delay, the CPU is free for the next process no earlier than time 0 |
| FirstComeFirstServed.StartAt | src/scheduling_algorithms.py:21-33 | a process starts no earlier than it arrives |
| FirstComeFirstServed.Completed | src/scheduling_algorithms.py:29-45 | a dispatched process keeps its static fields, completes at its start plus its burst with no work left, keeps a start time already set and otherwise starts at its dispatch time; the other time fields are untouched |
| FirstComeFirstServed.RunsInOrder | src/scheduling_algorithms.py:26-49 | an earlier process ends, and a switch passes, before any later process starts |
| FirstComeFirstServed.EndsBeforeFree | src/scheduling_algorithms.py:42-49 | no process ends after the CPU is free for a later one |
| FirstComeFirstServed.TimelineClock | src/scheduling_algorithms.py:20-63 | the timeline of the first k processes is ordered, its clock equals slot lengths plus switches × delay, and one switch follows each run but the last |
| FirstComeFirstServed.TimelineBeforeClock | src/scheduling_algorithms.py:50-61 | the same holds up to the start of process k, the idle slot before it included |
| FirstComeFirstServed.BeforeBusy | src/scheduling_algorithms.py:55-60 | the idle slot before a process adds nothing to the busy time |
| FirstComeFirstServed.TimelineBusy | src/scheduling_algorithms.py:33-40 | the run slots of the first k processes add up to their bursts |
| FirstComeFirstServed.TimelineService | src/scheduling_algorithms.py:26-45 | each of the first k processes ran in exactly one slot of its burst from its start time; later processes have no slot yet |
| FirstComeFirstServed.TimelineIdle | src/scheduling_algorithms.py:50-61 | each idle slot ends at the next process's arrival, and during it every process has completed or not yet arrived |
| FirstComeFirstServed.ServedKept | src/scheduling_algorithms.py:33-40 | running the next process adds its one slot: it is served from its start time, and every earlier process keeps its service |
| FirstComeFirstServed.FcfsTimed | src/scheduling_algorithms.py:8-71 | the FCFS timeline is non-empty, ordered and starts at or after 0; total time is its last end and equals slot lengths plus switches × delay; a switch follows every run but the last |
| FirstComeFirstServed.FcfsService | src/scheduling_algorithms.py:26-45 | every process ran once, for its whole burst, from a start no earlier than its arrival; it completed at the end of that slot with no work left; an earlier start time is kept |
| FirstComeFirstServed.FcfsOrder | src/scheduling_algorithms.py:17-27 | FCFS serves in list order: an earlier process ends, and a switch passes, before a later one starts |
| FirstComeFirstServed.FcfsBusy | src/scheduling_algorithms.py:8-71 | the CPU was busy exactly for the summed bursts, and every process completed |
| FirstComeFirstServed.FcfsIdle | src/scheduling_algorithms.py:50-61 | FCFS idles only when nothing is ready |
| FirstComeFirstServed.FcfsAdmit | src/scheduling_algorithms.py:21-24 | admission appends the arrived processes from the admission index on to the queue, in list order, and advances the index past them |
| FirstComeFirstServed.FcfsDispatch | src/scheduling_algorithms.py:26-49 | the head of the queue is the next process in list order; running it, and charging a switch while work remains, advances the loop to the next process |
| FirstComeFirstServed.FcfsPending | src/scheduling_algorithms.py:50-54 | with the queue empty and work left, the next process in list order has not arrived yet, so `next(...)` finds it and the `break` is unreachable |
| FirstComeFirstServed.FcfsIdleStep | src/scheduling_algorithms.py:55-61 | the idle slot runs from the clock to that process's arrival and keeps the loop state |
| NonPreemptiveLoop.StaticKey | src/scheduling_algorithms.py:159 | the non-preemptive keys depend only on fields that a run never changes |
| NonPreemptiveLoop.Start | src/scheduling_algorithms.py:145-151 | after the reset, with an empty timeline at time 0, the loop invariant holds |
| NonPreemptiveLoop.Selected | src/scheduling_algorithms.py:158-160 | the selected process has arrived, is not completed and is still as reset left it |
| NonPreemptiveLoop.Dispatch | src/scheduling_algorithms.py:158-182 | running the selected process for its whole burst, completing it and charging a switch while work remains keeps the invariant |
| NonPreemptiveLoop.DispatchProgress | src/scheduling_algorithms.py:162-177 | the dispatched process ran once, nobody else's progress changed, and busy time grew by its burst |
| NonPreemptiveLoop.DispatchOrder | src/scheduling_algorithms.py:159-160 | the dispatched process precedes, in key order, every other process that had arrived and was not yet dispatched |
| NonPreemptiveLoop.NothingArrived | src/scheduling_algorithms.py:183-185 | with nothing ready, every uncompleted process arrives after the clock |
| NonPreemptiveLoop.Idle | src/scheduling_algorithms.py:183-193 | idling until the earliest pending arrival moves the clock strictly forward, lowers the count of future arrivals and keeps the invariant |
| NonPreemptiveLoop.IdleProgress | src/scheduling_algorithms.py:187-193 | an idle slot changes nobody's progress or the busy time |
| NonPreemptiveLoop.Finish | src/scheduling_algorithms.py:195-201 | once all have completed, the result meets `NonPreemptiveRun` |
| PreemptiveLoop.Begin | src/scheduling_algorithms.py:77-84 | after the reset, with an empty timeline at time 0 and no current process, the loop state holds |
| PreemptiveLoop.Picked | src/scheduling_algorithms.py:91-93 | the selected process is ready |
| PreemptiveLoop.DisplacedAppend | src/scheduling_algorithms.py:95-98 | appending a slot changes no earlier displacement |
| PreemptiveLoop.LastPair | src/scheduling_algorithms.py:95-98 | a new slot displaces exactly when the previous slot's process still has work and the new slot runs another process |
| PreemptiveLoop.SwitchAppend | src/scheduling_algorithms.py:95-98 | a slot that starts one delay later exactly when it displaces keeps the switch rule |
| PreemptiveLoop.DisplacedCountAppend | src/scheduling_algorithms.py:96-97 | the displacement count grows by one exactly when the new slot displaces |
| PreemptiveLoop.SliceTiming | src/scheduling_algorithms.py:95-115 | a unit slot after an optional switch keeps the clock, unit slots, the switch rule and switches = displacements |
| PreemptiveLoop.SliceShares | src/scheduling_algorithms.py:100-120 | one unit of work adds one slot to the chosen process; it starts if it had not and completes when no work is left; nobody else changes |
| PreemptiveLoop.SnapshotNow | src/scheduling_algorithms.py:92 | the list reconstructed from the timeline at the new slot has the current remaining times and keys |
| PreemptiveLoop.ChosenAppend | src/scheduling_algorithms.py:110-115 | appending a slot changes no earlier choice |
| PreemptiveLoop.NewChoice | src/scheduling_algorithms.py:91-93 | the new slot runs a ready process that precedes every ready process in key order at that moment |
| PreemptiveLoop.SlicePicks | src/scheduling_algorithms.py:91-115 | every slot, old and new, followed the key order |
| PreemptiveLoop.SliceWork | src/scheduling_algorithms.py:100-120 | one unit of the chosen process keeps service equal to busy time, the completion record, idle-only-when-nothing-ready, and lowers the outstanding work |
| PreemptiveLoop.Slice | src/scheduling_algorithms.py:91-120 | the run step keeps the loop state and strictly lowers the outstanding work |
| PreemptiveLoop.NothingWaiting | src/scheduling_algorithms.py:121-123 | with nothing ready, every uncompleted process arrives after the clock and no process is current |
| PreemptiveLoop.WaitShares | src/scheduling_algorithms.py:125-131 | an idle slot changes nobody's progress |
| PreemptiveLoop.WaitPicks | src/scheduling_algorithms.py:125-130 | an idle slot changes no choice |
| PreemptiveLoop.WaitTiming | src/scheduling_algorithms.py:125-131 | an idle slot moves the clock to its end with no switch, and leaves no process running |
| PreemptiveLoop.Wait | src/scheduling_algorithms.py:121-131 | idling until the earliest pending arrival moves the clock strictly forward, lowers the count of future arrivals and keeps the loop state |
| PreemptiveLoop.Conclude | src/scheduling_algorithms.py:133-139 | once all have completed, the result meets `PreemptiveRun` |
| PreemptiveLoop.AllFinished | src/scheduling_algorithms.py:117-120 | once every process is done, each one finished with as many slots as its burst and no work left |
| RoundRobinLoop.QuantaIsCeiling | src/scheduling_algorithms.py:230 | the slice count is the ceiling of burst / quantum: the slices cover the burst, and one slice fewer would not |
| RoundRobinLoop.Start | src/scheduling_algorithms.py:207-215 | after the reset, with an empty timeline, queue and admission index, the loop state holds |
| RoundRobinLoop.ArrivedCut | src/scheduling_algorithms.py:218-222 | on a sorted list the admitted processes are the contiguous run of arrivals from the index |
| RoundRobinLoop.QueueAdmit | src/scheduling_algorithms.py:221-222 | appending fresh arrived processes, in list order from the index, keeps the queue distinct, arrived and not completed, and the admitted prefix exact |
| RoundRobinLoop.Unadmitted | src/scheduling_algorithms.py:218-220 | a process past the admission index is neither queued nor completed |
| RoundRobinLoop.AdmitQueue | src/scheduling_algorithms.py:218-222 | admission appends exactly the processes between the old and new index, and these are the ones from the index on that have arrived |
| RoundRobinLoop.Admit | src/scheduling_algorithms.py:218-222 | admission keeps the loop state |
| RoundRobinLoop.Pending | src/scheduling_algorithms.py:255-259 | with the queue empty and work left, the process at the index is still to arrive, so `next(...)` finds it and the `break` is unreachable |
| RoundRobinLoop.IdleProgress | src/scheduling_algorithms.py:260-266 | an idle slot changes nobody's progress |
| RoundRobinLoop.IdleJustified | src/scheduling_algorithms.py:256-266 | the idle slot ends at an arrival, and during it every process has completed or not yet arrived |
| RoundRobinLoop.IdleStep | src/scheduling_algorithms.py:255-266 | the idle step keeps the loop state and lowers the count of future arrivals |
| RoundRobinLoop.LastSlice | src/scheduling_algorithms.py:230-244 | a burst that received full quanta and then a final slice of its remainder got exactly ⌈burst / quantum⌉ slices |
| RoundRobinLoop.SliceProgress | src/scheduling_algorithms.py:227-244 | one slice adds one slot of min(quantum, remaining) to the head; it starts if it had not and completes when no work is left; nobody else changes |
| RoundRobinLoop.QueueDrop | src/scheduling_algorithms.py:242-244 | a head that completes leaves the queue, and the queue keeps its shape |
| RoundRobinLoop.QueueRotate | src/scheduling_algorithms.py:251 | a head that still has work and has started goes to the back, and the queue keeps its shape |
| RoundRobinLoop.StartOrderStep | src/scheduling_algorithms.py:227-228 | a process starting now starts after every earlier process in the list, which have all started |
| RoundRobinLoop.NewArrivals | src/scheduling_algorithms.py:246-250 | the processes admitted after a slice are the contiguous run from the index that arrived by the slice's end |
| RoundRobinLoop.Requeue | src/scheduling_algorithms.py:245-251 | the processes that arrived during the slice go ahead of the requeued head |
| RoundRobinLoop.ServeClock | src/scheduling_algorithms.py:230-254 | a slice followed by a switch keeps the clock; switches equal run slots, and no slice exceeds the quantum |
| RoundRobinLoop.ServeTimeline | src/scheduling_algorithms.py:224-254 | after the run step the clock is the span plus one delay per switch, a delay follows the last slot, the switch count equals the number of run slots, no slice exceeds the quantum, the last slot is the head's, and every slice but a process's last is a full quantum |
| RoundRobinLoop.ServeQueue | src/scheduling_algorithms.py:224-251 | the run step keeps the queue shape and the list-order starts |
| RoundRobinLoop.RequeueOrder | src/scheduling_algorithms.py:245-251 | the new queue is the old tail, then the newly arrived processes in list order, then the old head |
| RoundRobinLoop.Serve | src/scheduling_algorithms.py:224-254 | the run step keeps the loop state and strictly lowers the outstanding work |
| RoundRobinLoop.FullQuantaIsProduct | src/scheduling_algorithms.py:230-234 | n full quanta of service amount to the quantum times n |
| RoundRobinLoop.FullSlots | src/scheduling_algorithms.py:230-234 | slots of at most a quantum that add up to a full quantum per slot are all full quanta |
| RoundRobinLoop.ServiceAtMost | src/scheduling_algorithms.py:230-234 | slots of at most a quantum give at most one quantum of service per slot |
| RoundRobinLoop.UnfinishedFull | src/scheduling_algorithms.py:230-251 | a process that still has work received only full quanta |
| RoundRobinLoop.FullAppend | src/scheduling_algorithms.py:240-251 | a slot appended after only full quanta of its process keeps every slot but each process's last a full quantum |
| RoundRobinLoop.ServeWork | src/scheduling_algorithms.py:227-244 | the run step keeps every process's progress, adds the slice to the busy time and the work done, and lowers the outstanding work |
| RoundRobinLoop.ServeStatus | src/scheduling_algorithms.py:242-244 | the run step keeps the completed list equal to the finished processes and every idle slot justified |
| RoundRobinLoop.ServeHead | src/scheduling_algorithms.py:224-254 | serving the head adds one slot and one switch and refers only to positions of the list |
| RoundRobinLoop.Admitted | src/scheduling_algorithms.py:218-222 | admission changes only the queue and the index: the old queue stays a prefix, the index advances by the number admitted, and an entry is admitted iff it is at or past the index, has arrived by the clock and is neither queued nor completed |
| RoundRobinLoop.AdmittedRange | src/scheduling_algorithms.py:218-222 | on a list sorted by arrival, the admitted processes are the contiguous run of the list from the index up to the first that has not arrived, appended in list order, and the queue invariant holds after admission |
| RoundRobinLoop.Pass | src/scheduling_algorithms.py:217-266 | one pass of the loop from a state that refers to positions of the list leads to such a state |
| RoundRobinLoop.Dispatch | src/scheduling_algorithms.py:224-268 | after admission, serving the head or idling until the next arrival leads to a state in range |
| RoundRobinLoop.Passes | src/scheduling_algorithms.py:217 | repeated passes lead to a state in range |
| RoundRobinLoop.RoundRobinSchedule | src/scheduling_algorithms.py:203-276 | the pass-by-pass schedule is named "Round Robin" and returns one record per input process |
| RoundRobinLoop.PassesDone | src/scheduling_algorithms.py:217 | once every process has completed no pass is left: the loop ends in the state it has |
| RoundRobinLoop.ScheduleFrom | src/scheduling_algorithms.py:207-215 | the reference starts from the reset processes, an empty timeline and queue, and the clock at 0 |
| RoundRobinLoop.StateInRange | src/scheduling_algorithms.py:217-222 | a state of the loop refers only to positions of the list |
| RoundRobinLoop.PassServes | src/scheduling_algorithms.py:224-225 | a pass whose admitted queue is non-empty serves the head of that queue |
| RoundRobinLoop.PassIdles | src/scheduling_algorithms.py:255-266 | a pass whose admitted queue is empty idles from the clock until the next arrival |
| RoundRobinLoop.ServeFollows | src/scheduling_algorithms.py:217-254 | a served pass of the loop, admission and then one slice with its requeue, is the next pass of the reference |
| RoundRobinLoop.IdleFollows | src/scheduling_algorithms.py:217-266 | an idle pass of the loop, admission and then the idle slot, is the next pass of the reference |
| RoundRobinLoop.SliceStepServes | src/scheduling_algorithms.py:224-254 | the step the loop takes on its variables is the head served as the reference serves it |
| RoundRobinLoop.ServeHeadSteps | src/scheduling_algorithms.py:224-254 | serving the head takes one step as `SliceStep` fixes it, FIFO requeue included |
| RoundRobinLoop.SliceStepUnique | src/scheduling_algorithms.py:224-254 | the step is deterministic: one state before gives one state after |
| RoundRobinLoop.EachFinished | src/scheduling_algorithms.py:270-276 | once every process is done, each is finished in the timeline with exactly ceil(burst / quantum) slots and nothing remaining |
| RoundRobinLoop.ConcludeTiming | src/scheduling_algorithms.py:253-254 | at the end the clock is the span plus one switch cost per switch, and the last slot is a process slot followed by one switch cost |
| RoundRobinLoop.Conclude | src/scheduling_algorithms.py:270-276 | once all have completed, the result meets `RoundRobinRun` |
| SchedulingAlgorithms.ResetAll | src/scheduling_algorithms.py:77-78 | every record of the copy is the reset of the corresponding input record |
| SchedulingAlgorithms.SchedulingAlgorithm.constructor | src/scheduling_algorithms.py:5-6 | the engine keeps the given context-switch delay, 0.001 by default |
| SchedulingAlgorithms.SchedulingAlgorithm.ScheduleFcfs | src/scheduling_algorithms.py:8-71 | an empty list gives an empty result; otherwise the result is the closed-form FCFS schedule: list order, n − 1 switches, total time when the CPU is free after the last process |
| SchedulingAlgorithms.SchedulingAlgorithm.ServeNext | src/scheduling_algorithms.py:26-49 | one dispatch completes the queue's head and keeps the FCFS loop state |
| SchedulingAlgorithms.SchedulingAlgorithm.ScheduleRoundRobin | src/scheduling_algorithms.py:203-276 | an empty list gives an empty result; otherwise the result is the pass-by-pass `RoundRobinSchedule`, with FIFO dispatch and requeue, and `RoundRobinRun` holds: every process finishes in ⌈burst / quantum⌉ slices of at most the quantum, full quanta until each process's last slice, one switch per slice, list-order starts, and idling only when nothing is ready |
| SchedulingAlgorithms.SchedulingAlgorithm.AdmitArrivals | src/scheduling_algorithms.py:218-222 | admission appends exactly the newly arrived processes in list order and keeps the loop state |
| SchedulingAlgorithms.SchedulingAlgorithm.RoundRobinPass | src/scheduling_algorithms.py:217-266 | one pass keeps the loop state, follows the reference by one pass, and spends one unit of the bound on the passes left |
| SchedulingAlgorithms.SchedulingAlgorithm.ServeAdmitted | src/scheduling_algorithms.py:224-254 | serving the admitted head keeps the loop state and follows the reference by one pass |
| SchedulingAlgorithms.SchedulingAlgorithm.IdleAdmitted | src/scheduling_algorithms.py:255-266 | idling with an empty queue keeps the loop state and follows the reference by one pass |
| SchedulingAlgorithms.SchedulingAlgorithm.IdleForArrival | src/scheduling_algorithms.py:255-266 | the CPU idles from the clock to the next process's arrival, which lies strictly later, keeping the loop state |
| SchedulingAlgorithms.SchedulingAlgorithm.RunQuantum | src/scheduling_algorithms.py:224-254 | the loop body's slice is one `SliceStep`: the head runs min(quantum, remaining), completes or goes to the back behind the newly arrived processes, and a switch follows |
| SchedulingAlgorithms.SchedulingAlgorithm.SchedulePreemptiveSjf | src/scheduling_algorithms.py:73-139 | an empty list gives an empty result; otherwise `PreemptiveRun` holds with the shortest-remaining-time key |
| SchedulingAlgorithms.SchedulingAlgorithm.SchedulePreemptivePriority | src/scheduling_algorithms.py:278-344 | an empty list gives an empty result; otherwise `PreemptiveRun` holds with the key (−priority, arrival) |
| SchedulingAlgorithms.SchedulingAlgorithm.ScheduleNonPreemptiveSjf | src/scheduling_algorithms.py:141-201 | an empty list gives an empty result; otherwise `NonPreemptiveRun` holds with the key (burst, arrival) |
| SchedulingAlgorithms.SchedulingAlgorithm.ScheduleNonPreemptivePriority | src/scheduling_algorithms.py:346-406 | an empty list gives an empty result; otherwise `NonPreemptiveRun` holds with the key (−priority, arrival) |
| SchedulingAlgorithms.SchedulingAlgorithm.RunPreemptive | src/scheduling_algorithms.py:73-139 | the shared preemptive loop ends in a result that meets `PreemptiveRun` for its rule |
| SchedulingAlgorithms.SchedulingAlgorithm.RunOneUnit | src/scheduling_algorithms.py:91-120 | one unit of work for the first ready process in key order keeps the loop state and lowers the outstanding work |
| SchedulingAlgorithms.SchedulingAlgorithm.WaitForArrival | src/scheduling_algorithms.py:121-131 | the idle step moves the clock strictly forward and keeps the loop state |
| SchedulingAlgorithms.SchedulingAlgorithm.RunNonPreemptive | src/scheduling_algorithms.py:141-201 | the shared non-preemptive loop ends in a result that meets `NonPreemptiveRun` for its rule |
| SchedulingAlgorithms.SchedulingAlgorithm.DispatchReady | src/scheduling_algorithms.py:158-182 | one dispatch completes one more process and keeps the invariant |
| SchedulingAlgorithms.SchedulingAlgorithm.IdleUntilArrival | src/scheduling_algorithms.py:183-193 | the idle step moves the clock strictly forward and keeps the invariant |
| Metrics.WithTimes | Project/src/process.py:61-64 | a completed process gets turnaround = completion − arrival and waiting = turnaround − burst, and nothing else changes; an uncompleted one is left alone |
| Metrics.WaitingTimes | Project/src/process.py:58-67 | there is one waiting time per completed process |
| Metrics.TurnaroundTimes | Project/src/process.py:58-67 | there is one turnaround time per completed process |
| Metrics.MaxOf | Project/src/process.py:73-75 | `max` returns a member no smaller than any element |
| Metrics.CalculateMetrics | Project/src/process.py:54-101 | every record is replaced by its write-back, and the statistics are those that `MetricsOf` defines |
| Metrics.RecordTimes | Project/src/process.py:61-67 | the loop writes back every record and collects the waiting and turnaround times of the completed processes, in list order |
| Metrics.Average | Project/src/process.py:72-74 | the average times the count gives back the sum |
| Metrics.Efficiency | Project/src/process.py:77-79 | when the run took time, efficiency × total time = busy time × 100; otherwise it is 0 |
| Metrics.Throughput | Project/src/process.py:81-88 | a throughput counts only completed processes, so it never exceeds the completed count |
| Metrics.MetricsOf | Project/src/process.py:54-101 | there are statistics exactly when some process completed; then each average is at most its maximum, the switch count is the run's, and throughput_50 ≤ throughput_100 ≤ throughput_150 ≤ throughput_200 ≤ the completed count |
| Metrics.MetricsAbsent | Project/src/process.py:55-70 | there are no statistics exactly when no process has a completion time, the empty list included |
| Metrics.AverageAtMostMax | Project/src/process.py:72-75 | an average never exceeds the maximum |
| Metrics.AverageNonNegative | Project/src/process.py:72-74 | an average of non-negative values is non-negative |
| Metrics.ThroughputMonotone | Project/src/process.py:81-88 | a later time limit counts at least the processes an earlier one counts, and no more than the list holds |
| Metrics.EfficiencyBounded | Project/src/process.py:77-79 | on a well-timed timeline the efficiency lies between 0 and 100 percent |
| Metrics.WaitingNonNegative | Project/src/process.py:61-67 | when every process finished on an ordered timeline, no waiting or turnaround time is negative |
| Metrics.FinishedRunMetrics | Project/src/process.py:54-101 | for any finished run the statistics exist, each average lies between 0 and its maximum, efficiency is a percentage, and throughput_50 ≤ throughput_100 ≤ throughput_150 ≤ throughput_200 ≤ n |

## Left out

- Floating point: times are exact reals, and no rounding is modelled.
- Whole time units: arrival, burst, remaining time and the quantum are `nat` in the model. This is the model's own restriction: the CSV parser reads arrival and burst with `float()` (`Project/src/csv_parser.py:15-16`). What the model therefore does not capture:
  - the fractional last slice `min(1, remaining)` of the preemptive policies (`src/scheduling_algorithms.py:105`, `:310`), which the model always makes one unit;
  - Round Robin slices `min(time_quantum, remaining)` of a non-integral length (`src/scheduling_algorithms.py:230`).
- In-place mutation and aliasing: the Python methods update the caller's `Process` objects. The model works on a value copy of the list and returns the updated records in the result. `CalculateMetrics` likewise returns the written-back list.
- Object identity: `p not in completed_processes`, `p not in ready_queue` and `current_process != next_process` compare dataclass values. Under the unique-id assumption below these comparisons coincide with list position, and the model uses indices.
- What the callers guarantee: the CSV parser returns the list sorted by arrival (`Project/src/csv_parser.py:28`), which FCFS and Round Robin require in the model. `Project/main.py:27` always passes a quantum of 2.
- Assumptions the model makes that no caller checks:
  - unique process ids (`Project/src/csv_parser.py:13-18` reads them unchecked);
  - no id equal to `"IDLE"`;
  - positive bursts. A burst of 0 makes the four key-ordered policies loop forever: such a process is never ready, since the ready lists keep only `remaining_time > 0` (`src/scheduling_algorithms.py:89`, `:156`, `:294`, `:361`), yet it is never completed, so the idle branch keeps taking the earliest uncompleted arrival (`:122-131`, `:184-193`, `:327-336`, `:389-398`), which is not after the clock, and appends idle slots that never end the loop. FCFS and Round Robin do accept a burst of 0. They give that process one zero-length slot and complete it at its start time. The model does not capture that slot, because its timelines require every slot to end after it starts;
  - a non-negative context-switch delay (`--context-switch` is read as an unvalidated float, `Project/main.py:191`);
  - for Round Robin, a positive quantum, because a quantum of 0 never ends the loop.
- Process.NewProcess: takes no `start_time`, `completion_time`, `turnaround_time`, `waiting_time` or `response_time` arguments, which the dataclass accepts (`Project/src/process.py:17-21`); no caller passes them, and every record starts with them unset.
- The integer constructor argument for a priority is not modelled. `PriorityArg` covers an enumeration member or a name.
- `str.upper` is modelled for ASCII letters only.
- `response_time` is never written by the core; the model carries it as an untouched field.
- The statistics dictionary is a record (`Summary`) with the same ten entries.
- `Project/main.py`, `Project/src/result_generator.py`, `Project/src/csv_parser.py` and the package `__init__` files are not part of this model: they do I/O, command-line handling, CSV parsing and report generation.
