/** First come, first served (src/scheduling_algorithms.py, schedule_fcfs).  On a
    list in arrival order the policy is deterministic: each process runs once, in
    list order, as soon as it has arrived and the previous process and one switch
    delay are over.  This module writes that outcome down as reference functions,
    proves what it guarantees, and gives the state the loop keeps while it builds
    the outcome step by step. */
module FirstComeFirstServed {
  import opened Process
  import opened Timeline
  import opened Workload
  import opened Selection
  import opened RunSpec

  function Later(a: real, b: real): real
  {
    if a < b then b else a
  }

  /** The clock once the first k processes have run: the end of process k - 1,
      plus one switch delay while more processes follow. */
  function CpuFree(ps: seq<Process>, cst: real, k: nat): (f: real)
    requires k <= |ps|
    ensures 0.0 <= cst ==> 0.0 <= f
    decreases k, 0
  {
    if k == 0 then 0.0
    else StartAt(ps, cst, k - 1) + ps[k - 1].cpuBurstTime as real + (if k < |ps| then cst else 0.0)
  }

  /** When process k starts: at its arrival or when the CPU is free, whichever is later. */
  function StartAt(ps: seq<Process>, cst: real, k: nat): (s: real)
    requires k < |ps|
    ensures ps[k].arrivalTime as real <= s
    decreases k, 1
  {
    Later(ps[k].arrivalTime as real, CpuFree(ps, cst, k))
  }

  function EndAt(ps: seq<Process>, cst: real, k: nat): real
    requires k < |ps|
  {
    StartAt(ps, cst, k) + ps[k].cpuBurstTime as real
  }

  function RunSlot(ps: seq<Process>, cst: real, k: nat): TimeSlot
    requires k < |ps|
  {
    TimeSlot(ps[k].processId, StartAt(ps, cst, k), EndAt(ps, cst, k))
  }

  /** The idle interval before process k when it arrives after the CPU is free. */
  function IdleSlot(ps: seq<Process>, cst: real, k: nat): TimeSlot
    requires k < |ps|
  {
    TimeSlot(IDLE, CpuFree(ps, cst, k), ps[k].arrivalTime as real)
  }

  /** The timeline once the first k processes have run. */
  function TimelineAfter(ps: seq<Process>, cst: real, k: nat): seq<TimeSlot>
    requires k <= |ps|
    decreases k, 0
  {
    if k == 0 then [] else TimelineBefore(ps, cst, k - 1) + [RunSlot(ps, cst, k - 1)]
  }

  /** The timeline up to the start of process k: an idle slot is added when it
      arrives after the CPU is free. */
  function TimelineBefore(ps: seq<Process>, cst: real, k: nat): seq<TimeSlot>
    requires k < |ps|
    decreases k, 1
  {
    if ps[k].arrivalTime as real > CpuFree(ps, cst, k) then TimelineAfter(ps, cst, k) + [IdleSlot(ps, cst, k)]
    else TimelineAfter(ps, cst, k)
  }

  /** The record of a process after it ran from `start`: a start time already set
      is kept, completion is the end of its burst and no work remains. */
  function Completed(p: Process, start: real): (q: Process)
    ensures SameStatic(q, p) && q.remainingTime == 0 && Done(q)
    ensures q.completionTime == Some(start + p.cpuBurstTime as real)
    ensures q.startTime.Some? && (p.startTime.None? ==> q.startTime == Some(start))
    ensures p.startTime.Some? ==> q.startTime == p.startTime
    ensures q.responseTime == p.responseTime && q.turnaroundTime == p.turnaroundTime && q.waitingTime == p.waitingTime
  {
    p.(startTime := if p.startTime.Some? then p.startTime else Some(start),
       completionTime := Some(start + p.cpuBurstTime as real), remainingTime := 0)
  }

  /** The process list once the first k processes have run. */
  predicate ProcessesAfter(ps: seq<Process>, cst: real, k: nat, procs: seq<Process>)
    requires k <= |ps|
  {
    |procs| == |ps| && forall i :: 0 <= i < |ps| ==> procs[i] == if i < k then Completed(ps[i], StartAt(ps, cst, i)) else ps[i]
  }

  /** Switches charged once the first k processes have run: one after each but the last. */
  function SwitchesAfter(n: nat, k: nat): nat
    requires 0 < n
  {
    if k < n then k else n - 1
  }

  /** The outcome of FCFS on a non-empty list. */
  predicate FcfsOutcome(ps: seq<Process>, cst: real, r: SchedulingResult)
    requires |ps| > 0
  {
    && r.timeSlots == TimelineAfter(ps, cst, |ps|)
    && ProcessesAfter(ps, cst, |ps|, r.processes)
    && r.contextSwitches == |ps| - 1
    && r.totalTime == CpuFree(ps, cst, |ps|)
  }

  /** The CPU is free no earlier than time 0, and a process starts no earlier than
      its arrival and no earlier than the CPU is free. */
  lemma {:induction false} StartBounds(ps: seq<Process>, cst: real, k: nat)
    requires k < |ps| && 0.0 <= cst
    ensures 0.0 <= CpuFree(ps, cst, k) <= StartAt(ps, cst, k)
    ensures ps[k].arrivalTime as real <= StartAt(ps, cst, k)
  {
    if k > 0 {
      assert StartAt(ps, cst, k - 1) >= 0.0;
    }
  }

  /** Processes run in list order: one ends, and a switch passes, before any later one starts. */
  lemma {:induction false} RunsInOrder(ps: seq<Process>, cst: real, i: nat, j: nat)
    requires i < j < |ps| && 0.0 <= cst
    ensures EndAt(ps, cst, i) + cst <= StartAt(ps, cst, j)
  {
    StartBounds(ps, cst, j);
    if i < j - 1 {
      RunsInOrder(ps, cst, i, j - 1);
    }
  }

  /** No process ends after the CPU is free for a later one. */
  lemma {:induction false} EndsBeforeFree(ps: seq<Process>, cst: real, i: nat, k: nat)
    requires i < k <= |ps| && 0.0 <= cst
    ensures EndAt(ps, cst, i) <= CpuFree(ps, cst, k)
  {
    if i < k - 1 {
      RunsInOrder(ps, cst, i, k - 1);
    }
  }

  /** The timeline keeps the clock: it is ordered, lies between 0 and the clock,
      and its length plus the switches charged is the clock; a switch follows
      every slot that ran a process except the last one. */
  lemma {:induction false} TimelineClock(ps: seq<Process>, cst: real, k: nat)
    requires WellFormed(ps) && 0.0 <= cst && 0 < |ps| && k <= |ps|
    ensures Clock(TimelineAfter(ps, cst, k), CpuFree(ps, cst, k), SwitchesAfter(|ps|, k), cst)
    ensures SwitchCharged(TimelineAfter(ps, cst, k), CpuFree(ps, cst, k), cst, k < |ps|)
    decreases k, 0
  {
    if k > 0 {
      var j := k - 1;
      TimelineBeforeClock(ps, cst, j);
      StartBounds(ps, cst, j);
      var w := TimelineBefore(ps, cst, j);
      ChargedRun(w, StartAt(ps, cst, j), SwitchesAfter(|ps|, j), cst, RunSlot(ps, cst, j), k < |ps|,
                 TimelineAfter(ps, cst, k), CpuFree(ps, cst, k), SwitchesAfter(|ps|, k));
    }
  }

  /** The same for the timeline up to the start of process k. */
  lemma {:induction false} TimelineBeforeClock(ps: seq<Process>, cst: real, k: nat)
    requires WellFormed(ps) && 0.0 <= cst && k < |ps|
    ensures Clock(TimelineBefore(ps, cst, k), StartAt(ps, cst, k), SwitchesAfter(|ps|, k), cst)
    ensures SwitchCharged(TimelineBefore(ps, cst, k), StartAt(ps, cst, k), cst, true)
    decreases k, 1
  {
    TimelineClock(ps, cst, k);
    if ps[k].arrivalTime as real > CpuFree(ps, cst, k) {
      ChargedIdle(TimelineAfter(ps, cst, k), CpuFree(ps, cst, k), SwitchesAfter(|ps|, k), cst, IdleSlot(ps, cst, k));
    }
  }

  /** An idle slot adds nothing to the busy time. */
  lemma {:induction false} BeforeBusy(ps: seq<Process>, cst: real, k: nat)
    requires k < |ps|
    ensures BusyTime(TimelineBefore(ps, cst, k)) == BusyTime(TimelineAfter(ps, cst, k))
  {
    if ps[k].arrivalTime as real > CpuFree(ps, cst, k) {
      AppendTotals(TimelineAfter(ps, cst, k), IdleSlot(ps, cst, k));
    }
  }

  /** The slots that ran a process add up to the bursts of the first k processes. */
  lemma {:induction false} TimelineBusy(ps: seq<Process>, cst: real, k: nat)
    requires WellFormed(ps) && k <= |ps|
    ensures BusyTime(TimelineAfter(ps, cst, k)) == TotalBurst(ps[..k])
  {
    if k > 0 {
      var j := k - 1;
      var b, x := TimelineBefore(ps, cst, j), RunSlot(ps, cst, j);
      assert BusyTime(b) == TotalBurst(ps[..j]) by {
        TimelineBusy(ps, cst, j);
        BeforeBusy(ps, cst, j);
      }
      assert BusyTime(b + [x]) == BusyTime(b) + ps[j].cpuBurstTime as real by {
        AppendTotals(b, x);
      }
      assert TotalBurst(ps[..k]) == TotalBurst(ps[..j]) + ps[j].cpuBurstTime as real by {
        assert ps[..k][..j] == ps[..j];
      }
    }
  }

  /** Every process of the first k ran in exactly one slot, from its start time
      for its whole burst; no later process has a slot yet. */
  lemma {:induction false} TimelineService(ps: seq<Process>, cst: real, k: nat)
    requires WellFormed(ps) && k <= |ps|
    ensures forall i :: 0 <= i < k ==> ServedAt(TimelineAfter(ps, cst, k), ps[i], StartAt(ps, cst, i))
    ensures forall i :: k <= i < |ps| ==> FirstStart(TimelineAfter(ps, cst, k), ps[i].processId).None?
  {
    if k > 0 {
      var j := k - 1;
      TimelineService(ps, cst, j);
      forall i | 0 <= i < k
        ensures ServedAt(TimelineAfter(ps, cst, k), ps[i], StartAt(ps, cst, i))
      {
        ServedKept(ps, cst, j, i);
      }
      var s, b, x := TimelineAfter(ps, cst, j), TimelineBefore(ps, cst, j), RunSlot(ps, cst, j);
      if ps[j].arrivalTime as real > CpuFree(ps, cst, j) {
        Append(s, IdleSlot(ps, cst, j));
      }
      Append(b, x);
      assert TimelineAfter(ps, cst, k) == b + [x];
      forall i | k <= i < |ps|
        ensures FirstStart(TimelineAfter(ps, cst, k), ps[i].processId).None?
      {
        UniqueIdsDistinct(ps, i, j);
      }
    }
  }

  /** Running process j adds its one slot: it is then served from its start
      time, and every earlier process keeps the service it had. */
  lemma {:induction false} ServedKept(ps: seq<Process>, cst: real, j: nat, i: nat)
    requires WellFormed(ps) && i <= j < |ps|
    requires i < j ==> ServedAt(TimelineAfter(ps, cst, j), ps[i], StartAt(ps, cst, i))
    requires FirstStart(TimelineAfter(ps, cst, j), ps[j].processId).None?
    ensures ServedAt(TimelineAfter(ps, cst, j + 1), ps[i], StartAt(ps, cst, i))
  {
    var s, b, x := TimelineAfter(ps, cst, j), TimelineBefore(ps, cst, j), RunSlot(ps, cst, j);
    NoSlot(s, x.processId);
    if ps[j].arrivalTime as real > CpuFree(ps, cst, j) {
      Append(s, IdleSlot(ps, cst, j));
    }
    Append(b, x);
    assert TimelineAfter(ps, cst, j + 1) == b + [x];
    if i < j {
      UniqueIdsDistinct(ps, i, j);
    }
  }

  /** A process ran in one slot that starts at `start` and lasts its burst. */
  predicate ServedAt(slots: seq<TimeSlot>, p: Process, start: real)
  {
    && FirstStart(slots, p.processId) == Some(start)
    && LastEnd(slots, p.processId) == Some(start + p.cpuBurstTime as real)
    && SlotCount(slots, p.processId) == 1
    && ServiceTime(slots, p.processId) == p.cpuBurstTime as real
  }

  /** Every idle slot of the timeline ends at the arrival of the next process,
      and all processes before it had completed by its start. */
  lemma {:induction false} TimelineIdle(ps: seq<Process>, cst: real, k: nat, final: seq<Process>)
    requires WellFormed(ps) && SortedByArrival(ps) && 0.0 <= cst && k <= |ps|
    requires ProcessesAfter(ps, cst, |ps|, final)
    ensures IdleOnlyWhenNothingReady(TimelineAfter(ps, cst, k), final)
  {
    if k > 0 {
      var j := k - 1;
      TimelineIdle(ps, cst, j, final);
      var s := TimelineAfter(ps, cst, j);
      if ps[j].arrivalTime as real > CpuFree(ps, cst, j) {
        var x := IdleSlot(ps, cst, j);
        forall i | 0 <= i < |final|
          ensures (Done(final[i]) && final[i].completionTime.value <= x.startTime) || final[i].arrivalTime as real >= x.endTime
        {
          if i < j {
            EndsBeforeFree(ps, cst, i, j);
          }
        }
        assert final[j].arrivalTime as real == x.endTime;
        IdleAfterIdle(s, final, x);
      }
      IdleAfterRun(TimelineBefore(ps, cst, j), final, RunSlot(ps, cst, j));
    }
  }

  /** The FCFS timeline is well timed: ordered, non-empty, within time 0 and the
      total time, which is the end of its last slot and also its length plus one
      switch delay between consecutive processes. */
  lemma {:induction false} FcfsTimed(ps: seq<Process>, cst: real, r: SchedulingResult)
    requires |ps| > 0 && WellFormed(ps) && 0.0 <= cst && FcfsOutcome(ps, cst, r)
    ensures WellTimed(r.timeSlots, r.totalTime)
    ensures |r.timeSlots| > 0 && r.totalTime == r.timeSlots[|r.timeSlots| - 1].endTime
    ensures r.totalTime == Span(r.timeSlots) + r.contextSwitches as real * cst
    ensures SwitchAfterEachRun(r.timeSlots, cst)
  {
    TimelineClock(ps, cst, |ps|);
  }

  /** Under FCFS every process ran once, for its whole burst, no earlier than its
      arrival; its completion time is the end of its slot and its start time,
      unless one was set before the run, the start of that slot. */
  lemma {:induction false} FcfsService(ps: seq<Process>, cst: real, r: SchedulingResult, i: nat)
    requires |ps| > 0 && WellFormed(ps) && 0.0 <= cst && FcfsOutcome(ps, cst, r) && i < |ps|
    ensures ServedAt(r.timeSlots, ps[i], StartAt(ps, cst, i))
    ensures ps[i].arrivalTime as real <= StartAt(ps, cst, i)
    ensures SameStatic(r.processes[i], ps[i]) && r.processes[i].remainingTime == 0
    ensures r.processes[i].completionTime == LastEnd(r.timeSlots, ps[i].processId)
    ensures r.processes[i].startTime == if ps[i].startTime.Some? then ps[i].startTime
                                        else FirstStart(r.timeSlots, ps[i].processId)
    ensures IsFresh(ps[i]) ==> RanOnce(r.processes[i], r.timeSlots)
  {
    TimelineService(ps, cst, |ps|);
    StartBounds(ps, cst, i);
    assert ServedAt(r.timeSlots, ps[i], StartAt(ps, cst, i));
  }

  /** FCFS serves in list order: a process ends, and one switch passes, before
      any later process starts. */
  lemma {:induction false} FcfsOrder(ps: seq<Process>, cst: real, i: nat, j: nat)
    requires i < j < |ps| && 0.0 <= cst
    ensures EndAt(ps, cst, i) + cst <= StartAt(ps, cst, j)
    ensures EndAt(ps, cst, i) <= EndAt(ps, cst, j)
  {
    RunsInOrder(ps, cst, i, j);
  }

  /** The CPU was busy exactly for the summed bursts of the completed processes. */
  lemma {:induction false} FcfsBusy(ps: seq<Process>, cst: real, r: SchedulingResult)
    requires |ps| > 0 && WellFormed(ps) && FcfsOutcome(ps, cst, r)
    ensures BusyTime(r.timeSlots) == CompletedBurst(r.processes) == TotalBurst(ps)
  {
    TimelineBusy(ps, cst, |ps|);
    assert ps[..|ps|] == ps;
    forall i | 0 <= i < |ps|
      ensures SameStatic(r.processes[i], ps[i]) && Done(r.processes[i])
    {
    }
    CompletedBurstIsTotal(r.processes);
    TotalBurstSame(r.processes, ps);
  }

  /** The CPU idled only when nothing had arrived: every idle slot ends at an
      arrival, and by its start every process had completed or not yet arrived. */
  lemma {:induction false} FcfsIdle(ps: seq<Process>, cst: real, r: SchedulingResult)
    requires |ps| > 0 && WellFormed(ps) && SortedByArrival(ps) && 0.0 <= cst && FcfsOutcome(ps, cst, r)
    ensures IdleOnlyWhenNothingReady(r.timeSlots, r.processes)
  {
    TimelineIdle(ps, cst, |ps|, r.processes);
  }

  /** The state the FCFS loop keeps at the top of each pass.  With k processes
      completed: those k are the first k of the list and have run as the
      reference says; the ready queue holds, in list order, the admitted
      processes from k on, and every admitted process has arrived; `idled` says
      whether the CPU has already idled until process k arrived. */
  predicate FcfsState(ps: seq<Process>, cst: real, procs: seq<Process>, slots: seq<TimeSlot>, t: real,
                      switches: nat, completed: seq<nat>, queue: seq<nat>, index: nat, idled: bool)
  {
    var k := |completed|;
    && 0 < |ps| && 0.0 <= cst && k <= index <= |ps|
    && completed == Range(0, k) && queue == Range(k, index)
    && (forall j :: 0 <= j < index ==> ps[j].arrivalTime as real <= t)
    && ProcessesAfter(ps, cst, k, procs)
    && switches == SwitchesAfter(|ps|, k)
    && (if idled then k < |ps| && slots == TimelineBefore(ps, cst, k) && t == StartAt(ps, cst, k) == ps[k].arrivalTime as real
        else slots == TimelineAfter(ps, cst, k) && t == CpuFree(ps, cst, k))
  }

  /** Admitting the processes that have arrived, from the admission index on,
      keeps the state, and the first process not admitted has not arrived. */
  lemma {:induction false} FcfsAdmit(ps: seq<Process>, cst: real, procs: seq<Process>, slots: seq<TimeSlot>, t: real,
                  switches: nat, completed: seq<nat>, queue: seq<nat>, index: nat, idled: bool)
    requires SortedByArrival(ps) && FcfsState(ps, cst, procs, slots, t, switches, completed, queue, index, idled)
    ensures var arrived := Arrived(ps, index, t);
            && index + |arrived| <= |ps|
            && FcfsState(ps, cst, procs, slots, t, switches, completed, queue + arrived, index + |arrived|, idled)
            && (index + |arrived| < |ps| ==> ps[index + |arrived|].arrivalTime as real > t)
  {
    ArrivedIsPrefix(ps, index, t);
    var arrived := Arrived(ps, index, t);
    assert queue + arrived == Range(|completed|, index + |arrived|);
    forall j | 0 <= j < index + |arrived|
      ensures ps[j].arrivalTime as real <= t
    {
      if j >= index {
        assert arrived[j - index] == j;
      }
    }
  }

  /** The dispatch step: the head of the queue is process k, it starts now, which
      is its reference start, and runs its whole burst; a switch follows when
      work remains. */
  lemma {:induction false} FcfsDispatch(ps: seq<Process>, cst: real, procs: seq<Process>, slots: seq<TimeSlot>, t: real,
                     switches: nat, completed: seq<nat>, queue: seq<nat>, index: nat, idled: bool,
                     procs': seq<Process>, slots': seq<TimeSlot>, t': real, switches': nat, completed': seq<nat>)
    requires FcfsState(ps, cst, procs, slots, t, switches, completed, queue, index, idled) && |queue| > 0
    requires procs' == procs[queue[0] := Completed(procs[queue[0]], t)] && completed' == completed + [queue[0]]
    requires slots' == slots + [TimeSlot(procs[queue[0]].processId, t, t + procs[queue[0]].cpuBurstTime as real)]
    requires t' == t + procs[queue[0]].cpuBurstTime as real + (if |completed'| < |ps| then cst else 0.0)
    requires switches' == switches + (if |completed'| < |ps| then 1 else 0)
    ensures FcfsState(ps, cst, procs', slots', t', switches', completed', queue[1..], index, false)
  {
    var k := |completed|;
    assert queue[0] == k && procs[k] == ps[k];
    assert ps[k].arrivalTime as real <= t;
    assert t == StartAt(ps, cst, k) && slots == TimelineBefore(ps, cst, k);
    assert completed' == Range(0, k + 1);
    assert queue[1..] == Range(k + 1, index);
    assert t <= t';
  }

  /** With nothing queued and work remaining, some process is still to arrive,
      and it is process k: the loop never leaves through its `break`. */
  lemma {:induction false} FcfsPending(ps: seq<Process>, cst: real, procs: seq<Process>, slots: seq<TimeSlot>, t: real,
                    switches: nat, completed: seq<nat>, queue: seq<nat>, index: nat, idled: bool)
    requires FcfsState(ps, cst, procs, slots, t, switches, completed, queue, index, idled)
    requires |queue| == 0 && |completed| < |ps| && (index < |ps| ==> ps[index].arrivalTime as real > t)
    ensures NextArrival(ps, index, t) == Some(|completed|) && !idled
  {
    assert index == |completed|;
  }

  /** The idle step: the CPU idles until process k arrives. */
  lemma {:induction false} FcfsIdleStep(ps: seq<Process>, cst: real, procs: seq<Process>, slots: seq<TimeSlot>, t: real,
                     switches: nat, completed: seq<nat>, queue: seq<nat>, index: nat, idled: bool)
    requires FcfsState(ps, cst, procs, slots, t, switches, completed, queue, index, idled)
    requires |queue| == 0 && |completed| < |ps| && (index < |ps| ==> ps[index].arrivalTime as real > t)
    ensures var a := ps[|completed|].arrivalTime as real;
            && t < a
            && FcfsState(ps, cst, procs, slots + [TimeSlot(IDLE, t, a)], a, switches, completed, queue, index, true)
  {
    FcfsPending(ps, cst, procs, slots, t, switches, completed, queue, index, idled);
  }
}
