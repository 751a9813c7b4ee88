/** The scheduling engine (src/scheduling_algorithms.py): six policies, each a
    loop that advances a simulated clock, emits execution and idle slots, charges
    context switches and records progress on the processes. */
module SchedulingAlgorithms {
  import opened Process
  import opened Timeline
  import opened Workload
  import opened Selection
  import opened RunSpec
  import opened NonPreemptiveLoop
  import Fcfs = FirstComeFirstServed
  import Preemptive = PreemptiveLoop
  import RR = RoundRobinLoop

  /** A non-negative length of simulated time. */
  type Delay = r: real | r >= 0.0

  /** `for process in processes: process.reset()`, on a copy of the list. */
  method ResetAll(processes: seq<Process>) returns (procs: seq<Process>)
    ensures |procs| == |processes| && forall i :: 0 <= i < |procs| ==> procs[i] == Reset(processes[i])
  {
    procs := processes;
    for i := 0 to |procs|
      invariant |procs| == |processes|
      invariant forall k :: 0 <= k < i ==> procs[k] == Reset(processes[k])
      invariant forall k :: i <= k < |procs| ==> procs[k] == processes[k]
    {
      procs := procs[i := Reset(procs[i])];
    }
  }

  class SchedulingAlgorithm {
    const contextSwitchTime: Delay

    constructor(contextSwitchTime: Delay := 0.001)
      ensures this.contextSwitchTime == contextSwitchTime
    {
      this.contextSwitchTime := contextSwitchTime;
    }

    /** schedule_fcfs: serve in list (arrival) order from a FIFO ready queue,
        admitting processes as they arrive and idling until the next arrival when
        the queue is empty.  The records are not reset first. */
    method ScheduleFcfs(processes: seq<Process>) returns (r: SchedulingResult)
      requires WellFormed(processes) && SortedByArrival(processes)
      ensures r.algorithmName == "FCFS"
      ensures |processes| == 0 ==> r.timeSlots == [] && r.processes == processes && r.contextSwitches == 0 && r.totalTime == 0.0
      ensures |processes| > 0 ==> Fcfs.FcfsOutcome(processes, contextSwitchTime, r)
    {
      if |processes| == 0 {
        return SchedulingResult("FCFS", [], processes, 0, 0.0);
      }
      var n := |processes|;
      var procs := processes;
      var slots: seq<TimeSlot> := [];
      var t: real := 0.0;
      var switches: nat := 0;
      var completed: seq<nat> := [];
      var queue: seq<nat> := [];
      var index: nat := 0;
      ghost var idled := false;
      while |completed| < n
        invariant Fcfs.FcfsState(processes, contextSwitchTime, procs, slots, t, switches, completed, queue, index, idled)
        decreases n - |completed|, if idled then 0 else 1
      {
        // Arrival times never change during a run, so reading them from the input is the same.
        var arrived := Arrived(processes, index, t);
        Fcfs.FcfsAdmit(processes, contextSwitchTime, procs, slots, t, switches, completed, queue, index, idled);
        queue := queue + arrived;
        index := index + |arrived|;
        if |queue| > 0 {
          procs, slots, t, switches, completed, queue := ServeNext(processes, procs, slots, t, switches, completed, queue, index, idled);
          idled := false;
        } else {
          Fcfs.FcfsPending(processes, contextSwitchTime, procs, slots, t, switches, completed, queue, index, idled);
          var next := NextArrival(processes, index, t);
          if next.Some? {
            Fcfs.FcfsIdleStep(processes, contextSwitchTime, procs, slots, t, switches, completed, queue, index, idled);
            slots := slots + [TimeSlot(IDLE, t, processes[next.value].arrivalTime as real)];
            t := processes[next.value].arrivalTime as real;
            idled := true;
          } else {
            assert false;
            break;
          }
        }
      }
      r := SchedulingResult("FCFS", slots, procs, switches, t);
    }

    /** One pass of the FCFS loop with a non-empty queue: the head of the queue
        runs its whole burst and completes; a switch follows when work remains. */
    method ServeNext(processes: seq<Process>, procs: seq<Process>, slots: seq<TimeSlot>, t: real, switches: nat,
                     completed: seq<nat>, queue: seq<nat>, index: nat, ghost idled: bool)
      returns (procs': seq<Process>, slots': seq<TimeSlot>, t': real, switches': nat, completed': seq<nat>, queue': seq<nat>)
      requires Fcfs.FcfsState(processes, contextSwitchTime, procs, slots, t, switches, completed, queue, index, idled)
      requires |queue| > 0
      ensures Fcfs.FcfsState(processes, contextSwitchTime, procs', slots', t', switches', completed', queue', index, false)
      ensures |completed'| == |completed| + 1
    {
      var c := queue[0];
      queue' := queue[1..];
      var p := procs[c];
      if p.startTime.None? {
        p := p.(startTime := Some(t));
      }
      var slot := TimeSlot(p.processId, t, t + p.cpuBurstTime as real);
      slots' := slots + [slot];
      t' := slot.endTime;
      p := p.(completionTime := Some(t'), remainingTime := 0);
      procs' := procs[c := p];
      completed' := completed + [c];
      switches' := switches;
      if |completed'| < |processes| {
        t' := t' + contextSwitchTime;
        switches' := switches' + 1;
      }
      Fcfs.FcfsDispatch(processes, contextSwitchTime, procs, slots, t, switches, completed, queue, index, idled,
                        procs', slots', t', switches', completed');
    }

    /** schedule_round_robin: the head of a FIFO ready queue runs for at most
        one quantum; a process with work left rejoins the queue behind the
        processes that arrived during its slice, and a context switch follows
        every slice. */
    method ScheduleRoundRobin(processes: seq<Process>, timeQuantum: nat := 2) returns (r: SchedulingResult)
      requires WellFormed(processes) && SortedByArrival(processes) && timeQuantum > 0
      ensures r.algorithmName == "Round Robin"
      ensures |processes| == 0 ==> r.timeSlots == [] && r.processes == processes && r.contextSwitches == 0 && r.totalTime == 0.0
      ensures |processes| > 0 ==> RR.RoundRobinRun(processes, timeQuantum, r, contextSwitchTime)
      ensures |processes| > 0 ==> r == RR.RoundRobinSchedule(processes, timeQuantum, contextSwitchTime)
    {
      if |processes| == 0 {
        return SchedulingResult("Round Robin", [], processes, 0, 0.0);
      }
      var n := |processes|;
      var procs := ResetAll(processes);
      // The reference run, pass for pass: the loop follows it to its end.
      ghost var fuel: nat := Outstanding(procs) + Future(processes, 0.0);
      ghost var final := RR.Passes(processes, timeQuantum, contextSwitchTime, RR.LoopState(procs, [], 0.0, 0, [], [], 0), fuel);
      RR.ScheduleFrom(processes, timeQuantum, contextSwitchTime, procs, final);
      var slots: seq<TimeSlot> := [];
      var t: real := 0.0;
      var switches: nat := 0;
      var completed: seq<nat> := [];
      var queue: seq<nat> := [];
      var index: nat := 0;
      RR.Start(processes, timeQuantum, contextSwitchTime, procs);
      RR.StateInRange(processes, timeQuantum, contextSwitchTime, procs, slots, t, switches, completed, queue, index);
      while |completed| < n
        invariant RR.RRState(processes, timeQuantum, contextSwitchTime, procs, slots, t, switches, completed, queue, index)
        invariant RR.InRange(processes, RR.LoopState(procs, slots, t, switches, completed, queue, index))
        invariant RR.Passes(processes, timeQuantum, contextSwitchTime,
                            RR.LoopState(procs, slots, t, switches, completed, queue, index), fuel) == final
        invariant Outstanding(procs) + Future(processes, t) <= fuel
        decreases fuel
      {
        procs, slots, t, switches, completed, queue, index, fuel :=
          RoundRobinPass(timeQuantum, processes, procs, slots, t, switches, completed, queue, index, fuel, final);
      }
      RR.PassesDone(processes, timeQuantum, contextSwitchTime, RR.LoopState(procs, slots, t, switches, completed, queue, index), fuel, final);
      RR.Conclude(processes, timeQuantum, contextSwitchTime, procs, slots, t, switches, completed, queue, index, "Round Robin");
      r := SchedulingResult("Round Robin", slots, procs, switches, t);
    }

    /** One pass of the Round Robin loop: the arrived processes join the queue;
        then the head of the queue is served, or, with the queue empty, the CPU
        idles until the next arrival.  The pass is the next one of the
        reference run, with one unit of fuel less left. */
    method RoundRobinPass(quantum: nat, processes: seq<Process>, procs: seq<Process>, slots: seq<TimeSlot>, t: real,
                          switches: nat, completed: seq<nat>, queue: seq<nat>, index: nat,
                          ghost fuel: nat, ghost final: RR.LoopState)
      returns (procs': seq<Process>, slots': seq<TimeSlot>, t': real, switches': nat, completed': seq<nat>,
               queue': seq<nat>, index': nat, ghost fuel': nat)
      requires RR.RRState(processes, quantum, contextSwitchTime, procs, slots, t, switches, completed, queue, index)
      requires |completed| < |processes|
      requires RR.InRange(processes, RR.LoopState(procs, slots, t, switches, completed, queue, index))
      requires RR.Passes(processes, quantum, contextSwitchTime,
                         RR.LoopState(procs, slots, t, switches, completed, queue, index), fuel) == final
      requires Outstanding(procs) + Future(processes, t) <= fuel
      ensures RR.RRState(processes, quantum, contextSwitchTime, procs', slots', t', switches', completed', queue', index')
      ensures fuel == fuel' + 1 && Outstanding(procs') + Future(processes, t') <= fuel'
      ensures RR.InRange(processes, RR.LoopState(procs', slots', t', switches', completed', queue', index'))
      ensures RR.Passes(processes, quantum, contextSwitchTime,
                        RR.LoopState(procs', slots', t', switches', completed', queue', index'), fuel') == final
    {
      var queue1, index1 := AdmitArrivals(quantum, processes, procs, slots, t, switches, completed, queue, index);
      if |queue1| > 0 {
        procs', slots', t', switches', completed', queue', index', fuel' :=
          ServeAdmitted(quantum, processes, procs, slots, t, switches, completed, queue, index, queue1, index1, fuel, final);
      } else {
        procs', slots', t', switches', completed', queue', index', fuel' :=
          IdleAdmitted(quantum, processes, procs, slots, t, switches, completed, queue, index, queue1, index1, fuel, final);
      }
    }

    /** A pass that serves the head of the queue, once the arrivals are admitted. */
    method ServeAdmitted(quantum: nat, processes: seq<Process>, procs: seq<Process>, slots: seq<TimeSlot>, t: real,
                         switches: nat, completed: seq<nat>, queue: seq<nat>, index: nat, queue1: seq<nat>, index1: nat,
                         ghost fuel: nat, ghost final: RR.LoopState)
      returns (procs': seq<Process>, slots': seq<TimeSlot>, t': real, switches': nat, completed': seq<nat>,
               queue': seq<nat>, index': nat, ghost fuel': nat)
      requires RR.RRState(processes, quantum, contextSwitchTime, procs, slots, t, switches, completed, queue1, index1)
      requires |completed| < |processes| && |queue1| > 0
      requires RR.InRange(processes, RR.LoopState(procs, slots, t, switches, completed, queue, index))
      requires queue1 == queue + ArrivedUnqueued(processes, index, t, queue, completed)
      requires index1 == index + |ArrivedUnqueued(processes, index, t, queue, completed)|
      requires RR.Passes(processes, quantum, contextSwitchTime,
                         RR.LoopState(procs, slots, t, switches, completed, queue, index), fuel) == final
      requires Outstanding(procs) + Future(processes, t) <= fuel
      ensures RR.RRState(processes, quantum, contextSwitchTime, procs', slots', t', switches', completed', queue', index')
      ensures fuel == fuel' + 1 && Outstanding(procs') + Future(processes, t') <= fuel'
      ensures RR.InRange(processes, RR.LoopState(procs', slots', t', switches', completed', queue', index'))
      ensures RR.Passes(processes, quantum, contextSwitchTime,
                        RR.LoopState(procs', slots', t', switches', completed', queue', index'), fuel') == final
    {
      procs', slots', t', switches', completed', queue', index' :=
        RunQuantum(quantum, processes, procs, slots, t, switches, completed, queue1, index1);
      RR.Serve(processes, quantum, contextSwitchTime, procs, slots, t, switches, completed, queue1, index1,
               procs'[queue1[0]], SliceLength(quantum, procs[queue1[0]].remainingTime),
               procs', slots', t', switches', completed', queue', index');
      FutureNotGrowing(processes, t, t');
      fuel' := fuel - 1;
      RR.ServeFollows(processes, quantum, contextSwitchTime, procs, slots, t, switches, completed, queue, index,
                      queue1, index1, procs'[queue1[0]], SliceLength(quantum, procs[queue1[0]].remainingTime),
                      procs', slots', t', switches', completed', queue', index', fuel, fuel', final);
    }

    /** A pass that idles up to the next arrival, the queue being empty once the
        arrivals are admitted: some process is still to arrive, since one has
        not completed. */
    method IdleAdmitted(quantum: nat, processes: seq<Process>, procs: seq<Process>, slots: seq<TimeSlot>, t: real,
                        switches: nat, completed: seq<nat>, queue: seq<nat>, index: nat, queue1: seq<nat>, index1: nat,
                        ghost fuel: nat, ghost final: RR.LoopState)
      returns (procs': seq<Process>, slots': seq<TimeSlot>, t': real, switches': nat, completed': seq<nat>,
               queue': seq<nat>, index': nat, ghost fuel': nat)
      requires RR.RRState(processes, quantum, contextSwitchTime, procs, slots, t, switches, completed, queue1, index1)
      requires |completed| < |processes| && |queue1| == 0
      requires index1 < |processes| ==> processes[index1].arrivalTime as real > t
      requires RR.InRange(processes, RR.LoopState(procs, slots, t, switches, completed, queue, index))
      requires queue1 == queue + ArrivedUnqueued(processes, index, t, queue, completed)
      requires index1 == index + |ArrivedUnqueued(processes, index, t, queue, completed)|
      requires RR.Passes(processes, quantum, contextSwitchTime,
                         RR.LoopState(procs, slots, t, switches, completed, queue, index), fuel) == final
      requires Outstanding(procs) + Future(processes, t) <= fuel
      ensures RR.RRState(processes, quantum, contextSwitchTime, procs', slots', t', switches', completed', queue', index')
      ensures fuel == fuel' + 1 && Outstanding(procs') + Future(processes, t') <= fuel'
      ensures RR.InRange(processes, RR.LoopState(procs', slots', t', switches', completed', queue', index'))
      ensures RR.Passes(processes, quantum, contextSwitchTime,
                        RR.LoopState(procs', slots', t', switches', completed', queue', index'), fuel') == final
    {
      RR.Pending(processes, quantum, contextSwitchTime, procs, slots, t, switches, completed, queue1, index1);
      var next := NextArrival(processes, index1, t);
      if next.None? {
        assert false;
      }
      procs', switches', completed', queue', index' := procs, switches, completed, queue1, index1;
      slots', t' := IdleForArrival(quantum, processes, procs, slots, t, switches, completed, queue1, index1, next.value);
      fuel' := fuel - 1;
      RR.IdleFollows(processes, quantum, contextSwitchTime, procs, slots, t, switches, completed, queue, index,
                     queue1, index1, next.value, slots', t', fuel, fuel', final);
    }

    /** The top of a Round Robin pass: the processes of the unadmitted part of
        the list that have arrived (and are neither queued nor completed) join
        the queue in list order. */
    method AdmitArrivals(quantum: nat, processes: seq<Process>, procs: seq<Process>, slots: seq<TimeSlot>, t: real,
                         switches: nat, completed: seq<nat>, queue: seq<nat>, index: nat)
      returns (queue': seq<nat>, index': nat)
      requires RR.RRState(processes, quantum, contextSwitchTime, procs, slots, t, switches, completed, queue, index)
      ensures RR.RRState(processes, quantum, contextSwitchTime, procs, slots, t, switches, completed, queue', index')
      ensures index <= index' <= |processes| && queue' == queue + Range(index, index')
      ensures forall i :: index <= i < |processes| ==> (i < index' <==> processes[i].arrivalTime as real <= t)
      ensures index' < |processes| ==> processes[index'].arrivalTime as real > t
      ensures queue' == queue + ArrivedUnqueued(processes, index, t, queue, completed)
      ensures index' == index + |ArrivedUnqueued(processes, index, t, queue, completed)|
    {
      // Arrival times never change during a run, so reading them from the input is the same.
      var arrived := ArrivedUnqueued(processes, index, t, queue, completed);
      RR.Admit(processes, quantum, contextSwitchTime, procs, slots, t, switches, completed, queue, index,
               queue + arrived, index + |arrived|);
      queue' := queue + arrived;
      index' := index + |arrived|;
    }

    /** A Round Robin pass with the queue empty: the CPU idles until the next
        process of the list arrives. */
    method IdleForArrival(quantum: nat, processes: seq<Process>, procs: seq<Process>, slots: seq<TimeSlot>, t: real,
                          switches: nat, completed: seq<nat>, queue: seq<nat>, index: nat, next: nat)
      returns (slots': seq<TimeSlot>, t': real)
      requires RR.RRState(processes, quantum, contextSwitchTime, procs, slots, t, switches, completed, queue, index)
      requires |queue| == 0 && |completed| < |processes|
      requires index < |processes| ==> processes[index].arrivalTime as real > t
      requires NextArrival(processes, index, t) == Some(next)
      ensures RR.RRState(processes, quantum, contextSwitchTime, procs, slots', t', switches, completed, queue, index)
      ensures Future(processes, t') < Future(processes, t)
      ensures next == index && t < t' == processes[index].arrivalTime as real
      ensures slots' == slots + [TimeSlot(IDLE, t, t')]
    {
      t' := processes[next].arrivalTime as real;
      slots' := slots + [TimeSlot(IDLE, t, t')];
      RR.IdleStep(processes, quantum, contextSwitchTime, procs, slots, t, switches, completed, queue, index, slots', t');
    }

    /** One pass of the Round Robin loop with a non-empty queue: the head runs
        for min(quantum, remaining) and either completes and leaves the queue, or
        goes to its end behind the processes that arrived meanwhile; a context
        switch follows either way. */
    method RunQuantum(quantum: nat, processes: seq<Process>, procs: seq<Process>, slots: seq<TimeSlot>, t: real,
                      switches: nat, completed: seq<nat>, queue: seq<nat>, index: nat)
      returns (procs': seq<Process>, slots': seq<TimeSlot>, t': real, switches': nat, completed': seq<nat>,
               queue': seq<nat>, index': nat)
      requires |queue| > 0 && queue[0] < |procs| && index <= |processes|
      ensures |procs'| == |procs|
      ensures RR.SliceStep(processes, quantum, contextSwitchTime, procs, slots, t, switches, completed, queue, index,
                           procs'[queue[0]], SliceLength(quantum, procs[queue[0]].remainingTime),
                           procs', slots', t', switches', completed', queue', index')
    {
      var c := queue[0];
      queue' := queue[1..];
      var p := procs[c];
      if p.startTime.None? {
        p := p.(startTime := Some(t));
      }
      var execution := SliceLength(quantum, p.remainingTime);
      var start := t;
      t' := t + execution as real;
      p := p.(remainingTime := p.remainingTime - execution);
      slots' := slots + [TimeSlot(p.processId, start, t')];
      completed' := completed;
      index' := index;
      if p.remainingTime == 0 {
        p := p.(completionTime := Some(t'));
        completed' := completed + [c];
      } else {
        var newlyArrived := ArrivedUnqueued(processes, index, t', queue', completed);
        queue' := queue' + newlyArrived;
        index' := index + |newlyArrived|;
        queue' := queue' + [c];
      }
      t' := t' + contextSwitchTime;
      switches' := switches + 1;
      procs' := procs[c := p];
    }

    /** schedule_preemptive_sjf: every time unit goes to the ready process with
        the least remaining time (ties to the earlier one in the list). */
    method SchedulePreemptiveSjf(processes: seq<Process>) returns (r: SchedulingResult)
      requires WellFormed(processes)
      ensures r.algorithmName == "Preemptive SJF"
      ensures |processes| == 0 ==> r.timeSlots == [] && r.processes == processes && r.contextSwitches == 0 && r.totalTime == 0.0
      ensures |processes| > 0 ==> Preemptive.PreemptiveRun(ShortestRemaining, processes, r, contextSwitchTime)
    {
      r := RunPreemptive("Preemptive SJF", ShortestRemaining, processes);
    }

    /** schedule_preemptive_priority: every time unit goes to the ready process
        of highest priority (ties to the earlier arrival, then list order). */
    method SchedulePreemptivePriority(processes: seq<Process>) returns (r: SchedulingResult)
      requires WellFormed(processes)
      ensures r.algorithmName == "Preemptive Priority"
      ensures |processes| == 0 ==> r.timeSlots == [] && r.processes == processes && r.contextSwitches == 0 && r.totalTime == 0.0
      ensures |processes| > 0 ==> Preemptive.PreemptiveRun(HighestPriority, processes, r, contextSwitchTime)
    {
      r := RunPreemptive("Preemptive Priority", HighestPriority, processes);
    }

    /** schedule_non_preemptive_sjf: the ready process with the shortest burst
        (ties to the earlier arrival, then list order) runs to completion. */
    method ScheduleNonPreemptiveSjf(processes: seq<Process>) returns (r: SchedulingResult)
      requires WellFormed(processes)
      ensures r.algorithmName == "Non-Preemptive SJF"
      ensures |processes| == 0 ==> r.timeSlots == [] && r.processes == processes && r.contextSwitches == 0 && r.totalTime == 0.0
      ensures |processes| > 0 ==> NonPreemptiveRun(ShortestBurst, processes, r, contextSwitchTime)
    {
      r := RunNonPreemptive("Non-Preemptive SJF", ShortestBurst, processes);
    }

    /** schedule_non_preemptive_priority: the ready process of highest priority
        (ties to the earlier arrival, then list order) runs to completion. */
    method ScheduleNonPreemptivePriority(processes: seq<Process>) returns (r: SchedulingResult)
      requires WellFormed(processes)
      ensures r.algorithmName == "Non-Preemptive Priority"
      ensures |processes| == 0 ==> r.timeSlots == [] && r.processes == processes && r.contextSwitches == 0 && r.totalTime == 0.0
      ensures |processes| > 0 ==> NonPreemptiveRun(HighestPriority, processes, r, contextSwitchTime)
    {
      r := RunNonPreemptive("Non-Preemptive Priority", HighestPriority, processes);
    }

    /** The loop shared by preemptive SJF and preemptive priority: every pass runs
        the first ready process in key order for one time unit. */
    method RunPreemptive(name: string, rule: Rule, processes: seq<Process>) returns (r: SchedulingResult)
      requires WellFormed(processes)
      ensures r.algorithmName == name
      ensures |processes| == 0 ==> r.timeSlots == [] && r.processes == processes && r.contextSwitches == 0 && r.totalTime == 0.0
      ensures |processes| > 0 ==> Preemptive.PreemptiveRun(rule, processes, r, contextSwitchTime)
    {
      if |processes| == 0 {
        return SchedulingResult(name, [], processes, 0, 0.0);
      }
      var n := |processes|;
      var procs := ResetAll(processes);
      var slots: seq<TimeSlot> := [];
      var t: real := 0.0;
      var switches: nat := 0;
      var completed: seq<nat> := [];
      var current: Option<nat> := None;
      Preemptive.Begin(rule, processes, contextSwitchTime, procs);
      while |completed| < n
        invariant Preemptive.State(rule, processes, contextSwitchTime, procs, slots, t, switches, completed, current)
        decreases Outstanding(procs), Future(processes, t)
      {
        var ready := ReadyList(procs, completed, t);
        if |ready| > 0 {
          procs, slots, t, switches, completed, current := RunOneUnit(rule, processes, procs, slots, t, switches, completed, current);
        } else {
          slots, t := WaitForArrival(rule, processes, procs, slots, t, switches, completed, current);
        }
      }
      Preemptive.Conclude(rule, processes, contextSwitchTime, procs, slots, t, switches, completed, current, name);
      r := SchedulingResult(name, slots, procs, switches, t);
    }

    /** One pass of the preemptive loop with some process ready: the first ready
        process in key order becomes current, a switch is charged when it
        displaces a current process with work left, and it runs min(1, remaining)
        time units, completing when no work is left. */
    method RunOneUnit(rule: Rule, processes: seq<Process>, procs: seq<Process>, slots: seq<TimeSlot>, t: real,
                      switches: nat, completed: seq<nat>, current: Option<nat>)
      returns (procs': seq<Process>, slots': seq<TimeSlot>, t': real, switches': nat, completed': seq<nat>,
               current': Option<nat>)
      requires Preemptive.State(rule, processes, contextSwitchTime, procs, slots, t, switches, completed, current)
      requires |completed| < |processes| && |ReadyList(procs, completed, t)| > 0
      ensures Preemptive.State(rule, processes, contextSwitchTime, procs', slots', t', switches', completed', current')
      ensures Outstanding(procs') < Outstanding(procs)
    {
      var c := Select(rule, procs, ReadyList(procs, completed, t));
      Preemptive.Picked(rule, processes, contextSwitchTime, procs, slots, t, switches, completed, current, c);
      var p := procs[c];
      t', switches', current' := t, switches, current;
      if current != Some(c) {
        if current.Some? && procs[current.value].remainingTime > 0 {
          switches' := switches' + 1;
          t' := t' + contextSwitchTime;
        }
        if p.startTime.None? {
          p := p.(startTime := Some(t'));
        }
        current' := Some(c);
      }
      var execution := SliceLength(1, p.remainingTime);
      var start := t';
      t' := t' + execution as real;
      p := p.(remainingTime := p.remainingTime - execution);
      slots' := slots + [TimeSlot(p.processId, start, t')];
      completed' := completed;
      if p.remainingTime == 0 {
        p := p.(completionTime := Some(t'));
        completed' := completed + [c];
        current' := None;
      }
      procs' := procs[c := p];
      Preemptive.Slice(rule, processes, contextSwitchTime, procs, slots, t, switches, completed, current, c, start, p,
                       procs', slots', t', switches', completed', current');
    }

    /** One pass of the preemptive loop with nothing ready: the CPU idles until
        the earliest arrival among the processes not yet completed. */
    method WaitForArrival(rule: Rule, processes: seq<Process>, procs: seq<Process>, slots: seq<TimeSlot>, t: real,
                          switches: nat, completed: seq<nat>, current: Option<nat>)
      returns (slots': seq<TimeSlot>, t': real)
      requires Preemptive.State(rule, processes, contextSwitchTime, procs, slots, t, switches, completed, current)
      requires |completed| < |processes| && |ReadyList(procs, completed, t)| == 0
      ensures Preemptive.State(rule, processes, contextSwitchTime, procs, slots', t', switches, completed, current)
      ensures t < t' && Future(processes, t') < Future(processes, t)
    {
      SomePending(processes, procs, completed);
      var next := MinPendingArrival(procs, completed);
      slots' := slots + [TimeSlot(IDLE, t, next as real)];
      t' := next as real;
      Preemptive.Wait(rule, processes, contextSwitchTime, procs, slots, t, switches, completed, current, slots', t');
    }

    /** The loop shared by non-preemptive SJF and non-preemptive priority: pick the
        first ready process in key order and run its whole burst. */
    method RunNonPreemptive(name: string, rule: Rule, processes: seq<Process>) returns (r: SchedulingResult)
      requires StaticRule(rule) && WellFormed(processes)
      ensures r.algorithmName == name
      ensures |processes| == 0 ==> r.timeSlots == [] && r.processes == processes && r.contextSwitches == 0 && r.totalTime == 0.0
      ensures |processes| > 0 ==> NonPreemptiveRun(rule, processes, r, contextSwitchTime)
    {
      if |processes| == 0 {
        return SchedulingResult(name, [], processes, 0, 0.0);
      }
      var n := |processes|;
      var procs := ResetAll(processes);
      var slots: seq<TimeSlot> := [];
      var t: real := 0.0;
      var switches: nat := 0;
      var completed: seq<nat> := [];
      Start(rule, processes, contextSwitchTime, procs);
      while |completed| < n
        invariant Invariant(rule, processes, contextSwitchTime, procs, slots, t, switches, completed)
        decreases n - |completed|, Future(processes, t)
      {
        var ready := ReadyList(procs, completed, t);
        if |ready| > 0 {
          procs, slots, t, switches, completed := DispatchReady(rule, processes, procs, slots, t, switches, completed);
        } else {
          slots, t := IdleUntilArrival(rule, processes, procs, slots, t, switches, completed);
        }
      }
      Finish(rule, processes, contextSwitchTime, procs, slots, t, switches, completed, name);
      r := SchedulingResult(name, slots, procs, switches, t);
    }

    /** One pass of the non-preemptive loop with some process ready: the first
        ready process in key order runs its whole burst and completes, and a
        switch is charged when work remains. */
    method DispatchReady(rule: Rule, processes: seq<Process>, procs: seq<Process>, slots: seq<TimeSlot>,
                         t: real, switches: nat, completed: seq<nat>)
      returns (procs': seq<Process>, slots': seq<TimeSlot>, t': real, switches': nat, completed': seq<nat>)
      requires Invariant(rule, processes, contextSwitchTime, procs, slots, t, switches, completed)
      requires |completed| < |processes| && |ReadyList(procs, completed, t)| > 0
      ensures Invariant(rule, processes, contextSwitchTime, procs', slots', t', switches', completed')
      ensures |completed'| == |completed| + 1
    {
      var c := Select(rule, procs, ReadyList(procs, completed, t));
      Selected(rule, processes, contextSwitchTime, procs, slots, t, switches, completed, c);
      var p := procs[c];
      if p.startTime.None? {
        p := p.(startTime := Some(t));
      }
      var slot := TimeSlot(p.processId, t, t + p.cpuBurstTime as real);
      slots' := slots + [slot];
      t' := slot.endTime;
      p := p.(completionTime := Some(t'), remainingTime := 0);
      procs' := procs[c := p];
      completed' := completed + [c];
      switches' := switches;
      if |completed'| < |processes| {
        t' := t' + contextSwitchTime;
        switches' := switches' + 1;
      }
      Dispatch(rule, processes, contextSwitchTime, procs, slots, t, switches, completed, c, p,
               procs', slots', t', switches', completed');
    }

    /** One pass of the non-preemptive loop with nothing ready: the CPU idles
        until the earliest arrival among the processes not yet completed. */
    method IdleUntilArrival(rule: Rule, processes: seq<Process>, procs: seq<Process>, slots: seq<TimeSlot>,
                            t: real, switches: nat, completed: seq<nat>)
      returns (slots': seq<TimeSlot>, t': real)
      requires Invariant(rule, processes, contextSwitchTime, procs, slots, t, switches, completed)
      requires |completed| < |processes| && |ReadyList(procs, completed, t)| == 0
      ensures Invariant(rule, processes, contextSwitchTime, procs, slots', t', switches, completed)
      ensures t < t' && Future(processes, t') < Future(processes, t)
    {
      SomePending(processes, procs, completed);
      var next := MinPendingArrival(procs, completed);
      slots' := slots + [TimeSlot(IDLE, t, next as real)];
      t' := next as real;
      Idle(rule, processes, contextSwitchTime, procs, slots, t, switches, completed, slots', t');
    }
  }
}
