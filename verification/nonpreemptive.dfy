/** The loop shared by non-preemptive SJF and non-preemptive priority
    (src/scheduling_algorithms.py, schedule_non_preemptive_sjf and
    schedule_non_preemptive_priority): what it guarantees, the state it keeps,
    and how each of its two steps preserves that state. */
module NonPreemptiveLoop {
  import opened Process
  import opened Timeline
  import opened Workload
  import opened Selection
  import opened RunSpec

  /** The rules whose keys depend only on fields a run never changes. */
  predicate StaticRule(rule: Rule)
  {
    rule.ShortestBurst? || rule.HighestPriority?
  }

  lemma {:induction false} StaticKey(rule: Rule, p: Process, q: Process)
    requires StaticRule(rule) && SameStatic(p, q)
    ensures Key(rule, p) == Key(rule, q)
  {
  }

  /** Whenever a process was dispatched, it preceded in key order every other
      process that had arrived by then and was not yet dispatched. */
  predicate PicksInKeyOrder(rule: Rule, ps: seq<Process>, procs: seq<Process>)
    requires |ps| == |procs|
  {
    forall i, j {:trigger Precedes(rule, ps, i, j)} :: 0 <= i < |procs| && 0 <= j < |procs| && i != j
                   && Done(procs[i]) && procs[i].startTime.Some?
                   && procs[j].arrivalTime as real <= procs[i].startTime.value
                   && (!Done(procs[j]) || (procs[j].startTime.Some? && procs[j].startTime.value > procs[i].startTime.value))
                   ==> Precedes(rule, ps, i, j)
  }

  /** The outcome of a non-preemptive run on a non-empty list: every process ran
      once for its whole burst, one switch separates consecutive processes, the
      CPU idled only when nothing was ready, and dispatch followed the key. */
  predicate NonPreemptiveRun(rule: Rule, ps: seq<Process>, r: SchedulingResult, cst: real)
    requires |ps| > 0
  {
    && SameProcesses(r.processes, ps)
    && WellTimed(r.timeSlots, r.totalTime)
    && (forall i :: 0 <= i < |ps| ==> RanOnce(r.processes[i], r.timeSlots))
    && r.contextSwitches == |ps| - 1
    && r.totalTime == Span(r.timeSlots) + r.contextSwitches as real * cst
    && |r.timeSlots| > 0 && r.totalTime == r.timeSlots[|r.timeSlots| - 1].endTime
    && SwitchAfterEachRun(r.timeSlots, cst)
    && BusyTime(r.timeSlots) == CompletedBurst(r.processes)
    && IdleOnlyWhenNothingReady(r.timeSlots, r.processes)
    && PicksInKeyOrder(rule, ps, r.processes)
  }

  /** Per process: a completed one ran once and finished by the clock; any other
      is as reset left it and has no slot yet. */
  predicate Progress(procs: seq<Process>, slots: seq<TimeSlot>, t: real)
  {
    forall i {:trigger ProcessProgress(procs[i], slots, t)} :: 0 <= i < |procs| ==> ProcessProgress(procs[i], slots, t)
  }

  predicate ProcessProgress(p: Process, slots: seq<TimeSlot>, t: real)
  {
    if Done(p) then RanOnce(p, slots) && p.completionTime.value <= t
    else IsFresh(p) && FirstStart(slots, p.processId).None?
  }

  /** The state the loop keeps between iterations. */
  predicate Invariant(rule: Rule, ps: seq<Process>, cst: real, procs: seq<Process>,
                      slots: seq<TimeSlot>, t: real, switches: nat, completed: seq<nat>)
  {
    && |ps| > 0 && WellFormed(ps) && StaticRule(rule) && 0.0 <= cst
    && Status(ps, procs, completed)
    && Clock(slots, t, switches, cst)
    && SwitchCharged(slots, t, cst, |completed| < |ps|)
    && switches == (if |completed| < |ps| then |completed| else |ps| - 1)
    && Progress(procs, slots, t)
    && BusyTime(slots) == CompletedBurst(procs)
    && IdleOnlyWhenNothingReady(slots, procs)
    && PicksInKeyOrder(rule, ps, procs)
  }

  /** After the reset, with an empty timeline at time 0, the state holds. */
  lemma {:induction false} Start(rule: Rule, ps: seq<Process>, cst: real, procs: seq<Process>)
    requires |ps| > 0 && WellFormed(ps) && StaticRule(rule) && 0.0 <= cst
    requires SameProcesses(procs, ps) && forall i :: 0 <= i < |procs| ==> IsFresh(procs[i])
    ensures Invariant(rule, ps, cst, procs, [], 0.0, 0, [])
  {
    NoneDone(procs);
  }

  /** The selected process is ready and, like every process not yet completed,
      as the reset left it. */
  lemma {:induction false} Selected(rule: Rule, ps: seq<Process>, cst: real, procs: seq<Process>,
                 slots: seq<TimeSlot>, t: real, switches: nat, completed: seq<nat>, c: nat)
    requires Invariant(rule, ps, cst, procs, slots, t, switches, completed)
    requires |ReadyList(procs, completed, t)| > 0 && c == Select(rule, procs, ReadyList(procs, completed, t))
    ensures c < |procs| && c !in completed && IsFresh(procs[c]) && procs[c].arrivalTime as real <= t
  {
    assert c in ReadyList(procs, completed, t);
    assert ProcessProgress(procs[c], slots, t);
  }

  /** The dispatch step: the first ready process in key order runs its whole
      burst from the clock and completes; a switch follows when work remains. */
  lemma {:induction false} Dispatch(rule: Rule, ps: seq<Process>, cst: real, procs: seq<Process>,
                 slots: seq<TimeSlot>, t: real, switches: nat, completed: seq<nat>, c: nat, p: Process,
                 procs': seq<Process>, slots': seq<TimeSlot>, t': real, switches': nat, completed': seq<nat>)
    requires Invariant(rule, ps, cst, procs, slots, t, switches, completed) && |completed| < |ps|
    requires |ReadyList(procs, completed, t)| > 0 && c == Select(rule, procs, ReadyList(procs, completed, t))
    requires c < |procs|
    requires p == procs[c].(startTime := Some(t), completionTime := Some(t + p.cpuBurstTime as real), remainingTime := 0)
    requires procs' == procs[c := p] && completed' == completed + [c]
    requires slots' == slots + [TimeSlot(p.processId, t, t + p.cpuBurstTime as real)]
    requires t' == t + p.cpuBurstTime as real + (if |completed'| < |ps| then cst else 0.0)
    requires switches' == switches + (if |completed'| < |ps| then 1 else 0)
    ensures Invariant(rule, ps, cst, procs', slots', t', switches', completed')
  {
    Selected(rule, ps, cst, procs, slots, t, switches, completed, c);
    SameWellFormed(procs, ps);
    var more := |completed'| < |ps|;
    var x := TimeSlot(p.processId, t, t + p.cpuBurstTime as real);
    StatusComplete(ps, procs, completed, c, p);
    ChargedRun(slots, t, switches, cst, x, more, slots', t', switches');
    DispatchProgress(procs, slots, t, c, p, procs', slots', t');
    IdleAfterUpdate(slots, procs, c, p);
    IdleAfterRun(slots, procs', x);
    DispatchOrder(rule, ps, procs, slots, t, completed, c, p, procs');
  }

  /** The dispatched process ran once; nobody else's progress changes; the busy
      time grows by the completed burst. */
  lemma {:induction false} DispatchProgress(procs: seq<Process>, slots: seq<TimeSlot>, t: real, c: nat, q: Process,
                          procs': seq<Process>, slots': seq<TimeSlot>, t': real)
    requires WellFormed(procs) && Progress(procs, slots, t) && BusyTime(slots) == CompletedBurst(procs)
    requires c < |procs| && !Done(procs[c]) && procs[c].arrivalTime as real <= t
    requires q == procs[c].(startTime := Some(t), completionTime := Some(t + q.cpuBurstTime as real), remainingTime := 0)
    requires procs' == procs[c := q] && slots' == slots + [TimeSlot(q.processId, t, t + q.cpuBurstTime as real)]
    requires t + q.cpuBurstTime as real <= t'
    ensures Progress(procs', slots', t') && BusyTime(slots') == CompletedBurst(procs')
  {
    var p := procs[c];
    var x := TimeSlot(p.processId, t, t + p.cpuBurstTime as real);
    Append(slots, x);
    AppendTotals(slots, x);
    assert ProcessProgress(p, slots, t);
    NoSlot(slots, p.processId);
    forall i | 0 <= i < |procs'| ensures ProcessProgress(procs'[i], slots', t') {
      if i != c {
        assert ProcessProgress(procs[i], slots, t);
        UniqueIdsDistinct(procs, i, c);
      }
    }
    UpdateOne(procs, c, q);
  }

  /** The dispatched process preceded every other process that had arrived and
      was not yet dispatched. */
  lemma {:induction false} DispatchOrder(rule: Rule, ps: seq<Process>, procs: seq<Process>, slots: seq<TimeSlot>,
                      t: real, completed: seq<nat>, c: nat, q: Process, procs': seq<Process>)
    requires StaticRule(rule) && SameProcesses(procs, ps) && WellFormed(procs)
    requires PicksInKeyOrder(rule, ps, procs) && Progress(procs, slots, t)
    requires forall i :: 0 <= i < |procs| ==> (i in completed <==> Done(procs[i]))
    requires |ReadyList(procs, completed, t)| > 0 && c == Select(rule, procs, ReadyList(procs, completed, t))
    requires q == procs[c].(startTime := Some(t), completionTime := Some(t + q.cpuBurstTime as real), remainingTime := 0)
    requires procs' == procs[c := q]
    ensures PicksInKeyOrder(rule, ps, procs')
  {
    var ready := ReadyList(procs, completed, t);
    assert c in ready && !Done(procs[c]);
    forall i, j | 0 <= i < |procs'| && 0 <= j < |procs'| && i != j
                  && Done(procs'[i]) && procs'[i].startTime.Some?
                  && procs'[j].arrivalTime as real <= procs'[i].startTime.value
                  && (!Done(procs'[j]) || (procs'[j].startTime.Some? && procs'[j].startTime.value > procs'[i].startTime.value))
      ensures Precedes(rule, ps, i, j)
    {
      if i == c {
        assert procs'[j] == procs[j];
        assert ProcessProgress(procs[j], slots, t);
        assert !Done(procs[j]);
        assert IsReady(procs, completed, t, j);
        assert j in ready;
        StaticKey(rule, procs[c], ps[c]);
        StaticKey(rule, procs[j], ps[j]);
      } else if j == c {
        assert procs'[i] == procs[i];
        assert ProcessProgress(procs[i], slots, t);
      } else {
        assert procs'[i] == procs[i] && procs'[j] == procs[j];
      }
    }
  }

  /** With nothing ready, every process not yet completed arrives after the clock. */
  lemma {:induction false} NothingArrived(ps: seq<Process>, procs: seq<Process>, slots: seq<TimeSlot>, t: real, completed: seq<nat>)
    requires Status(ps, procs, completed) && Progress(procs, slots, t) && WellFormed(procs)
    requires |ReadyList(procs, completed, t)| == 0
    ensures forall i :: 0 <= i < |procs| && i !in completed ==> procs[i].arrivalTime as real > t
  {
    forall i | 0 <= i < |procs| && i !in completed
      ensures procs[i].arrivalTime as real > t
    {
      assert ProcessProgress(procs[i], slots, t);
      assert !Done(procs[i]) && IsFresh(procs[i]);
      assert !IsReady(procs, completed, t, i);
    }
  }

  /** The idle step: the CPU idles from the clock until the earliest arrival
      among the processes not yet completed. */
  lemma {:induction false} Idle(rule: Rule, ps: seq<Process>, cst: real, procs: seq<Process>,
             slots: seq<TimeSlot>, t: real, switches: nat, completed: seq<nat>,
             slots': seq<TimeSlot>, t': real)
    requires Invariant(rule, ps, cst, procs, slots, t, switches, completed) && |completed| < |ps|
    requires |ReadyList(procs, completed, t)| == 0
    requires exists i :: 0 <= i < |procs| && i !in completed
    requires t' == MinPendingArrival(procs, completed) as real && slots' == slots + [TimeSlot(IDLE, t, t')]
    ensures t < t' && Future(ps, t') < Future(ps, t)
    ensures Invariant(rule, ps, cst, procs, slots', t', switches, completed)
  {
    SameWellFormed(procs, ps);
    NothingArrived(ps, procs, slots, t, completed);
    var m := MinPendingArrival(procs, completed);
    var w :| 0 <= w < |procs| && w !in completed && procs[w].arrivalTime == m;
    var x := TimeSlot(IDLE, t, t');
    ChargedIdle(slots, t, switches, cst, x);
    FutureShrinks(ps, t, t', w);
    IdleProgress(procs, slots, t, x);
    NewIdleJustified(procs, completed, t, m);
    IdleAfterIdle(slots, procs, x);
  }

  /** An idle slot leaves every process's progress as it was. */
  lemma {:induction false} IdleProgress(procs: seq<Process>, slots: seq<TimeSlot>, t: real, x: TimeSlot)
    requires WellFormed(procs) && Progress(procs, slots, t) && x.IsIdle() && t <= x.endTime
    ensures Progress(procs, slots + [x], x.endTime) && BusyTime(slots + [x]) == BusyTime(slots)
    ensures forall i :: 0 <= i < |procs| && Done(procs[i]) ==> procs[i].completionTime.value <= t
  {
    Append(slots, x);
    AppendTotals(slots, x);
    forall i | 0 <= i < |procs|
      ensures ProcessProgress(procs[i], slots + [x], x.endTime)
      ensures Done(procs[i]) ==> procs[i].completionTime.value <= t
    {
      assert ProcessProgress(procs[i], slots, t);
    }
  }

  /** Once every process has completed, the state is the promised outcome. */
  lemma {:induction false} Finish(rule: Rule, ps: seq<Process>, cst: real, procs: seq<Process>,
               slots: seq<TimeSlot>, t: real, switches: nat, completed: seq<nat>, name: string)
    requires Invariant(rule, ps, cst, procs, slots, t, switches, completed) && |completed| == |ps|
    ensures NonPreemptiveRun(rule, ps, SchedulingResult(name, slots, procs, switches, t), cst)
  {
    AllDone(procs);
    forall i | 0 <= i < |ps| ensures RanOnce(procs[i], slots) {
      assert ProcessProgress(procs[i], slots, t);
    }
  }
}
