/** The loop shared by preemptive SJF and preemptive priority
    (src/scheduling_algorithms.py, schedule_preemptive_sjf and
    schedule_preemptive_priority): every pass runs the first ready process in key
    order for one time unit, and a context switch is charged only when that
    displaces a process that still has work left. */
module PreemptiveLoop {
  import opened Process
  import opened Timeline
  import opened Workload
  import opened Selection
  import opened RunSpec

  /** Every slot that runs a process lasts one time unit: min(1, remaining) is 1
      for work counted in whole units. */
  predicate UnitSlots(slots: seq<TimeSlot>)
  {
    forall k :: 0 <= k < |slots| && !slots[k].IsIdle() ==> slots[k].endTime == slots[k].startTime + 1.0
  }

  /** Slot a ran a process that still had work left after it, and the next slot
      runs another process: the running process was displaced. */
  predicate Displaced(ps: seq<Process>, slots: seq<TimeSlot>, a: nat)
    requires a + 1 < |slots|
  {
    && !slots[a].IsIdle() && !slots[a + 1].IsIdle()
    && slots[a + 1].processId != slots[a].processId
    && SlotCount(slots[..a + 1], slots[a].processId) < BurstOf(ps, slots[a].processId)
  }

  /** Consecutive slots follow each other directly, except that a displacement
      costs one context-switch delay. */
  predicate SwitchOnDisplacement(ps: seq<Process>, slots: seq<TimeSlot>, cst: real)
  {
    forall a, b :: 0 <= a < |slots| && b == a + 1 < |slots| ==>
      slots[b].startTime == slots[a].endTime + (if Displaced(ps, slots, a) then cst else 0.0)
  }

  /** Number of displacements along the timeline. */
  function DisplacedCount(ps: seq<Process>, slots: seq<TimeSlot>): nat
  {
    if |slots| < 2 then 0
    else DisplacedCount(ps, slots[..|slots| - 1]) + (if Displaced(ps, slots, |slots| - 2) then 1 else 0)
  }

  /** The last slot ran a process that still has work left: the process the
      loop keeps as its current process. */
  predicate Running(ps: seq<Process>, slots: seq<TimeSlot>)
  {
    && |slots| > 0 && !slots[|slots| - 1].IsIdle()
    && SlotCount(slots, slots[|slots| - 1].processId) < BurstOf(ps, slots[|slots| - 1].processId)
  }

  /** Process p as it stood when slot k was chosen: its remaining time is its
      burst less the slots it had received before slot k. */
  function AsOf(p: Process, slots: seq<TimeSlot>, k: nat): Process
    requires k <= |slots|
  {
    var received := SlotCount(slots[..k], p.processId);
    p.(remainingTime := if received <= p.cpuBurstTime then p.cpuBurstTime - received else 0)
  }

  /** The whole list as it stood when slot k was chosen. */
  function Snapshot(ps: seq<Process>, slots: seq<TimeSlot>, k: nat): (r: seq<Process>)
    requires k <= |slots|
    ensures |r| == |ps|
  {
    seq(|ps|, i requires 0 <= i < |ps| => AsOf(ps[i], slots, k))
  }

  /** The clock when slot k was chosen: the end of the slot before it, or 0.  A
      switch delay, when one is charged, falls between the choice and the slot. */
  function ChoiceTime(slots: seq<TimeSlot>, k: nat): real
    requires k < |slots|
  {
    if k == 0 then 0.0 else slots[k - 1].endTime
  }

  /** Process j was ready when slot k was chosen: arrived, with work left. */
  predicate WaitingAt(ps: seq<Process>, slots: seq<TimeSlot>, k: nat, j: nat)
    requires k < |slots| && j < |ps|
  {
    ps[j].arrivalTime as real <= ChoiceTime(slots, k) && AsOf(ps[j], slots, k).remainingTime > 0
  }

  /** Slot k ran a process that was ready when the slot was chosen and that came
      first, in the rule's key order over the list as it then stood, among all
      ready processes. */
  predicate ChosenByKey(rule: Rule, ps: seq<Process>, slots: seq<TimeSlot>, k: nat)
    requires k < |slots|
  {
    forall i :: 0 <= i < |ps| && ps[i].processId == slots[k].processId ==>
      && WaitingAt(ps, slots, k, i)
      && forall j :: 0 <= j < |ps| && WaitingAt(ps, slots, k, j) ==> Precedes(rule, Snapshot(ps, slots, k), i, j)
  }

  predicate PicksByKey(rule: Rule, ps: seq<Process>, slots: seq<TimeSlot>)
  {
    forall k {:trigger ChosenByKey(rule, ps, slots, k)} :: 0 <= k < |slots| ==> ChosenByKey(rule, ps, slots, k)
  }

  /** The outcome of a preemptive run on a non-empty list: every process ran to
      completion in unit slots, one per unit of its burst; a switch delay was
      charged exactly at each displacement; the CPU idled only when nothing was
      ready; and every slot followed the key order. */
  predicate PreemptiveRun(rule: Rule, ps: seq<Process>, r: SchedulingResult, cst: real)
    requires |ps| > 0
  {
    && SameProcesses(r.processes, ps)
    && WellTimed(r.timeSlots, r.totalTime)
    && |r.timeSlots| > 0 && r.totalTime == r.timeSlots[|r.timeSlots| - 1].endTime
    && r.totalTime == Span(r.timeSlots) + r.contextSwitches as real * cst
    && (forall i :: 0 <= i < |ps| ==>
          Finished(r.processes[i], r.timeSlots) && SlotCount(r.timeSlots, ps[i].processId) == ps[i].cpuBurstTime)
    && UnitSlots(r.timeSlots)
    && SwitchOnDisplacement(ps, r.timeSlots, cst)
    && r.contextSwitches == DisplacedCount(ps, r.timeSlots)
    && BusyTime(r.timeSlots) == TotalBurst(ps)
    && IdleOnlyWhenNothingReady(r.timeSlots, r.processes)
    && PicksByKey(rule, ps, r.timeSlots)
  }

  /** Per process: the slots it received are the work it has done; it started
      with its first slot, after arriving, and completed with its last one. */
  predicate SliceProgress(p: Process, slots: seq<TimeSlot>, t: real)
  {
    && p.remainingTime <= p.cpuBurstTime
    && SlotCount(slots, p.processId) == p.cpuBurstTime - p.remainingTime
    && ServiceTime(slots, p.processId) == (p.cpuBurstTime - p.remainingTime) as real
    && (Done(p) <==> p.remainingTime == 0)
    && (if p.remainingTime == p.cpuBurstTime
        then p.startTime.None? && FirstStart(slots, p.processId).None?
        else && p.startTime.Some? && FirstStart(slots, p.processId) == p.startTime
             && p.arrivalTime as real <= p.startTime.value <= t)
    && (Done(p) ==> LastEnd(slots, p.processId) == p.completionTime && p.completionTime.value <= t)
    && p.turnaroundTime.None? && p.waitingTime.None? && p.responseTime.None?
  }

  predicate Shares(procs: seq<Process>, slots: seq<TimeSlot>, t: real)
  {
    forall i {:trigger SliceProgress(procs[i], slots, t)} :: 0 <= i < |procs| ==> SliceProgress(procs[i], slots, t)
  }

  /** The state the loop keeps between iterations; `current` is the index of the
      process that ran last and still has work left. */
  predicate State(rule: Rule, ps: seq<Process>, cst: real, procs: seq<Process>, slots: seq<TimeSlot>,
                  t: real, switches: nat, completed: seq<nat>, current: Option<nat>)
  {
    && |ps| > 0 && WellFormed(ps) && 0.0 <= cst
    && Status(ps, procs, completed)
    && Clock(slots, t, switches, cst)
    && (|slots| > 0 ==> t == slots[|slots| - 1].endTime)
    && UnitSlots(slots)
    && SwitchOnDisplacement(ps, slots, cst)
    && switches == DisplacedCount(ps, slots)
    && Shares(procs, slots, t)
    && BusyTime(slots) == Served(procs)
    && IdleOnlyWhenNothingReady(slots, procs)
    && PicksByKey(rule, ps, slots)
    && (current.Some? <==> Running(ps, slots))
    && (current.Some? ==>
          && current.value < |procs| && procs[current.value].processId == slots[|slots| - 1].processId
          && IsReady(procs, completed, t, current.value) && procs[current.value].startTime.Some?)
  }

  /** After the reset, with an empty timeline at time 0, the state holds. */
  lemma {:induction false} Begin(rule: Rule, ps: seq<Process>, cst: real, procs: seq<Process>)
    requires |ps| > 0 && WellFormed(ps) && 0.0 <= cst
    requires SameProcesses(procs, ps) && forall i :: 0 <= i < |procs| ==> IsFresh(procs[i])
    ensures State(rule, ps, cst, procs, [], 0.0, 0, [], None)
  {
    NoneDone(procs);
    ServedNone(procs);
    forall i | 0 <= i < |procs| ensures SliceProgress(procs[i], [], 0.0) {
      assert ps[i].cpuBurstTime > 0;
    }
  }

  /** The selected process is ready. */
  lemma {:induction false} Picked(rule: Rule, ps: seq<Process>, cst: real, procs: seq<Process>, slots: seq<TimeSlot>,
               t: real, switches: nat, completed: seq<nat>, current: Option<nat>, c: nat)
    requires State(rule, ps, cst, procs, slots, t, switches, completed, current)
    requires |ReadyList(procs, completed, t)| > 0 && c == Select(rule, procs, ReadyList(procs, completed, t))
    ensures c < |procs| && IsReady(procs, completed, t, c)
  {
    assert c in ReadyList(procs, completed, t);
  }

  /** Appending a slot changes no earlier displacement. */
  lemma {:induction false} DisplacedAppend(ps: seq<Process>, slots: seq<TimeSlot>, x: TimeSlot, a: nat)
    requires a + 1 < |slots|
    ensures Displaced(ps, slots + [x], a) == Displaced(ps, slots, a)
  {
    assert (slots + [x])[..a + 1] == slots[..a + 1];
  }

  /** The pair a new slot closes is a displacement exactly when the last slot's
      process still had work left and the new slot runs another process. */
  lemma {:induction false} LastPair(ps: seq<Process>, slots: seq<TimeSlot>, x: TimeSlot)
    requires |slots| > 0
    ensures Displaced(ps, slots + [x], |slots| - 1) <==>
              Running(ps, slots) && !x.IsIdle() && x.processId != slots[|slots| - 1].processId
  {
    assert (slots + [x])[..|slots|] == slots;
  }

  /** A slot that follows the last one as the switch rule says keeps the rule. */
  lemma {:induction false} SwitchAppend(ps: seq<Process>, slots: seq<TimeSlot>, cst: real, x: TimeSlot)
    requires SwitchOnDisplacement(ps, slots, cst)
    requires |slots| > 0 ==>
      x.startTime == slots[|slots| - 1].endTime + (if Displaced(ps, slots + [x], |slots| - 1) then cst else 0.0)
    ensures SwitchOnDisplacement(ps, slots + [x], cst)
  {
    var s' := slots + [x];
    forall a, b | 0 <= a < |s'| && b == a + 1 < |s'|
      ensures s'[b].startTime == s'[a].endTime + (if Displaced(ps, s', a) then cst else 0.0)
    {
      if b < |slots| {
        DisplacedAppend(ps, slots, x, a);
        assert s'[a] == slots[a] && s'[b] == slots[b];
      }
    }
  }

  /** The displacement count grows by the pair a new slot closes. */
  lemma {:induction false} DisplacedCountAppend(ps: seq<Process>, slots: seq<TimeSlot>, x: TimeSlot)
    ensures DisplacedCount(ps, slots + [x]) ==
              DisplacedCount(ps, slots) + (if |slots| > 0 && Displaced(ps, slots + [x], |slots| - 1) then 1 else 0)
  {
    assert (slots + [x])[..|slots|] == slots;
  }

  /** The timing of one unit slot: the clock, unit lengths and the switch rule. */
  lemma {:induction false} SliceTiming(ps: seq<Process>, slots: seq<TimeSlot>, t: real, switches: nat, cst: real,
                    x: TimeSlot, sw: bool, slots': seq<TimeSlot>, t': real, switches': nat)
    requires Clock(slots, t, switches, cst) && 0.0 <= cst && (|slots| > 0 ==> t == slots[|slots| - 1].endTime)
    requires UnitSlots(slots) && SwitchOnDisplacement(ps, slots, cst) && switches == DisplacedCount(ps, slots)
    requires !x.IsIdle() && x.startTime == t + (if sw then cst else 0.0) && x.endTime == x.startTime + 1.0
    requires sw <==> Running(ps, slots) && slots[|slots| - 1].processId != x.processId
    requires slots' == slots + [x] && t' == x.endTime && switches' == switches + (if sw then 1 else 0)
    ensures Clock(slots', t', switches', cst) && t' == slots'[|slots'| - 1].endTime
    ensures UnitSlots(slots') && SwitchOnDisplacement(ps, slots', cst) && switches' == DisplacedCount(ps, slots')
  {
    if sw {
      ClockSwitch(slots, t, switches, cst);
      ClockAppend(slots, t + cst, switches + 1, cst, x);
    } else {
      ClockAppend(slots, t, switches, cst, x);
    }
    if |slots| > 0 {
      LastPair(ps, slots, x);
    }
    SwitchAppend(ps, slots, cst, x);
    DisplacedCountAppend(ps, slots, x);
  }

  /** One unit of work for process c: its counts grow by one slot, it starts if
      it had not, and completes when no work is left; nobody else changes. */
  lemma {:induction false} SliceShares(procs: seq<Process>, slots: seq<TimeSlot>, t: real, c: nat, q: Process, t1: real,
                    procs': seq<Process>, slots': seq<TimeSlot>, t': real)
    requires WellFormed(procs) && Shares(procs, slots, t)
    requires c < |procs| && procs[c].remainingTime > 0 && procs[c].arrivalTime as real <= t <= t1
    requires SameStatic(q, procs[c]) && q.remainingTime + 1 == procs[c].remainingTime
    requires q.startTime == (if procs[c].startTime.None? then Some(t1) else procs[c].startTime)
    requires q.completionTime == (if q.remainingTime == 0 then Some(t') else procs[c].completionTime)
    requires q.turnaroundTime == procs[c].turnaroundTime && q.waitingTime == procs[c].waitingTime
    requires q.responseTime == procs[c].responseTime
    requires t' == t1 + 1.0 && slots' == slots + [TimeSlot(q.processId, t1, t')] && procs' == procs[c := q]
    ensures Shares(procs', slots', t')
  {
    var x := TimeSlot(q.processId, t1, t');
    Append(slots, x);
    AppendTotals(slots, x);
    assert SliceProgress(procs[c], slots, t);
    forall i | 0 <= i < |procs'| ensures SliceProgress(procs'[i], slots', t') {
      if i != c {
        assert SliceProgress(procs[i], slots, t);
        UniqueIdsDistinct(procs, i, c);
      }
    }
  }

  /** The new slot's process is c as it stood at the choice: the snapshot taken
      at the new slot has the current remaining times. */
  lemma {:induction false} SnapshotNow(ps: seq<Process>, procs: seq<Process>, slots: seq<TimeSlot>, t: real, x: TimeSlot, j: nat)
    requires SameProcesses(procs, ps) && Shares(procs, slots, t) && j < |ps|
    ensures AsOf(ps[j], slots + [x], |slots|).remainingTime == procs[j].remainingTime
    ensures forall rule :: Key(rule, Snapshot(ps, slots + [x], |slots|)[j]) == Key(rule, procs[j])
  {
    assert (slots + [x])[..|slots|] == slots;
    assert SliceProgress(procs[j], slots, t);
  }

  /** Appending a slot changes no earlier choice. */
  lemma {:induction false} ChosenAppend(rule: Rule, ps: seq<Process>, slots: seq<TimeSlot>, x: TimeSlot, k: nat)
    requires k < |slots| && ChosenByKey(rule, ps, slots, k)
    ensures ChosenByKey(rule, ps, slots + [x], k)
  {
    var s' := slots + [x];
    assert s'[..k] == slots[..k];
    assert Snapshot(ps, s', k) == Snapshot(ps, slots, k);
    assert ChoiceTime(s', k) == ChoiceTime(slots, k);
    forall j | 0 <= j < |ps| ensures WaitingAt(ps, s', k, j) == WaitingAt(ps, slots, k, j) {
      assert AsOf(ps[j], s', k) == AsOf(ps[j], slots, k);
    }
  }

  /** The new slot runs the selected process, which precedes every ready one. */
  lemma {:induction false} NewChoice(rule: Rule, ps: seq<Process>, procs: seq<Process>, slots: seq<TimeSlot>, t: real,
                  completed: seq<nat>, c: nat, x: TimeSlot)
    requires WellFormed(ps) && SameProcesses(procs, ps) && Shares(procs, slots, t)
    requires forall i :: 0 <= i < |procs| ==> (i in completed <==> Done(procs[i]))
    requires (|slots| > 0 ==> t == slots[|slots| - 1].endTime) && (|slots| == 0 ==> t == 0.0)
    requires |ReadyList(procs, completed, t)| > 0 && c == Select(rule, procs, ReadyList(procs, completed, t))
    requires c < |procs| && IsReady(procs, completed, t, c) && x.processId == procs[c].processId
    ensures ChosenByKey(rule, ps, slots + [x], |slots|)
  {
    var s', n := slots + [x], |slots|;
    var ready := ReadyList(procs, completed, t);
    assert ChoiceTime(s', n) == t;
    SnapshotNow(ps, procs, slots, t, x, c);
    forall i | 0 <= i < |ps| && ps[i].processId == s'[n].processId
      ensures WaitingAt(ps, s', n, i)
      ensures forall j :: 0 <= j < |ps| && WaitingAt(ps, s', n, j) ==> Precedes(rule, Snapshot(ps, s', n), i, j)
    {
      assert SameId(ps, i, c);
      forall j | 0 <= j < |ps| && WaitingAt(ps, s', n, j)
        ensures Precedes(rule, Snapshot(ps, s', n), i, j)
      {
        SnapshotNow(ps, procs, slots, t, x, j);
        assert SliceProgress(procs[j], slots, t);
        assert IsReady(procs, completed, t, j);
        assert j in ready;
      }
    }
  }

  /** The choice of every slot, old and new, followed the key order. */
  lemma {:induction false} SlicePicks(rule: Rule, ps: seq<Process>, procs: seq<Process>, slots: seq<TimeSlot>, t: real,
                   completed: seq<nat>, c: nat, x: TimeSlot, slots': seq<TimeSlot>)
    requires PicksByKey(rule, ps, slots)
    requires WellFormed(ps) && SameProcesses(procs, ps) && Shares(procs, slots, t)
    requires forall i :: 0 <= i < |procs| ==> (i in completed <==> Done(procs[i]))
    requires (|slots| > 0 ==> t == slots[|slots| - 1].endTime) && (|slots| == 0 ==> t == 0.0)
    requires |ReadyList(procs, completed, t)| > 0 && c == Select(rule, procs, ReadyList(procs, completed, t))
    requires c < |procs| && IsReady(procs, completed, t, c) && x.processId == procs[c].processId
    requires slots' == slots + [x]
    ensures PicksByKey(rule, ps, slots')
  {
    NewChoice(rule, ps, procs, slots, t, completed, c, x);
    forall k | 0 <= k < |slots| ensures ChosenByKey(rule, ps, slots', k) {
      ChosenAppend(rule, ps, slots, x, k);
    }
  }

  /** The run step: the first ready process in key order runs for one unit,
      after a switch delay when it displaces a process with work left. */
  lemma {:induction false} Slice(rule: Rule, ps: seq<Process>, cst: real, procs: seq<Process>, slots: seq<TimeSlot>,
              t: real, switches: nat, completed: seq<nat>, current: Option<nat>, c: nat, t1: real, q: Process,
              procs': seq<Process>, slots': seq<TimeSlot>, t': real, switches': nat, completed': seq<nat>,
              current': Option<nat>)
    requires State(rule, ps, cst, procs, slots, t, switches, completed, current) && |completed| < |ps|
    requires |ReadyList(procs, completed, t)| > 0 && c == Select(rule, procs, ReadyList(procs, completed, t))
    requires c < |procs|
    requires var sw := current.Some? && current.value != c && procs[current.value].remainingTime > 0;
             t1 == t + (if sw then cst else 0.0) && switches' == switches + (if sw then 1 else 0)
    requires SameStatic(q, procs[c]) && q.remainingTime + 1 == procs[c].remainingTime
    requires q.startTime == (if current != Some(c) && procs[c].startTime.None? then Some(t1) else procs[c].startTime)
    requires q.completionTime == (if q.remainingTime == 0 then Some(t') else procs[c].completionTime)
    requires q.turnaroundTime == procs[c].turnaroundTime && q.waitingTime == procs[c].waitingTime
    requires q.responseTime == procs[c].responseTime
    requires t' == t1 + 1.0 && slots' == slots + [TimeSlot(q.processId, t1, t')] && procs' == procs[c := q]
    requires completed' == (if q.remainingTime == 0 then completed + [c] else completed)
    requires current' == (if q.remainingTime == 0 then None else Some(c))
    ensures State(rule, ps, cst, procs', slots', t', switches', completed', current')
    ensures Outstanding(procs') < Outstanding(procs)
  {
    SliceWork(rule, ps, cst, procs, slots, t, switches, completed, current, c, t1, q,
              procs', slots', t', switches', completed', current');
    Picked(rule, ps, cst, procs, slots, t, switches, completed, current, c);
    SameWellFormed(procs, ps);
    var x := TimeSlot(q.processId, t1, t');
    var sw := current.Some? && current.value != c && procs[current.value].remainingTime > 0;
    assert !x.IsIdle() by {
      assert ps[c].processId != IDLE;
    }
    if current.Some? && current.value != c {
      UniqueIdsDistinct(procs, current.value, c);
    }
    SliceTiming(ps, slots, t, switches, cst, x, sw, slots', t', switches');
    SlicePicks(rule, ps, procs, slots, t, completed, c, x, slots');
    assert SliceProgress(procs'[c], slots', t');
    BurstOfUnique(ps, c);
  }

  /** The run step on the records: every process's progress agrees with the new
      timeline, the busy time grows with the work done, the completed list and
      idle justification carry over, and the outstanding work drops. */
  lemma {:induction false} SliceWork(rule: Rule, ps: seq<Process>, cst: real, procs: seq<Process>, slots: seq<TimeSlot>,
              t: real, switches: nat, completed: seq<nat>, current: Option<nat>, c: nat, t1: real, q: Process,
              procs': seq<Process>, slots': seq<TimeSlot>, t': real, switches': nat, completed': seq<nat>,
              current': Option<nat>)
    requires State(rule, ps, cst, procs, slots, t, switches, completed, current) && |completed| < |ps|
    requires |ReadyList(procs, completed, t)| > 0 && c == Select(rule, procs, ReadyList(procs, completed, t))
    requires c < |procs|
    requires var sw := current.Some? && current.value != c && procs[current.value].remainingTime > 0;
             t1 == t + (if sw then cst else 0.0) && switches' == switches + (if sw then 1 else 0)
    requires SameStatic(q, procs[c]) && q.remainingTime + 1 == procs[c].remainingTime
    requires q.startTime == (if current != Some(c) && procs[c].startTime.None? then Some(t1) else procs[c].startTime)
    requires q.completionTime == (if q.remainingTime == 0 then Some(t') else procs[c].completionTime)
    requires q.turnaroundTime == procs[c].turnaroundTime && q.waitingTime == procs[c].waitingTime
    requires q.responseTime == procs[c].responseTime
    requires t' == t1 + 1.0 && slots' == slots + [TimeSlot(q.processId, t1, t')] && procs' == procs[c := q]
    requires completed' == (if q.remainingTime == 0 then completed + [c] else completed)
    requires current' == (if q.remainingTime == 0 then None else Some(c))
    ensures Shares(procs', slots', t') && BusyTime(slots') == Served(procs')
    ensures Status(ps, procs', completed') && IdleOnlyWhenNothingReady(slots', procs')
    ensures Outstanding(procs') < Outstanding(procs)
  {
    Picked(rule, ps, cst, procs, slots, t, switches, completed, current, c);
    SameWellFormed(procs, ps);
    var x := TimeSlot(q.processId, t1, t');
    assert !x.IsIdle() by {
      assert ps[c].processId != IDLE;
    }
    SliceShares(procs, slots, t, c, q, t1, procs', slots', t');
    if q.remainingTime == 0 {
      StatusComplete(ps, procs, completed, c, q);
    } else {
      StatusUpdate(ps, procs, completed, c, q);
    }
    Append(slots, x);
    AppendTotals(slots, x);
    UpdateOne(procs, c, q);
    IdleAfterUpdate(slots, procs, c, q);
    IdleAfterRun(slots, procs', x);
  }

  /** With nothing ready, every process not yet completed arrives after the
      clock, and no process is current. */
  lemma {:induction false} NothingWaiting(rule: Rule, ps: seq<Process>, cst: real, procs: seq<Process>, slots: seq<TimeSlot>,
                       t: real, switches: nat, completed: seq<nat>, current: Option<nat>)
    requires State(rule, ps, cst, procs, slots, t, switches, completed, current)
    requires |ReadyList(procs, completed, t)| == 0
    ensures forall i :: 0 <= i < |procs| && i !in completed ==> procs[i].arrivalTime as real > t
    ensures current.None?
  {
    forall i | 0 <= i < |procs| && i !in completed
      ensures procs[i].arrivalTime as real > t
    {
      assert SliceProgress(procs[i], slots, t);
      assert !IsReady(procs, completed, t, i);
    }
  }

  /** An idle slot changes nobody's progress. */
  lemma {:induction false} WaitShares(procs: seq<Process>, slots: seq<TimeSlot>, t: real, x: TimeSlot)
    requires WellFormed(procs) && Shares(procs, slots, t) && x.IsIdle() && t <= x.endTime
    ensures Shares(procs, slots + [x], x.endTime)
    ensures forall i :: 0 <= i < |procs| && Done(procs[i]) ==> procs[i].completionTime.value <= t
  {
    Append(slots, x);
    AppendTotals(slots, x);
    forall i | 0 <= i < |procs|
      ensures SliceProgress(procs[i], slots + [x], x.endTime)
      ensures Done(procs[i]) ==> procs[i].completionTime.value <= t
    {
      assert SliceProgress(procs[i], slots, t);
    }
  }

  /** An idle slot changes no choice and is not a choice. */
  lemma {:induction false} WaitPicks(rule: Rule, ps: seq<Process>, slots: seq<TimeSlot>, x: TimeSlot)
    requires PicksByKey(rule, ps, slots) && WellFormed(ps) && x.IsIdle()
    ensures PicksByKey(rule, ps, slots + [x])
  {
    forall k | 0 <= k < |slots| + 1 ensures ChosenByKey(rule, ps, slots + [x], k) {
      if k < |slots| {
        ChosenAppend(rule, ps, slots, x, k);
      }
    }
  }

  /** The timing of an idle slot: the clock moves to its end, with no switch. */
  lemma {:induction false} WaitTiming(ps: seq<Process>, slots: seq<TimeSlot>, t: real, switches: nat, cst: real,
                   x: TimeSlot, slots': seq<TimeSlot>, t': real)
    requires Clock(slots, t, switches, cst) && (|slots| > 0 ==> t == slots[|slots| - 1].endTime)
    requires UnitSlots(slots) && SwitchOnDisplacement(ps, slots, cst) && switches == DisplacedCount(ps, slots)
    requires x.IsIdle() && x.startTime == t < x.endTime
    requires slots' == slots + [x] && t' == x.endTime
    ensures Clock(slots', t', switches, cst) && t' == slots'[|slots'| - 1].endTime
    ensures UnitSlots(slots') && SwitchOnDisplacement(ps, slots', cst) && switches == DisplacedCount(ps, slots')
    ensures !Running(ps, slots')
  {
    ClockAppend(slots, t, switches, cst, x);
    if |slots| > 0 {
      LastPair(ps, slots, x);
    }
    SwitchAppend(ps, slots, cst, x);
    DisplacedCountAppend(ps, slots, x);
  }

  /** The idle step: the CPU idles from the clock until the earliest arrival
      among the processes not yet completed. */
  lemma {:induction false} Wait(rule: Rule, ps: seq<Process>, cst: real, procs: seq<Process>, slots: seq<TimeSlot>,
             t: real, switches: nat, completed: seq<nat>, current: Option<nat>, slots': seq<TimeSlot>, t': real)
    requires State(rule, ps, cst, procs, slots, t, switches, completed, current) && |completed| < |ps|
    requires |ReadyList(procs, completed, t)| == 0
    requires exists i :: 0 <= i < |procs| && i !in completed
    requires t' == MinPendingArrival(procs, completed) as real && slots' == slots + [TimeSlot(IDLE, t, t')]
    ensures t < t' && Future(ps, t') < Future(ps, t)
    ensures State(rule, ps, cst, procs, slots', t', switches, completed, current)
  {
    SameWellFormed(procs, ps);
    NothingWaiting(rule, ps, cst, procs, slots, t, switches, completed, current);
    var m := MinPendingArrival(procs, completed);
    var w :| 0 <= w < |procs| && w !in completed && procs[w].arrivalTime == m;
    var x := TimeSlot(IDLE, t, t');
    WaitTiming(ps, slots, t, switches, cst, x, slots', t');
    FutureShrinks(ps, t, t', w);
    WaitShares(procs, slots, t, x);
    Append(slots, x);
    AppendTotals(slots, x);
    NewIdleJustified(procs, completed, t, m);
    IdleAfterIdle(slots, procs, x);
    WaitPicks(rule, ps, slots, x);
  }

  /** Once every process has completed, the state is the promised outcome. */
  lemma {:induction false} Conclude(rule: Rule, ps: seq<Process>, cst: real, procs: seq<Process>, slots: seq<TimeSlot>,
                 t: real, switches: nat, completed: seq<nat>, current: Option<nat>, name: string)
    requires State(rule, ps, cst, procs, slots, t, switches, completed, current) && |completed| == |ps|
    ensures PreemptiveRun(rule, ps, SchedulingResult(name, slots, procs, switches, t), cst)
  {
    AllDone(procs);
    AllFinished(rule, ps, cst, procs, slots, t, switches, completed, current);
    assert |slots| > 0 by {
      assert SlotCount(slots, ps[0].processId) > 0;
    }
    ServedAll(procs);
    TotalBurstSame(procs, ps);
  }

  /** With every process done, each one has finished and ran one slot per unit of its burst. */
  lemma {:induction false} AllFinished(rule: Rule, ps: seq<Process>, cst: real, procs: seq<Process>, slots: seq<TimeSlot>,
                     t: real, switches: nat, completed: seq<nat>, current: Option<nat>)
    requires State(rule, ps, cst, procs, slots, t, switches, completed, current)
    requires forall i :: 0 <= i < |procs| ==> Done(procs[i])
    ensures forall i :: 0 <= i < |ps| ==> Finished(procs[i], slots) && SlotCount(slots, ps[i].processId) == ps[i].cpuBurstTime
    ensures forall i :: 0 <= i < |ps| ==> procs[i].remainingTime == 0
  {
    forall i | 0 <= i < |ps|
      ensures Finished(procs[i], slots) && SlotCount(slots, ps[i].processId) == ps[i].cpuBurstTime
      ensures procs[i].remainingTime == 0
    {
      assert SliceProgress(procs[i], slots, t);
    }
  }
}
