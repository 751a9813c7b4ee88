/** What a finished scheduling run guarantees, stated over its timeline and its
    final process list.  The policies' postconditions are written with these. */
module RunSpec {
  import opened Process
  import opened Timeline
  import opened Workload

  /** The timeline is ordered, starts no earlier than 0 and ends by `total`. */
  predicate WellTimed(slots: seq<TimeSlot>, total: real)
  {
    && Ordered(slots)
    && (|slots| > 0 ==> 0.0 <= slots[0].startTime && slots[|slots| - 1].endTime <= total)
    && (|slots| == 0 ==> total == 0.0)
  }

  /** Process p ran to completion, and its progress fields agree with the
      timeline: it started when its first slot started, at or after its arrival,
      completed when its last slot ended, and received exactly its burst. */
  predicate Finished(p: Process, slots: seq<TimeSlot>)
  {
    && p.remainingTime == 0
    && p.startTime.Some? && p.completionTime.Some?
    && p.startTime.value >= p.arrivalTime as real
    && FirstStart(slots, p.processId) == p.startTime
    && LastEnd(slots, p.processId) == p.completionTime
    && ServiceTime(slots, p.processId) == p.cpuBurstTime as real
  }

  /** A process that ran in one piece: a single slot of its whole burst. */
  predicate RanOnce(p: Process, slots: seq<TimeSlot>)
  {
    && Finished(p, slots)
    && SlotCount(slots, p.processId) == 1
    && p.completionTime.value == p.startTime.value + p.cpuBurstTime as real
  }

  predicate AllFinished(ps: seq<Process>, slots: seq<TimeSlot>)
  {
    forall i :: 0 <= i < |ps| ==> Finished(ps[i], slots)
  }

  /** Every idle slot ends at some process's arrival, and while the CPU idles
      every process has either completed already or not yet arrived. */
  predicate IdleOnlyWhenNothingReady(slots: seq<TimeSlot>, ps: seq<Process>)
  {
    forall k {:trigger IdleSlotJustified(slots[k], ps)} ::
      0 <= k < |slots| && slots[k].IsIdle() ==> IdleSlotJustified(slots[k], ps)
  }

  predicate IdleSlotJustified(s: TimeSlot, ps: seq<Process>)
  {
    && (exists i :: 0 <= i < |ps| && ps[i].arrivalTime as real == s.endTime)
    && forall i :: 0 <= i < |ps| ==>
         (Done(ps[i]) && ps[i].completionTime.value <= s.startTime) || ps[i].arrivalTime as real >= s.endTime
  }

  /** A completed process finishes no earlier than its arrival plus its burst. */
  lemma {:induction false} CompletionBound(ps: seq<Process>, slots: seq<TimeSlot>, i: nat)
    requires AllFinished(ps, slots) && Ordered(slots) && i < |ps|
    ensures ps[i].completionTime.value >= ps[i].arrivalTime as real + ps[i].cpuBurstTime as real
  {
    ServiceWithinTrace(slots, ps[i].processId);
  }

  /** Every slot after the first starts where the previous one ended, plus one
      context-switch delay when the previous slot ran a process. */
  predicate SwitchAfterEachRun(slots: seq<TimeSlot>, cst: real)
  {
    forall a, b :: 0 <= a < |slots| && b == a + 1 < |slots| ==>
      slots[b].startTime == slots[a].endTime + (if slots[a].IsIdle() then 0.0 else cst)
  }

  /** Loop state: the list of completed indices agrees with the completion times. */
  predicate Status(ps: seq<Process>, procs: seq<Process>, completed: seq<nat>)
  {
    && SameProcesses(procs, ps)
    && |completed| == CountDone(procs) <= |ps|
    && (forall i :: 0 <= i < |procs| ==> (i in completed <==> Done(procs[i])))
  }

  /** Loop state: the clock has advanced by the timeline's slots plus one delay
      per switch charged, and every slot lies between time 0 and the clock. */
  predicate Clock(slots: seq<TimeSlot>, t: real, switches: nat, cst: real)
  {
    && 0.0 <= t
    && Ordered(slots)
    && (forall k :: 0 <= k < |slots| ==> 0.0 <= slots[k].startTime && slots[k].endTime <= t)
    && t == Span(slots) + switches as real * cst
    && (|slots| == 0 ==> t == 0.0)
  }

  /** Loop state of the policies that charge a switch right after a slot that ran
      a process (`pending` is false once no more work follows). */
  predicate SwitchCharged(slots: seq<TimeSlot>, t: real, cst: real, pending: bool)
  {
    && SwitchAfterEachRun(slots, cst)
    && (|slots| > 0 ==>
          t == slots[|slots| - 1].endTime + (if !slots[|slots| - 1].IsIdle() && pending then cst else 0.0))
  }

  /** While fewer than all have completed, some index is not in the completed list. */
  lemma {:induction false} SomePending(ps: seq<Process>, procs: seq<Process>, completed: seq<nat>)
    requires Status(ps, procs, completed) && |completed| < |ps|
    ensures exists i :: 0 <= i < |procs| && i !in completed
  {
    SomeNotDone(procs);
  }

  /** Completing a process that was not in the completed list, and appending it. */
  lemma {:induction false} StatusComplete(ps: seq<Process>, procs: seq<Process>, completed: seq<nat>, c: nat, q: Process)
    requires Status(ps, procs, completed) && c < |procs| && c !in completed
    requires SameStatic(q, procs[c]) && Done(q)
    ensures Status(ps, procs[c := q], completed + [c])
  {
    UpdateOne(procs, c, q);
    CountDoneBound(procs[c := q]);
  }

  /** Updating a process that stays uncompleted. */
  lemma {:induction false} StatusUpdate(ps: seq<Process>, procs: seq<Process>, completed: seq<nat>, c: nat, q: Process)
    requires Status(ps, procs, completed) && c < |procs| && c !in completed
    requires SameStatic(q, procs[c]) && !Done(q)
    ensures Status(ps, procs[c := q], completed)
  {
    UpdateOne(procs, c, q);
  }

  /** A slot appended at the clock moves the clock to the slot's end. */
  lemma {:induction false} ClockAppend(slots: seq<TimeSlot>, t: real, switches: nat, cst: real, x: TimeSlot)
    requires Clock(slots, t, switches, cst) && x.startTime == t < x.endTime
    ensures Clock(slots + [x], x.endTime, switches, cst)
  {
    Append(slots, x);
    AppendTotals(slots, x);
  }

  /** Charging a switch after some slot moves the clock by the switch delay. */
  lemma {:induction false} ClockSwitch(slots: seq<TimeSlot>, t: real, switches: nat, cst: real)
    requires Clock(slots, t, switches, cst) && 0.0 <= cst && |slots| > 0
    ensures Clock(slots, t + cst, switches + 1, cst)
  {
    assert (switches + 1) as real * cst == switches as real * cst + cst;
  }

  /** Appending a slot at the clock, and then charging a switch when it ran a
      process and more work follows, keeps the switch-after-run shape. */
  lemma {:induction false} SwitchChargedAppend(slots: seq<TimeSlot>, t: real, cst: real, pending: bool, x: TimeSlot, pending': bool)
    requires SwitchCharged(slots, t, cst, pending) && x.startTime == t
    requires |slots| > 0 && !slots[|slots| - 1].IsIdle() ==> pending
    ensures SwitchCharged(slots + [x], x.endTime + (if !x.IsIdle() && pending' then cst else 0.0), cst, pending')
  {
  }

  /** Updating a process that had not completed, without moving its arrival,
      keeps every idle slot justified. */
  lemma {:induction false} IdleAfterUpdate(slots: seq<TimeSlot>, procs: seq<Process>, c: nat, q: Process)
    requires IdleOnlyWhenNothingReady(slots, procs) && c < |procs|
    requires !Done(procs[c]) && q.arrivalTime == procs[c].arrivalTime
    ensures IdleOnlyWhenNothingReady(slots, procs[c := q])
  {
    forall k | 0 <= k < |slots| && slots[k].IsIdle()
      ensures IdleSlotJustified(slots[k], procs[c := q])
    {
      assert IdleSlotJustified(slots[k], procs);
      var i :| 0 <= i < |procs| && procs[i].arrivalTime as real == slots[k].endTime;
      assert procs[c := q][i].arrivalTime == procs[i].arrivalTime;
    }
  }

  /** Appending a slot that runs a process adds no idle slot to justify. */
  lemma {:induction false} IdleAfterRun(slots: seq<TimeSlot>, procs: seq<Process>, x: TimeSlot)
    requires IdleOnlyWhenNothingReady(slots, procs) && !x.IsIdle()
    ensures IdleOnlyWhenNothingReady(slots + [x], procs)
  {
  }

  /** A run slot appended at the clock, followed by a switch when `more` work
      follows, keeps both the clock and the switch-after-run shape. */
  lemma {:induction false} ChargedRun(slots: seq<TimeSlot>, t: real, switches: nat, cst: real, x: TimeSlot, more: bool,
                   slots': seq<TimeSlot>, t': real, switches': nat)
    requires Clock(slots, t, switches, cst) && SwitchCharged(slots, t, cst, true) && 0.0 <= cst
    requires x.startTime == t < x.endTime && !x.IsIdle()
    requires slots' == slots + [x]
    requires t' == x.endTime + (if more then cst else 0.0) && switches' == switches + (if more then 1 else 0)
    ensures Clock(slots', t', switches', cst) && SwitchCharged(slots', t', cst, more)
  {
    ClockAppend(slots, t, switches, cst, x);
    if more {
      ClockSwitch(slots + [x], x.endTime, switches, cst);
    }
    SwitchChargedAppend(slots, t, cst, true, x, more);
  }

  /** An idle slot appended at the clock keeps both the clock and the
      switch-after-run shape. */
  lemma {:induction false} ChargedIdle(slots: seq<TimeSlot>, t: real, switches: nat, cst: real, x: TimeSlot)
    requires Clock(slots, t, switches, cst) && SwitchCharged(slots, t, cst, true)
    requires x.startTime == t < x.endTime && x.IsIdle()
    ensures Clock(slots + [x], x.endTime, switches, cst)
    ensures SwitchCharged(slots + [x], x.endTime, cst, true)
  {
    ClockAppend(slots, t, switches, cst, x);
    SwitchChargedAppend(slots, t, cst, true, x, true);
  }

  /** An idle slot from the clock to the earliest pending arrival is justified
      when every completed process finished by the clock. */
  lemma {:induction false} NewIdleJustified(procs: seq<Process>, completed: seq<nat>, t: real, next: nat)
    requires forall i :: 0 <= i < |procs| ==> (i in completed <==> Done(procs[i]))
    requires forall i :: 0 <= i < |procs| && Done(procs[i]) ==> procs[i].completionTime.value <= t
    requires exists i :: 0 <= i < |procs| && i !in completed && procs[i].arrivalTime == next
    requires forall i :: 0 <= i < |procs| && i !in completed ==> next <= procs[i].arrivalTime
    ensures IdleSlotJustified(TimeSlot(IDLE, t, next as real), procs)
  {
  }

  /** Appending a justified idle slot keeps every idle slot justified. */
  lemma {:induction false} IdleAfterIdle(slots: seq<TimeSlot>, procs: seq<Process>, x: TimeSlot)
    requires IdleOnlyWhenNothingReady(slots, procs) && IdleSlotJustified(x, procs)
    ensures IdleOnlyWhenNothingReady(slots + [x], procs)
  {
  }
}
