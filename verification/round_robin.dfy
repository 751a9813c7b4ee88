/** The Round Robin loop (src/scheduling_algorithms.py, schedule_round_robin):
    what it guarantees, the state it keeps, and how each of its steps
    preserves that state.  A process runs for at most one quantum at a time; one
    that still has work goes back to the end of the ready queue, behind the
    processes that arrived while it ran; a context switch follows every slice. */
module RoundRobinLoop {
  import opened Process
  import opened Timeline
  import opened Workload
  import opened Selection
  import opened RunSpec

  /** No slot that runs a process is longer than the quantum. */
  predicate WithinQuantum(slots: seq<TimeSlot>, quantum: nat)
  {
    forall k :: 0 <= k < |slots| && !slots[k].IsIdle() ==> slots[k].endTime <= slots[k].startTime + quantum as real
  }

  /** Every slot of a process but its last ran for the whole quantum: a slot
      that a later slot of the same process follows is a full quantum. */
  predicate FullUntilLast(slots: seq<TimeSlot>, quantum: nat)
  {
    forall a, b :: 0 <= a < b < |slots| && !slots[a].IsIdle() && slots[b].processId == slots[a].processId ==>
      slots[a].Duration() == quantum as real
  }

  /** The number of slices a burst needs: its length divided by the quantum,
      rounded up. */
  function Quanta(burst: nat, quantum: nat): nat
    requires quantum > 0
  {
    (burst + quantum - 1) / quantum
  }

  /** Quanta is the ceiling: the slices cover the burst, and one slice fewer
      would not. */
  lemma {:induction false} QuantaIsCeiling(burst: nat, quantum: nat)
    requires quantum > 0 && burst > 0
    ensures (Quanta(burst, quantum) - 1) * quantum < burst <= Quanta(burst, quantum) * quantum
  {
    var n, m := Quanta(burst, quantum), (burst + quantum - 1) % quantum;
    assert burst + quantum - 1 == n * quantum + m;
    assert n * quantum > 0;
    assert (n - 1) * quantum == n * quantum - quantum;
  }

  /** Processes started in list order: none starts before an earlier one. */
  predicate StartsInListOrder(procs: seq<Process>)
  {
    forall i, j :: 0 <= i < j < |procs| && procs[j].startTime.Some? ==>
      procs[i].startTime.Some? && procs[i].startTime.value < procs[j].startTime.value
  }

  /** The outcome of a Round Robin run on a non-empty list sorted by arrival:
      every process ran to completion in as many slices as its burst needs, no
      slice longer than the quantum; a switch delay follows every slice; the CPU
      idled only when nothing was ready; processes started in list order. */
  predicate RoundRobinRun(ps: seq<Process>, quantum: nat, r: SchedulingResult, cst: real)
    requires |ps| > 0 && quantum > 0
  {
    && SameProcesses(r.processes, ps)
    && WellTimed(r.timeSlots, r.totalTime)
    && (forall i :: 0 <= i < |ps| ==>
          && Finished(r.processes[i], r.timeSlots)
          && SlotCount(r.timeSlots, ps[i].processId) == Quanta(ps[i].cpuBurstTime, quantum))
    && WithinQuantum(r.timeSlots, quantum)
    && FullUntilLast(r.timeSlots, quantum)
    && SwitchAfterEachRun(r.timeSlots, cst)
    && r.contextSwitches == ExecCount(r.timeSlots)
    && r.totalTime == Span(r.timeSlots) + r.contextSwitches as real * cst
    && |r.timeSlots| > 0 && !r.timeSlots[|r.timeSlots| - 1].IsIdle()
    && r.totalTime == r.timeSlots[|r.timeSlots| - 1].endTime + cst
    && BusyTime(r.timeSlots) == TotalBurst(ps)
    && IdleOnlyWhenNothingReady(r.timeSlots, r.processes)
    && StartsInListOrder(r.processes)
  }

  /** Per process: the slots it received are the work it has done, each a full
      quantum until the last; it started with its first slot, after arriving,
      and completed with its last one. */
  predicate QuantumProgress(p: Process, slots: seq<TimeSlot>, t: real, quantum: nat)
    requires quantum > 0
  {
    && p.remainingTime <= p.cpuBurstTime
    && ServiceTime(slots, p.processId) == (p.cpuBurstTime - p.remainingTime) as real
    && (if p.remainingTime > 0 then p.cpuBurstTime - p.remainingTime == quantum * SlotCount(slots, p.processId)
        else SlotCount(slots, p.processId) == Quanta(p.cpuBurstTime, quantum))
    && (Done(p) <==> p.remainingTime == 0)
    && (if p.remainingTime == p.cpuBurstTime
        then p.startTime.None? && FirstStart(slots, p.processId).None?
        else && p.startTime.Some? && FirstStart(slots, p.processId) == p.startTime
             && p.arrivalTime as real <= p.startTime.value < t)
    && (Done(p) ==> LastEnd(slots, p.processId) == p.completionTime && p.completionTime.value <= t)
    && p.turnaroundTime.None? && p.waitingTime.None? && p.responseTime.None?
  }

  predicate AllProgress(procs: seq<Process>, slots: seq<TimeSlot>, t: real, quantum: nat)
    requires quantum > 0
  {
    forall i {:trigger QuantumProgress(procs[i], slots, t, quantum)} :: 0 <= i < |procs| ==>
      QuantumProgress(procs[i], slots, t, quantum)
  }

  /** The ready queue holds distinct admitted processes that have arrived and
      still have work; every admitted process (index below `index`) is queued
      or completed and the others are untouched; and a process that has not
      started yet has only earlier processes of the list ahead of it. */
  predicate QueueShape(procs: seq<Process>, queue: seq<nat>, index: nat, t: real)
  {
    && index <= |procs|
    && (forall k :: 0 <= k < |queue| ==>
          queue[k] < index && !Done(procs[queue[k]]) && procs[queue[k]].arrivalTime as real <= t)
    && (forall a, b :: 0 <= a < b < |queue| ==> queue[a] != queue[b])
    && (forall i :: 0 <= i < index ==> i in queue || Done(procs[i]))
    && (forall i :: index <= i < |procs| ==> IsFresh(procs[i]))
    && (forall a, b :: 0 <= a < b < |queue| && procs[queue[b]].startTime.None? ==> queue[a] < queue[b])
  }

  /** The state the loop keeps between iterations. */
  predicate RRState(ps: seq<Process>, quantum: nat, cst: real, procs: seq<Process>, slots: seq<TimeSlot>,
                    t: real, switches: nat, completed: seq<nat>, queue: seq<nat>, index: nat)
  {
    && |ps| > 0 && WellFormed(ps) && SortedByArrival(ps) && quantum > 0 && 0.0 <= cst
    && Status(ps, procs, completed)
    && Clock(slots, t, switches, cst) && SwitchCharged(slots, t, cst, true)
    && switches == ExecCount(slots)
    && (|slots| > 0 && slots[|slots| - 1].IsIdle() ==> |completed| < |ps|)
    && WithinQuantum(slots, quantum)
    && FullUntilLast(slots, quantum)
    && AllProgress(procs, slots, t, quantum)
    && BusyTime(slots) == Served(procs)
    && IdleOnlyWhenNothingReady(slots, procs)
    && StartsInListOrder(procs)
    && QueueShape(procs, queue, index, t)
  }

  /** After the reset, with an empty timeline, queue and admission index, the
      state holds. */
  lemma {:induction false} Start(ps: seq<Process>, quantum: nat, cst: real, procs: seq<Process>)
    requires |ps| > 0 && WellFormed(ps) && SortedByArrival(ps) && quantum > 0 && 0.0 <= cst
    requires SameProcesses(procs, ps) && forall i :: 0 <= i < |procs| ==> IsFresh(procs[i])
    ensures RRState(ps, quantum, cst, procs, [], 0.0, 0, [], [], 0)
  {
    NoneDone(procs);
    ServedNone(procs);
    forall i | 0 <= i < |procs| ensures QuantumProgress(procs[i], [], 0.0, quantum) {
      assert ps[i].cpuBurstTime > 0;
    }
  }

  /** On a list sorted by arrival, the processes from `from` on that have
      arrived by t are the consecutive run from `from` up to the first that has
      not. */
  lemma {:induction false} ArrivedCut(ps: seq<Process>, from: nat, t: real)
    requires SortedByArrival(ps) && from <= |ps|
    ensures var r := Arrived(ps, from, t);
            && from + |r| <= |ps| && r == Range(from, from + |r|)
            && forall i :: from <= i < |ps| ==> (i < from + |r| <==> ps[i].arrivalTime as real <= t)
  {
    ArrivedIsPrefix(ps, from, t);
    var r := Arrived(ps, from, t);
    forall i | from <= i < |ps| ensures i < from + |r| <==> ps[i].arrivalTime as real <= t {
      if i < from + |r| {
        assert r[i - from] == i;
      } else {
        assert i !in r;
      }
    }
  }

  /** Appending fresh processes that have arrived, in list order from the
      admission index, keeps the queue's shape. */
  lemma {:induction false} QueueAdmit(procs: seq<Process>, queue: seq<nat>, index: nat, t: real, arrived: seq<nat>, t': real)
    requires QueueShape(procs, queue, index, t) && t <= t'
    requires index + |arrived| <= |procs|
    requires forall k :: 0 <= k < |arrived| ==> arrived[k] == index + k && procs[arrived[k]].arrivalTime as real <= t'
    ensures QueueShape(procs, queue + arrived, index + |arrived|, t')
  {
    var q' := queue + arrived;
    forall k | 0 <= k < |arrived| ensures !Done(procs[arrived[k]]) {
      assert IsFresh(procs[index + k]);
    }
    forall i | 0 <= i < index + |arrived| ensures i in q' || Done(procs[i]) {
      if i >= index {
        assert q'[|queue| + (i - index)] == i;
      }
    }
  }

  /** A process not yet admitted is neither queued nor completed. */
  lemma {:induction false} Unadmitted(ps: seq<Process>, procs: seq<Process>, completed: seq<nat>, queue: seq<nat>, index: nat, t: real)
    requires |procs| == |ps| && QueueShape(procs, queue, index, t)
    requires forall i :: 0 <= i < |procs| ==> (i in completed <==> Done(procs[i]))
    ensures forall i :: index <= i < |ps| ==> i !in queue && i !in completed
  {
    forall i | index <= i < |ps| ensures i !in queue && i !in completed {
      assert IsFresh(procs[i]);
    }
  }

  /** Admission at the top of the loop: the processes of the unadmitted part of
      the list that have arrived join the queue; in arrival order they are a
      prefix of that part, so the next unadmitted one has not arrived. */
  lemma {:induction false} AdmitQueue(ps: seq<Process>, procs: seq<Process>, completed: seq<nat>, queue: seq<nat>, index: nat,
                   t: real, queue': seq<nat>, index': nat)
    requires SortedByArrival(ps) && Status(ps, procs, completed) && QueueShape(procs, queue, index, t)
    requires queue' == queue + ArrivedUnqueued(ps, index, t, queue, completed)
    requires index' == index + |ArrivedUnqueued(ps, index, t, queue, completed)|
    ensures QueueShape(procs, queue', index', t)
    ensures index <= index' <= |ps| && queue' == queue + Range(index, index')
    ensures forall i :: index <= i < |ps| ==> (i < index' <==> ps[i].arrivalTime as real <= t)
    ensures index' < |ps| ==> ps[index'].arrivalTime as real > t
  {
    Unadmitted(ps, procs, completed, queue, index, t);
    ArrivedUnqueuedIsArrived(ps, index, t, queue, completed);
    ArrivedCut(ps, index, t);
    QueueAdmit(procs, queue, index, t, Arrived(ps, index, t), t);
  }

  /** Admission keeps the loop state. */
  lemma {:induction false} Admit(ps: seq<Process>, quantum: nat, cst: real, procs: seq<Process>, slots: seq<TimeSlot>,
              t: real, switches: nat, completed: seq<nat>, queue: seq<nat>, index: nat,
              queue': seq<nat>, index': nat)
    requires RRState(ps, quantum, cst, procs, slots, t, switches, completed, queue, index)
    requires queue' == queue + ArrivedUnqueued(ps, index, t, queue, completed)
    requires index' == index + |ArrivedUnqueued(ps, index, t, queue, completed)|
    ensures RRState(ps, quantum, cst, procs, slots, t, switches, completed, queue', index')
    ensures index <= index' <= |ps| && queue' == queue + Range(index, index')
    ensures forall i :: index <= i < |ps| ==> (i < index' <==> ps[i].arrivalTime as real <= t)
    ensures index' < |ps| ==> ps[index'].arrivalTime as real > t
  {
    AdmitQueue(ps, procs, completed, queue, index, t, queue', index');
  }

  /** With the queue empty and work outstanding, some process is still to be
      admitted, and it is the next arrival after the clock. */
  lemma {:induction false} Pending(ps: seq<Process>, quantum: nat, cst: real, procs: seq<Process>, slots: seq<TimeSlot>,
                t: real, switches: nat, completed: seq<nat>, queue: seq<nat>, index: nat)
    requires RRState(ps, quantum, cst, procs, slots, t, switches, completed, queue, index)
    requires |queue| == 0 && |completed| < |ps|
    requires index < |ps| ==> ps[index].arrivalTime as real > t
    ensures index < |ps| && NextArrival(ps, index, t) == Some(index)
  {
    SomeNotDone(procs);
    var i :| 0 <= i < |procs| && !Done(procs[i]);
    assert i >= index;
  }

  /** An idle slot changes nobody's progress. */
  lemma {:induction false} IdleProgress(procs: seq<Process>, slots: seq<TimeSlot>, t: real, quantum: nat, x: TimeSlot)
    requires quantum > 0 && WellFormed(procs) && AllProgress(procs, slots, t, quantum)
    requires x.IsIdle() && t <= x.endTime
    ensures AllProgress(procs, slots + [x], x.endTime, quantum)
  {
    Append(slots, x);
    AppendTotals(slots, x);
    forall i | 0 <= i < |procs| ensures QuantumProgress(procs[i], slots + [x], x.endTime, quantum) {
      assert QuantumProgress(procs[i], slots, t, quantum);
    }
  }

  /** An idle slot from the clock to the next arrival is justified: every
      admitted process has completed by the clock, and the others arrive no
      earlier than the slot ends. */
  lemma {:induction false} IdleJustified(ps: seq<Process>, procs: seq<Process>, slots: seq<TimeSlot>, t: real, quantum: nat,
                      queue: seq<nat>, index: nat, x: TimeSlot)
    requires quantum > 0 && SortedByArrival(ps) && SameProcesses(procs, ps)
    requires AllProgress(procs, slots, t, quantum) && QueueShape(procs, queue, index, t) && |queue| == 0
    requires index < |ps| && x == TimeSlot(IDLE, t, ps[index].arrivalTime as real)
    ensures IdleSlotJustified(x, procs)
  {
    forall i | 0 <= i < |procs|
      ensures (Done(procs[i]) && procs[i].completionTime.value <= x.startTime) || procs[i].arrivalTime as real >= x.endTime
    {
      assert QuantumProgress(procs[i], slots, t, quantum);
      if i >= index {
        assert ps[index].arrivalTime <= ps[i].arrivalTime;
      }
    }
    assert procs[index].arrivalTime as real == x.endTime;
  }

  /** The idle step: with the queue empty, the CPU idles until the next
      process of the list arrives. */
  lemma {:induction false} IdleStep(ps: seq<Process>, quantum: nat, cst: real, procs: seq<Process>, slots: seq<TimeSlot>,
                 t: real, switches: nat, completed: seq<nat>, queue: seq<nat>, index: nat,
                 slots': seq<TimeSlot>, t': real)
    requires RRState(ps, quantum, cst, procs, slots, t, switches, completed, queue, index)
    requires |queue| == 0 && |completed| < |ps| && index < |ps| && ps[index].arrivalTime as real > t
    requires t' == ps[index].arrivalTime as real && slots' == slots + [TimeSlot(IDLE, t, t')]
    ensures RRState(ps, quantum, cst, procs, slots', t', switches, completed, queue, index)
    ensures Future(ps, t') < Future(ps, t)
  {
    var x := TimeSlot(IDLE, t, t');
    SameWellFormed(procs, ps);
    ChargedIdle(slots, t, switches, cst, x);
    Append(slots, x);
    AppendTotals(slots, x);
    IdleProgress(procs, slots, t, quantum, x);
    IdleJustified(ps, procs, slots, t, quantum, queue, index, x);
    IdleAfterIdle(slots, procs, x);
    FutureShrinks(ps, t, t', index);
    FullAppend(slots, quantum, x);
  }

  /** The arithmetic of the last slice: a burst that had received full quanta
      and fits in one more needs exactly one more slice. */
  lemma {:induction false} LastSlice(burst: nat, remaining: nat, quantum: nat, count: nat)
    requires 0 < remaining <= quantum && remaining <= burst && burst - remaining == quantum * count
    ensures Quanta(burst, quantum) == count + 1
  {
    var n, m := Quanta(burst, quantum), (burst + quantum - 1) % quantum;
    assert burst + quantum - 1 == n * quantum + m;
    assert burst + quantum - 1 == (count + 1) * quantum + (remaining - 1);
    assert n <= count ==> n * quantum <= count * quantum;
    assert n >= count + 2 ==> n * quantum >= (count + 2) * quantum;
  }

  /** One slice for the queue's head c: its counts grow by one slot of the
      slice's length, it starts if it had not, and completes when no work is
      left; nobody else changes. */
  lemma {:induction false} SliceProgress(procs: seq<Process>, slots: seq<TimeSlot>, t: real, quantum: nat, c: nat, q: Process,
                      run: nat, procs': seq<Process>, slots': seq<TimeSlot>, t': real)
    requires quantum > 0 && WellFormed(procs) && AllProgress(procs, slots, t, quantum)
    requires c < |procs| && procs[c].remainingTime > 0 && procs[c].arrivalTime as real <= t
    requires run == SliceLength(quantum, procs[c].remainingTime)
    requires SameStatic(q, procs[c]) && q.remainingTime == procs[c].remainingTime - run
    requires q.startTime == (if procs[c].startTime.None? then Some(t) else procs[c].startTime)
    requires q.completionTime == (if q.remainingTime == 0 then Some(t + run as real) else procs[c].completionTime)
    requires q.turnaroundTime == procs[c].turnaroundTime && q.waitingTime == procs[c].waitingTime
    requires q.responseTime == procs[c].responseTime
    requires procs' == procs[c := q] && slots' == slots + [TimeSlot(q.processId, t, t + run as real)]
    requires t + run as real <= t'
    ensures AllProgress(procs', slots', t', quantum)
  {
    var x := TimeSlot(q.processId, t, t + run as real);
    Append(slots, x);
    AppendTotals(slots, x);
    var p := procs[c];
    assert QuantumProgress(p, slots, t, quantum);
    var count := SlotCount(slots, p.processId);
    if q.remainingTime == 0 {
      LastSlice(p.cpuBurstTime, p.remainingTime, quantum, count);
    } else {
      assert p.cpuBurstTime - q.remainingTime == quantum * (count + 1);
    }
    forall i | 0 <= i < |procs'| ensures QuantumProgress(procs'[i], slots', t', quantum) {
      if i != c {
        assert QuantumProgress(procs[i], slots, t, quantum);
        UniqueIdsDistinct(procs, i, c);
      }
    }
  }

  /** The head of the queue completes and leaves it. */
  lemma {:induction false} QueueDrop(procs: seq<Process>, queue: seq<nat>, index: nat, t: real, q: Process, t': real)
    requires QueueShape(procs, queue, index, t) && |queue| > 0 && t <= t'
    requires SameStatic(q, procs[queue[0]]) && Done(q)
    ensures QueueShape(procs[queue[0] := q], queue[1..], index, t')
  {
    var c, rest, procs' := queue[0], queue[1..], procs[queue[0] := q];
    forall k | 0 <= k < |rest| ensures rest[k] != c && procs'[rest[k]] == procs[rest[k]] {
      assert rest[k] == queue[k + 1];
    }
    forall i | 0 <= i < index ensures i in rest || Done(procs'[i]) {
      if i != c && i in queue {
        var k :| 0 <= k < |queue| && queue[k] == i;
        assert rest[k - 1] == i;
      }
    }
  }

  /** The head of the queue, which still has work and has started, goes to the
      end of the queue. */
  lemma {:induction false} QueueRotate(procs: seq<Process>, queue: seq<nat>, index: nat, t: real, q: Process, t': real)
    requires QueueShape(procs, queue, index, t) && |queue| > 0 && t <= t'
    requires SameStatic(q, procs[queue[0]]) && !Done(q) && q.startTime.Some?
    ensures QueueShape(procs[queue[0] := q], queue[1..] + [queue[0]], index, t')
  {
    var c, rest, procs' := queue[0], queue[1..], procs[queue[0] := q];
    var q' := rest + [c];
    assert q'[|rest|] == c;
    forall k | 0 <= k < |rest|
      ensures q'[k] == rest[k] == queue[k + 1] && rest[k] != c && procs'[rest[k]] == procs[rest[k]]
    {
      assert queue[0] != queue[k + 1];
    }
    forall i | 0 <= i < index ensures i in q' || Done(procs'[i]) {
      if i != c && i in queue {
        var k :| 0 <= k < |queue| && queue[k] == i;
        assert q'[k - 1] == i;
      }
    }
    forall a, b | 0 <= a < b < |q'| && procs'[q'[b]].startTime.None?
      ensures q'[a] < q'[b]
    {
      assert q'[a] == queue[a + 1] && q'[b] == queue[b + 1];
    }
  }

  /** A process that was not yet started runs now: every earlier process of the
      list has already started, and no later one has. */
  lemma {:induction false} StartOrderStep(procs: seq<Process>, slots: seq<TimeSlot>, t: real, quantum: nat,
                       queue: seq<nat>, index: nat, q: Process)
    requires quantum > 0 && WellFormed(procs) && StartsInListOrder(procs) && AllProgress(procs, slots, t, quantum)
    requires QueueShape(procs, queue, index, t) && |queue| > 0
    requires q.startTime == (if procs[queue[0]].startTime.None? then Some(t) else procs[queue[0]].startTime)
    ensures StartsInListOrder(procs[queue[0] := q])
  {
    var c := queue[0];
    if procs[c].startTime.None? {
      forall i | 0 <= i < c ensures procs[i].startTime.Some? && procs[i].startTime.value < t {
        assert QuantumProgress(procs[i], slots, t, quantum);
        if i in queue {
          var b :| 0 <= b < |queue| && queue[b] == i;
          assert b != 0;
        }
      }
    }
  }

  /** The processes the loop admits after a slice are those of the unadmitted
      part of the list that have arrived: a prefix of it, in list order. */
  lemma {:induction false} NewArrivals(ps: seq<Process>, procs: seq<Process>, completed: seq<nat>, queue: seq<nat>, index: nat,
                    t: real, tEnd: real, arrived: seq<nat>)
    requires SortedByArrival(ps) && SameProcesses(procs, ps) && Status(ps, procs, completed)
    requires QueueShape(procs, queue, index, t) && |queue| > 0
    requires arrived == ArrivedUnqueued(ps, index, tEnd, queue[1..], completed)
    ensures && index + |arrived| <= |procs|
            && (forall k :: 0 <= k < |arrived| ==> arrived[k] == index + k && procs[arrived[k]].arrivalTime as real <= tEnd)
            && arrived == Range(index, index + |arrived|)
            && forall i :: index <= i < |ps| ==> (i < index + |arrived| <==> ps[i].arrivalTime as real <= tEnd)
  {
    forall i | index <= i < |ps| ensures i !in queue[1..] && i !in completed {
      assert IsFresh(procs[i]);
    }
    ArrivedUnqueuedIsArrived(ps, index, tEnd, queue[1..], completed);
    ArrivedCut(ps, index, tEnd);
  }

  /** A head that still has work: the processes that arrived during its slice
      join the queue, then the head goes to its end. */
  lemma {:induction false} Requeue(procs: seq<Process>, queue: seq<nat>, index: nat, t: real, q: Process, tEnd: real, t': real,
                arrived: seq<nat>)
    requires QueueShape(procs, queue, index, t) && |queue| > 0 && t <= tEnd <= t'
    requires SameStatic(q, procs[queue[0]]) && q.startTime.Some? && !Done(q)
    requires index + |arrived| <= |procs|
    requires forall k :: 0 <= k < |arrived| ==> arrived[k] == index + k && procs[arrived[k]].arrivalTime as real <= tEnd
    ensures QueueShape(procs[queue[0] := q], queue[1..] + arrived + [queue[0]], index + |arrived|, t')
  {
    QueueAdmit(procs, queue, index, t, arrived, tEnd);
    assert (queue + arrived)[1..] == queue[1..] + arrived;
    QueueRotate(procs, queue + arrived, index + |arrived|, tEnd, q, t');
  }

  /** n full quanta of service. */
  function FullQuanta(n: nat, quantum: nat): real
  {
    if n == 0 then 0.0 else FullQuanta(n - 1, quantum) + quantum as real
  }

  /** n full quanta are n times the quantum. */
  lemma {:induction false} FullQuantaIsProduct(n: nat, quantum: nat)
    ensures FullQuanta(n, quantum) == (quantum * n) as real
  {
    if n > 0 {
      FullQuantaIsProduct(n - 1, quantum);
      assert quantum * n == quantum * (n - 1) + quantum;
    }
  }

  /** Slots of at most a quantum each that add up to a full quantum per slot
      are all full quanta. */
  lemma {:induction false} FullSlots(slots: seq<TimeSlot>, id: string, quantum: nat)
    requires forall k :: 0 <= k < |slots| && slots[k].processId == id ==> slots[k].Duration() <= quantum as real
    requires ServiceTime(slots, id) == FullQuanta(SlotCount(slots, id), quantum)
    ensures forall k :: 0 <= k < |slots| && slots[k].processId == id ==> slots[k].Duration() == quantum as real
    decreases |slots|
  {
    if |slots| > 0 {
      var init, y := slots[..|slots| - 1], slots[|slots| - 1];
      assert forall k :: 0 <= k < |init| ==> init[k] == slots[k];
      ServiceAtMost(init, id, quantum);
      if y.processId == id {
        Squeeze(ServiceTime(init, id), FullQuanta(SlotCount(init, id), quantum), y.Duration(), quantum as real);
      }
      FullSlots(init, id, quantum);
    }
  }

  /** Two parts each at most their bound that add up to the sum of the bounds
      meet them. */
  lemma {:induction false} Squeeze(a: real, boundA: real, d: real, boundD: real)
    requires a <= boundA && d <= boundD && a + d == boundA + boundD
    ensures a == boundA && d == boundD
  {
  }

  /** Slots of at most a quantum each give at most a quantum per slot. */
  lemma {:induction false} ServiceAtMost(slots: seq<TimeSlot>, id: string, quantum: nat)
    requires forall k :: 0 <= k < |slots| && slots[k].processId == id ==> slots[k].Duration() <= quantum as real
    ensures ServiceTime(slots, id) <= FullQuanta(SlotCount(slots, id), quantum)
    decreases |slots|
  {
    if |slots| > 0 {
      var init := slots[..|slots| - 1];
      assert forall k :: 0 <= k < |init| ==> init[k] == slots[k];
      ServiceAtMost(init, id, quantum);
    }
  }

  /** A process that still has work has received only full quanta. */
  lemma {:induction false} UnfinishedFull(p: Process, slots: seq<TimeSlot>, t: real, quantum: nat)
    requires quantum > 0 && QuantumProgress(p, slots, t, quantum) && p.remainingTime > 0
    requires WithinQuantum(slots, quantum) && p.processId != IDLE
    ensures forall k :: 0 <= k < |slots| && slots[k].processId == p.processId ==> slots[k].Duration() == quantum as real
  {
    FullQuantaIsProduct(SlotCount(slots, p.processId), quantum);
    FullSlots(slots, p.processId, quantum);
  }

  /** A slot appended after only full quanta of its process keeps every slot but
      each process's last a full quantum. */
  lemma {:induction false} FullAppend(slots: seq<TimeSlot>, quantum: nat, x: TimeSlot)
    requires FullUntilLast(slots, quantum)
    requires !x.IsIdle() ==>
      forall k :: 0 <= k < |slots| && slots[k].processId == x.processId ==> slots[k].Duration() == quantum as real
    ensures FullUntilLast(slots + [x], quantum)
  {
    var s' := slots + [x];
    forall a, b | 0 <= a < b < |s'| && !s'[a].IsIdle() && s'[b].processId == s'[a].processId
      ensures s'[a].Duration() == quantum as real
    {
      assert s'[a] == slots[a];
      if b < |slots| {
        assert s'[b] == slots[b];
      }
    }
  }

  /** The clock after a slice and the switch that follows it. */
  lemma {:induction false} ServeClock(slots: seq<TimeSlot>, t: real, switches: nat, cst: real, quantum: nat, x: TimeSlot,
                   slots': seq<TimeSlot>, t': real, switches': nat)
    requires Clock(slots, t, switches, cst) && SwitchCharged(slots, t, cst, true) && 0.0 <= cst
    requires switches == ExecCount(slots) && WithinQuantum(slots, quantum)
    requires !x.IsIdle() && x.startTime == t < x.endTime <= t + quantum as real
    requires slots' == slots + [x] && t' == x.endTime + cst && switches' == switches + 1
    ensures Clock(slots', t', switches', cst) && SwitchCharged(slots', t', cst, true)
    ensures switches' == ExecCount(slots') && WithinQuantum(slots', quantum)
    ensures !slots'[|slots'| - 1].IsIdle()
  {
    ChargedRun(slots, t, switches, cst, x, true, slots', t', switches');
    Append(slots, x);
    AppendTotals(slots, x);
  }

  /** One pass of the loop with a non-empty queue: the head c runs for
      min(quantum, remaining) from the clock, starting if it had not, and
      completing when no work is left; a switch delay follows.  A completed head
      leaves the queue; otherwise the processes that arrived by the end of its
      slice join the queue and then c goes to its end. */
  predicate SliceStep(ps: seq<Process>, quantum: nat, cst: real, procs: seq<Process>, slots: seq<TimeSlot>,
                      t: real, switches: nat, completed: seq<nat>, queue: seq<nat>, index: nat, q: Process, run: nat,
                      procs': seq<Process>, slots': seq<TimeSlot>, t': real, switches': nat, completed': seq<nat>,
                      queue': seq<nat>, index': nat)
  {
    && |queue| > 0 && queue[0] < |procs| && index <= |ps|
    && var p := procs[queue[0]];
    && run == SliceLength(quantum, p.remainingTime)
    && SameStatic(q, p) && q.remainingTime + run == p.remainingTime
    && q.startTime == (if p.startTime.None? then Some(t) else p.startTime)
    && q.completionTime == (if q.remainingTime == 0 then Some(t + run as real) else p.completionTime)
    && q.turnaroundTime == p.turnaroundTime && q.waitingTime == p.waitingTime && q.responseTime == p.responseTime
    && procs' == procs[queue[0] := q] && slots' == slots + [TimeSlot(q.processId, t, t + run as real)]
    && t' == t + run as real + cst && switches' == switches + 1
    && (q.remainingTime == 0 ==> completed' == completed + [queue[0]] && queue' == queue[1..] && index' == index)
    && (q.remainingTime > 0 ==>
          && completed' == completed
          && queue' == queue[1..] + ArrivedUnqueued(ps, index, t + run as real, queue[1..], completed) + [queue[0]]
          && index' == index + |ArrivedUnqueued(ps, index, t + run as real, queue[1..], completed)|)
  }

  /** The variables of a Round Robin run between two passes of its loop. */
  datatype LoopState = LoopState(procs: seq<Process>, slots: seq<TimeSlot>, t: real, switches: nat,
                                 completed: seq<nat>, queue: seq<nat>, index: nat)

  /** Every entry of s is below n. */
  predicate Below(s: seq<nat>, n: nat)
  {
    |s| == 0 || (s[0] < n && Below(s[1..], n))
  }

  lemma {:induction false} BelowIff(s: seq<nat>, n: nat)
    ensures Below(s, n) <==> forall k :: 0 <= k < |s| ==> s[k] < n
  {
    if |s| > 0 {
      BelowIff(s[1..], n);
      assert forall k :: 1 <= k < |s| ==> s[1..][k - 1] == s[k];
    }
  }

  lemma {:induction false} BelowAppend(a: seq<nat>, b: seq<nat>, n: nat)
    requires Below(a, n) && Below(b, n)
    ensures Below(a + b, n)
  {
    if |a| > 0 {
      assert (a + b)[1..] == a[1..] + b;
      BelowAppend(a[1..], b, n);
    } else {
      assert a + b == b;
    }
  }

  lemma {:induction false} ArrivedBelow(ps: seq<Process>, from: nat, t: real, queue: seq<nat>, completed: seq<nat>)
    requires from <= |ps|
    ensures Below(ArrivedUnqueued(ps, from, t, queue, completed), |ps|)
    decreases |ps| - from
  {
    if from < |ps| {
      ArrivedBelow(ps, from + 1, t, queue, completed);
      var r := ArrivedUnqueued(ps, from + 1, t, queue, completed);
      assert ([from] + r)[1..] == r;
    }
  }

  /** The list positions a loop state refers to exist. */
  predicate InRange(ps: seq<Process>, l: LoopState)
  {
    |l.procs| == |ps| && l.index <= |ps| && Below(l.queue, |ps|)
  }

  /** The head c of the queue runs for min(quantum, remaining) from the clock,
      starting if it had not and completing when no work is left; a completed
      head leaves the queue, any other one goes to its end behind the processes
      that arrived by the end of its slice; a switch delay follows either way. */
  function ServeHead(ps: seq<Process>, quantum: nat, cst: real, l: LoopState): (l': LoopState)
    requires InRange(ps, l) && |l.queue| > 0
    ensures InRange(ps, l') && |l'.slots| == |l.slots| + 1 && l'.switches == l.switches + 1
    ensures l.queue[0] < |ps|
  {
    var c := l.queue[0];
    var p := l.procs[c];
    var run := SliceLength(quantum, p.remainingTime);
    var tEnd := l.t + run as real;
    var started := p.(startTime := if p.startTime.None? then Some(l.t) else p.startTime,
                      remainingTime := p.remainingTime - run);
    var q := if started.remainingTime == 0 then started.(completionTime := Some(tEnd)) else started;
    var rest := l.queue[1..];
    var arrived := ArrivedUnqueued(ps, l.index, tEnd, rest, l.completed);
    ArrivedBelow(ps, l.index, tEnd, rest, l.completed);
    BelowAppend(rest, arrived, |ps|);
    assert Below([c], |ps|);
    BelowAppend(rest + arrived, [c], |ps|);
    LoopState(l.procs[c := q], l.slots + [TimeSlot(q.processId, l.t, tEnd)], tEnd + cst, l.switches + 1,
              if q.remainingTime == 0 then l.completed + [c] else l.completed,
              if q.remainingTime == 0 then rest else rest + arrived + [c],
              if q.remainingTime == 0 then l.index else l.index + |arrived|)
  }

  /** The top of a pass: the arrived processes of the unadmitted part of the
      list join the queue in list order. */
  function Admitted(ps: seq<Process>, l: LoopState): (l1: LoopState)
    requires InRange(ps, l)
    ensures InRange(ps, l1) && l1.index >= l.index
    ensures l1.procs == l.procs && l1.slots == l.slots && l1.t == l.t
            && l1.switches == l.switches && l1.completed == l.completed
    ensures |l1.queue| == |l.queue| + (l1.index - l.index) && l1.queue[..|l.queue|] == l.queue
    ensures forall i :: i in l1.queue[|l.queue|..] <==>
              l.index <= i < |ps| && ps[i].arrivalTime as real <= l.t && i !in l.queue && i !in l.completed
  {
    var arrived := ArrivedUnqueued(ps, l.index, l.t, l.queue, l.completed);
    ArrivedBelow(ps, l.index, l.t, l.queue, l.completed);
    BelowAppend(l.queue, arrived, |ps|);
    l.(queue := l.queue + arrived, index := l.index + |arrived|)
  }

  /** On a list sorted by arrival, admission takes exactly the unadmitted
      processes that have arrived by the clock: a contiguous run of the list
      from the index, appended in list order. */
  lemma {:induction false} AdmittedRange(ps: seq<Process>, l: LoopState)
    requires InRange(ps, l) && SortedByArrival(ps)
    requires Status(ps, l.procs, l.completed) && QueueShape(l.procs, l.queue, l.index, l.t)
    ensures var l1 := Admitted(ps, l);
            && l1.queue == l.queue + Range(l.index, l1.index)
            && (forall i :: l.index <= i < |ps| ==> (i < l1.index <==> ps[i].arrivalTime as real <= l.t))
            && QueueShape(l1.procs, l1.queue, l1.index, l1.t)
  {
    var l1 := Admitted(ps, l);
    AdmitQueue(ps, l.procs, l.completed, l.queue, l.index, l.t, l1.queue, l1.index);
  }

  /** One pass of the loop from l, then the passes that fuel still allows. */
  function Pass(ps: seq<Process>, quantum: nat, cst: real, l: LoopState, fuel: nat): (l': LoopState)
    requires InRange(ps, l)
    ensures InRange(ps, l')
    decreases fuel, 2
  {
    Dispatch(ps, quantum, cst, l.slots, l.t, Admitted(ps, l), fuel)
  }

  /** The rest of a pass once the arrivals are admitted into a: the head is
      served, or, with the queue empty, the CPU idles from the clock t until
      the next arrival.  With nothing left to arrive either, the loop breaks. */
  function Dispatch(ps: seq<Process>, quantum: nat, cst: real, slots: seq<TimeSlot>, t: real, a: LoopState,
                    fuel: nat): (l': LoopState)
    requires InRange(ps, a)
    ensures InRange(ps, l')
    decreases fuel, 1
  {
    if |a.queue| > 0 then Passes(ps, quantum, cst, ServeHead(ps, quantum, cst, a), fuel)
    else match NextArrival(ps, a.index, t)
      case None => a
      case Some(k) =>
        var t' := ps[k].arrivalTime as real;
        Passes(ps, quantum, cst, a.(slots := slots + [TimeSlot(IDLE, t, t')], t := t'), fuel)
  }

  /** Passes of the loop until every process has completed, the loop breaks, or
      the fuel runs out. */
  function Passes(ps: seq<Process>, quantum: nat, cst: real, l: LoopState, fuel: nat): (l': LoopState)
    requires InRange(ps, l)
    ensures InRange(ps, l')
    decreases fuel, 0
  {
    if fuel == 0 || |l.completed| >= |ps| then l else Pass(ps, quantum, cst, l, fuel - 1)
  }

  /** The Round Robin schedule of a non-empty list, pass by pass from every
      process reset and the clock at 0.  Each pass removes work or brings an
      arrival into the past, so the fuel given is enough to reach the end. */
  function RoundRobinSchedule(ps: seq<Process>, quantum: nat, cst: real): (r: SchedulingResult)
    requires |ps| > 0
    ensures r.algorithmName == "Round Robin" && |r.processes| == |ps|
  {
    var init := LoopState(seq(|ps|, i requires 0 <= i < |ps| => Reset(ps[i])), [], 0.0, 0, [], [], 0);
    var l := Passes(ps, quantum, cst, init, Outstanding(init.procs) + Future(ps, 0.0));
    SchedulingResult("Round Robin", l.slots, l.procs, l.switches, l.t)
  }

  /** Once every process has completed, no pass is left. */
  lemma {:induction false} PassesDone(ps: seq<Process>, quantum: nat, cst: real, l: LoopState, fuel: nat, final: LoopState)
    requires InRange(ps, l) && |l.completed| >= |ps| && Passes(ps, quantum, cst, l, fuel) == final
    ensures l == final
  {
  }

  /** The reference starts from the processes reset, nothing run and the clock at 0. */
  lemma {:induction false} ScheduleFrom(ps: seq<Process>, quantum: nat, cst: real, procs: seq<Process>, final: LoopState)
    requires |ps| > 0 && |procs| == |ps| && forall i :: 0 <= i < |ps| ==> procs[i] == Reset(ps[i])
    requires Passes(ps, quantum, cst, LoopState(procs, [], 0.0, 0, [], [], 0), Outstanding(procs) + Future(ps, 0.0)) == final
    ensures RoundRobinSchedule(ps, quantum, cst) == SchedulingResult("Round Robin", final.slots, final.procs, final.switches, final.t)
  {
    assert procs == seq(|ps|, i requires 0 <= i < |ps| => Reset(ps[i]));
  }

  /** A state of the loop refers only to positions of the list. */
  lemma {:induction false} StateInRange(ps: seq<Process>, quantum: nat, cst: real, procs: seq<Process>, slots: seq<TimeSlot>,
                       t: real, switches: nat, completed: seq<nat>, queue: seq<nat>, index: nat)
    requires RRState(ps, quantum, cst, procs, slots, t, switches, completed, queue, index)
    ensures InRange(ps, LoopState(procs, slots, t, switches, completed, queue, index))
  {
    BelowIff(queue, |ps|);
  }

  /** A pass from l whose admitted queue is not empty serves its head. */
  lemma {:induction false} PassServes(ps: seq<Process>, quantum: nat, cst: real, l: LoopState, fuel: nat)
    requires InRange(ps, l) && |l.completed| < |ps| && |Admitted(ps, l).queue| > 0
    ensures Passes(ps, quantum, cst, l, fuel + 1)
            == Passes(ps, quantum, cst, ServeHead(ps, quantum, cst, Admitted(ps, l)), fuel)
  {
    assert Passes(ps, quantum, cst, l, fuel + 1) == Pass(ps, quantum, cst, l, fuel);
    assert Pass(ps, quantum, cst, l, fuel) == Dispatch(ps, quantum, cst, l.slots, l.t, Admitted(ps, l), fuel);
  }

  /** A pass from l whose admitted queue is empty idles up to the next arrival k. */
  lemma {:induction false} PassIdles(ps: seq<Process>, quantum: nat, cst: real, l: LoopState, k: nat, fuel: nat)
    requires InRange(ps, l) && |l.completed| < |ps| && |Admitted(ps, l).queue| == 0
    requires NextArrival(ps, Admitted(ps, l).index, l.t) == Some(k)
    ensures k < |ps|
    ensures var t' := ps[k].arrivalTime as real;
            Passes(ps, quantum, cst, l, fuel + 1)
            == Passes(ps, quantum, cst, Admitted(ps, l).(slots := l.slots + [TimeSlot(IDLE, l.t, t')], t := t'), fuel)
  {
    assert Passes(ps, quantum, cst, l, fuel + 1) == Pass(ps, quantum, cst, l, fuel);
    assert Pass(ps, quantum, cst, l, fuel) == Dispatch(ps, quantum, cst, l.slots, l.t, Admitted(ps, l), fuel);
  }

  /** A served pass of the loop, admission and then the step SliceStep fixes,
      is the next pass of the reference: the passes left from the new state
      end where those from the old one did. */
  lemma {:induction false} ServeFollows(ps: seq<Process>, quantum: nat, cst: real, procs: seq<Process>,
                       slots: seq<TimeSlot>, t: real, switches: nat, completed: seq<nat>, queue: seq<nat>, index: nat,
                       queue1: seq<nat>, index1: nat, q: Process, run: nat, procs': seq<Process>, slots': seq<TimeSlot>,
                       t': real, switches': nat, completed': seq<nat>, queue': seq<nat>, index': nat,
                       fuel: nat, fuel': nat, final: LoopState)
    requires InRange(ps, LoopState(procs, slots, t, switches, completed, queue, index)) && |completed| < |ps|
    requires queue1 == queue + ArrivedUnqueued(ps, index, t, queue, completed)
    requires index1 == index + |ArrivedUnqueued(ps, index, t, queue, completed)|
    requires SliceStep(ps, quantum, cst, procs, slots, t, switches, completed, queue1, index1, q, run,
                       procs', slots', t', switches', completed', queue', index')
    requires fuel == fuel' + 1
    requires Passes(ps, quantum, cst, LoopState(procs, slots, t, switches, completed, queue, index), fuel) == final
    ensures InRange(ps, LoopState(procs', slots', t', switches', completed', queue', index'))
    ensures Passes(ps, quantum, cst, LoopState(procs', slots', t', switches', completed', queue', index'), fuel') == final
  {
    var l := LoopState(procs, slots, t, switches, completed, queue, index);
    var l1 := LoopState(procs, slots, t, switches, completed, queue1, index1);
    assert Admitted(ps, l) == l1;
    PassServes(ps, quantum, cst, l, fuel');
    SliceStepServes(ps, quantum, cst, procs, slots, t, switches, completed, queue1, index1, q, run,
                    procs', slots', t', switches', completed', queue', index');
  }

  /** An idle pass of the loop, admission and then the CPU idle up to the next
      arrival, is the next pass of the reference. */
  lemma {:induction false} IdleFollows(ps: seq<Process>, quantum: nat, cst: real, procs: seq<Process>,
                      slots: seq<TimeSlot>, t: real, switches: nat, completed: seq<nat>, queue: seq<nat>, index: nat,
                      queue1: seq<nat>, index1: nat, next: nat, slots': seq<TimeSlot>, t': real,
                      fuel: nat, fuel': nat, final: LoopState)
    requires InRange(ps, LoopState(procs, slots, t, switches, completed, queue, index)) && |completed| < |ps|
    requires queue1 == queue + ArrivedUnqueued(ps, index, t, queue, completed)
    requires index1 == index + |ArrivedUnqueued(ps, index, t, queue, completed)|
    requires |queue1| == 0 && NextArrival(ps, index1, t) == Some(next)
    requires t' == ps[next].arrivalTime as real && slots' == slots + [TimeSlot(IDLE, t, t')]
    requires fuel == fuel' + 1
    requires Passes(ps, quantum, cst, LoopState(procs, slots, t, switches, completed, queue, index), fuel) == final
    ensures InRange(ps, LoopState(procs, slots', t', switches, completed, queue1, index1))
    ensures Passes(ps, quantum, cst, LoopState(procs, slots', t', switches, completed, queue1, index1), fuel') == final
  {
    var l := LoopState(procs, slots, t, switches, completed, queue, index);
    var l1 := LoopState(procs, slots, t, switches, completed, queue1, index1);
    assert Admitted(ps, l) == l1;
    PassIdles(ps, quantum, cst, l, next, fuel');
    assert l1.(slots := slots', t := t') == LoopState(procs, slots', t', switches, completed, queue1, index1);
  }

  /** The step SliceStep fixes is the head served as the reference serves it. */
  lemma {:induction false} SliceStepServes(ps: seq<Process>, quantum: nat, cst: real, procs: seq<Process>,
                          slots: seq<TimeSlot>, t: real, switches: nat, completed: seq<nat>, queue: seq<nat>, index: nat,
                          q: Process, run: nat, procs': seq<Process>, slots': seq<TimeSlot>, t': real, switches': nat,
                          completed': seq<nat>, queue': seq<nat>, index': nat)
    requires InRange(ps, LoopState(procs, slots, t, switches, completed, queue, index))
    requires SliceStep(ps, quantum, cst, procs, slots, t, switches, completed, queue, index, q, run,
                       procs', slots', t', switches', completed', queue', index')
    ensures ServeHead(ps, quantum, cst, LoopState(procs, slots, t, switches, completed, queue, index))
            == LoopState(procs', slots', t', switches', completed', queue', index')
  {
    var l := LoopState(procs, slots, t, switches, completed, queue, index);
    var l' := ServeHead(ps, quantum, cst, l);
    ServeHeadSteps(ps, quantum, cst, l);
    SliceStepUnique(ps, quantum, cst, procs, slots, t, switches, completed, queue, index, q, run,
                    procs', slots', t', switches', completed', queue', index',
                    l'.procs[queue[0]], l'.procs, l'.slots, l'.t, l'.switches, l'.completed, l'.queue, l'.index);
  }

  /** Serving the head of the queue is a step of the loop as SliceStep fixes it. */
  lemma {:induction false} ServeHeadSteps(ps: seq<Process>, quantum: nat, cst: real, l: LoopState)
    requires InRange(ps, l) && |l.queue| > 0
    ensures var l' := ServeHead(ps, quantum, cst, l);
            SliceStep(ps, quantum, cst, l.procs, l.slots, l.t, l.switches, l.completed, l.queue, l.index,
                      l'.procs[l.queue[0]], SliceLength(quantum, l.procs[l.queue[0]].remainingTime),
                      l'.procs, l'.slots, l'.t, l'.switches, l'.completed, l'.queue, l'.index)
  {
  }

  /** SliceStep leaves one new state only. */
  lemma {:induction false} SliceStepUnique(ps: seq<Process>, quantum: nat, cst: real, procs: seq<Process>,
                        slots: seq<TimeSlot>, t: real, switches: nat, completed: seq<nat>, queue: seq<nat>, index: nat,
                        q: Process, run: nat, procs': seq<Process>, slots': seq<TimeSlot>, t': real, switches': nat,
                        completed': seq<nat>, queue': seq<nat>, index': nat,
                        q2: Process, procs2: seq<Process>, slots2: seq<TimeSlot>, t2: real, switches2: nat,
                        completed2: seq<nat>, queue2: seq<nat>, index2: nat)
    requires SliceStep(ps, quantum, cst, procs, slots, t, switches, completed, queue, index, q, run,
                       procs', slots', t', switches', completed', queue', index')
    requires SliceStep(ps, quantum, cst, procs, slots, t, switches, completed, queue, index, q2, run,
                       procs2, slots2, t2, switches2, completed2, queue2, index2)
    ensures q == q2
    ensures LoopState(procs', slots', t', switches', completed', queue', index')
            == LoopState(procs2, slots2, t2, switches2, completed2, queue2, index2)
  {
  }

  /** The run step on the timeline: clock, slot counts and slice lengths carry over. */
  lemma {:induction false} ServeTimeline(ps: seq<Process>, quantum: nat, cst: real, procs: seq<Process>, slots: seq<TimeSlot>,
                      t: real, switches: nat, completed: seq<nat>, queue: seq<nat>, index: nat, q: Process, run: nat,
                      procs': seq<Process>, slots': seq<TimeSlot>, t': real, switches': nat, completed': seq<nat>,
                      queue': seq<nat>, index': nat)
    requires RRState(ps, quantum, cst, procs, slots, t, switches, completed, queue, index)
    requires SliceStep(ps, quantum, cst, procs, slots, t, switches, completed, queue, index, q, run,
                       procs', slots', t', switches', completed', queue', index')
    ensures Clock(slots', t', switches', cst) && SwitchCharged(slots', t', cst, true)
    ensures switches' == ExecCount(slots') && WithinQuantum(slots', quantum) && !slots'[|slots'| - 1].IsIdle()
    ensures FullUntilLast(slots', quantum)
  {
    var c := queue[0];
    var x := TimeSlot(q.processId, t, t + run as real);
    SameWellFormed(procs, ps);
    assert QuantumProgress(procs[c], slots, t, quantum);
    assert ps[c].processId != IDLE;
    ServeClock(slots, t, switches, cst, quantum, x, slots', t', switches');
    UnfinishedFull(procs[c], slots, t, quantum);
    FullAppend(slots, quantum, x);
  }

  /** The run step on the work: every process keeps its progress, and the
      work done grows by the slice. */
  lemma {:induction false} ServeWork(ps: seq<Process>, quantum: nat, cst: real, procs: seq<Process>, slots: seq<TimeSlot>,
                      t: real, switches: nat, completed: seq<nat>, queue: seq<nat>, index: nat, q: Process, run: nat,
                      procs': seq<Process>, slots': seq<TimeSlot>, t': real, switches': nat, completed': seq<nat>,
                      queue': seq<nat>, index': nat)
    requires RRState(ps, quantum, cst, procs, slots, t, switches, completed, queue, index)
    requires SliceStep(ps, quantum, cst, procs, slots, t, switches, completed, queue, index, q, run,
                       procs', slots', t', switches', completed', queue', index')
    ensures AllProgress(procs', slots', t', quantum)
    ensures BusyTime(slots') == Served(procs') && Outstanding(procs') < Outstanding(procs)
  {
    var c := queue[0];
    var x := TimeSlot(q.processId, t, t + run as real);
    SameWellFormed(procs, ps);
    assert QuantumProgress(procs[c], slots, t, quantum);
    SliceProgress(procs, slots, t, quantum, c, q, run, procs', slots', t');
    Append(slots, x);
    AppendTotals(slots, x);
    UpdateOne(procs, c, q);
  }

  /** The run step on the completions: the idle slots stay justified and the
      completed list still names the finished processes. */
  lemma {:induction false} ServeStatus(ps: seq<Process>, quantum: nat, cst: real, procs: seq<Process>, slots: seq<TimeSlot>,
                      t: real, switches: nat, completed: seq<nat>, queue: seq<nat>, index: nat, q: Process, run: nat,
                      procs': seq<Process>, slots': seq<TimeSlot>, t': real, switches': nat, completed': seq<nat>,
                      queue': seq<nat>, index': nat)
    requires RRState(ps, quantum, cst, procs, slots, t, switches, completed, queue, index)
    requires SliceStep(ps, quantum, cst, procs, slots, t, switches, completed, queue, index, q, run,
                       procs', slots', t', switches', completed', queue', index')
    ensures IdleOnlyWhenNothingReady(slots', procs') && Status(ps, procs', completed')
  {
    var c := queue[0];
    var x := TimeSlot(q.processId, t, t + run as real);
    SameWellFormed(procs, ps);
    assert QuantumProgress(procs[c], slots, t, quantum);
    IdleAfterUpdate(slots, procs, c, q);
    IdleAfterRun(slots, procs', x);
    if q.remainingTime == 0 {
      StatusComplete(ps, procs, completed, c, q);
    } else {
      StatusUpdate(ps, procs, completed, c, q);
    }
  }

  /** The run step on the queue and the start order. */
  lemma {:induction false} ServeQueue(ps: seq<Process>, quantum: nat, cst: real, procs: seq<Process>, slots: seq<TimeSlot>,
                   t: real, switches: nat, completed: seq<nat>, queue: seq<nat>, index: nat, q: Process, run: nat,
                   procs': seq<Process>, slots': seq<TimeSlot>, t': real, switches': nat, completed': seq<nat>,
                   queue': seq<nat>, index': nat)
    requires WellFormed(ps) && SortedByArrival(ps) && quantum > 0 && 0.0 <= cst
    requires Status(ps, procs, completed) && AllProgress(procs, slots, t, quantum)
    requires StartsInListOrder(procs) && QueueShape(procs, queue, index, t)
    requires SliceStep(ps, quantum, cst, procs, slots, t, switches, completed, queue, index, q, run,
                       procs', slots', t', switches', completed', queue', index')
    ensures QueueShape(procs', queue', index', t')
    ensures StartsInListOrder(procs')
  {
    var c := queue[0];
    SameWellFormed(procs, ps);
    assert QuantumProgress(procs[c], slots, t, quantum);
    if q.remainingTime == 0 {
      QueueDrop(procs, queue, index, t, q, t');
    } else {
      var arrived := ArrivedUnqueued(ps, index, t + run as real, queue[1..], completed);
      assert queue' == queue[1..] + arrived + [c] && index' == index + |arrived|;
      assert QueueShape(procs', queue', index', t') by {
        NewArrivals(ps, procs, completed, queue, index, t, t + run as real, arrived);
        Requeue(procs, queue, index, t, q, t + run as real, t', arrived);
      }
    }
    StartOrderStep(procs, slots, t, quantum, queue, index, q);
  }

  /** The requeue order: a head that still has work goes to the end of the
      queue right behind the processes of the list that arrived by the end of
      its slice, which are the next ones in list order. */
  lemma {:induction false} RequeueOrder(ps: seq<Process>, quantum: nat, cst: real, procs: seq<Process>, slots: seq<TimeSlot>,
                     t: real, switches: nat, completed: seq<nat>, queue: seq<nat>, index: nat, q: Process, run: nat,
                     procs': seq<Process>, slots': seq<TimeSlot>, t': real, switches': nat, completed': seq<nat>,
                     queue': seq<nat>, index': nat)
    requires RRState(ps, quantum, cst, procs, slots, t, switches, completed, queue, index)
    requires SliceStep(ps, quantum, cst, procs, slots, t, switches, completed, queue, index, q, run,
                       procs', slots', t', switches', completed', queue', index')
    requires q.remainingTime > 0
    ensures index <= index' <= |ps| && queue' == queue[1..] + Range(index, index') + [queue[0]]
    ensures forall i :: index <= i < |ps| ==> (i < index' <==> ps[i].arrivalTime as real <= t + run as real)
  {
    var arrived := ArrivedUnqueued(ps, index, t + run as real, queue[1..], completed);
    NewArrivals(ps, procs, completed, queue, index, t, t + run as real, arrived);
  }

  /** The run step preserves the loop state and consumes work. */
  lemma {:induction false} Serve(ps: seq<Process>, quantum: nat, cst: real, procs: seq<Process>, slots: seq<TimeSlot>,
              t: real, switches: nat, completed: seq<nat>, queue: seq<nat>, index: nat, q: Process, run: nat,
              procs': seq<Process>, slots': seq<TimeSlot>, t': real, switches': nat, completed': seq<nat>,
              queue': seq<nat>, index': nat)
    requires RRState(ps, quantum, cst, procs, slots, t, switches, completed, queue, index)
    requires SliceStep(ps, quantum, cst, procs, slots, t, switches, completed, queue, index, q, run,
                       procs', slots', t', switches', completed', queue', index')
    ensures RRState(ps, quantum, cst, procs', slots', t', switches', completed', queue', index')
    ensures Outstanding(procs') < Outstanding(procs)
  {
    ServeTimeline(ps, quantum, cst, procs, slots, t, switches, completed, queue, index, q, run,
                  procs', slots', t', switches', completed', queue', index');
    ServeWork(ps, quantum, cst, procs, slots, t, switches, completed, queue, index, q, run,
              procs', slots', t', switches', completed', queue', index');
    ServeStatus(ps, quantum, cst, procs, slots, t, switches, completed, queue, index, q, run,
                procs', slots', t', switches', completed', queue', index');
    ServeQueue(ps, quantum, cst, procs, slots, t, switches, completed, queue, index, q, run,
               procs', slots', t', switches', completed', queue', index');
  }

  /** Once every process has completed, the state is the promised outcome. */
  lemma {:induction false} Conclude(ps: seq<Process>, quantum: nat, cst: real, procs: seq<Process>, slots: seq<TimeSlot>,
                 t: real, switches: nat, completed: seq<nat>, queue: seq<nat>, index: nat, name: string)
    requires RRState(ps, quantum, cst, procs, slots, t, switches, completed, queue, index) && |completed| == |ps|
    ensures RoundRobinRun(ps, quantum, SchedulingResult(name, slots, procs, switches, t), cst)
  {
    AllDone(procs);
    EachFinished(ps, quantum, cst, procs, slots, t, switches, completed, queue, index);
    assert |slots| > 0 by {
      assert FirstStart(slots, ps[0].processId).Some?;
    }
    ConcludeTiming(ps, quantum, cst, procs, slots, t, switches, completed, queue, index);
    ServedAll(procs);
    TotalBurstSame(procs, ps);
  }

  /** Once every process has completed, the last slot ran a process and one
      switch delay after its end the clock stops: the timeline is well timed. */
  lemma {:induction false} ConcludeTiming(ps: seq<Process>, quantum: nat, cst: real, procs: seq<Process>,
                        slots: seq<TimeSlot>, t: real, switches: nat, completed: seq<nat>, queue: seq<nat>, index: nat)
    requires RRState(ps, quantum, cst, procs, slots, t, switches, completed, queue, index)
    requires |completed| == |ps| && |slots| > 0
    ensures WellTimed(slots, t) && t == Span(slots) + switches as real * cst
    ensures !slots[|slots| - 1].IsIdle() && t == slots[|slots| - 1].endTime + cst
  {
  }

  /** With every process done, each one has finished in as many slices as its
      burst needs. */
  lemma {:induction false} EachFinished(ps: seq<Process>, quantum: nat, cst: real, procs: seq<Process>, slots: seq<TimeSlot>,
                      t: real, switches: nat, completed: seq<nat>, queue: seq<nat>, index: nat)
    requires RRState(ps, quantum, cst, procs, slots, t, switches, completed, queue, index)
    requires forall i :: 0 <= i < |procs| ==> Done(procs[i])
    ensures forall i :: 0 <= i < |ps| ==>
              Finished(procs[i], slots) && SlotCount(slots, ps[i].processId) == Quanta(ps[i].cpuBurstTime, quantum)
    ensures forall i :: 0 <= i < |ps| ==> procs[i].remainingTime == 0
  {
    forall i | 0 <= i < |ps|
      ensures Finished(procs[i], slots) && SlotCount(slots, ps[i].processId) == Quanta(ps[i].cpuBurstTime, quantum)
      ensures procs[i].remainingTime == 0
    {
      assert QuantumProgress(procs[i], slots, t, quantum);
    }
  }
}
