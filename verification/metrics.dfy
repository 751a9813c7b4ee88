/** The summary statistics of a run (Project/src/process.py,
    SchedulingResult.calculate_metrics): per-process turnaround and waiting
    times written back onto the records, their averages and maxima, CPU
    efficiency, and the throughput counts at four time limits. */
module Metrics {
  import opened Process
  import opened Timeline
  import opened Workload
  import opened RunSpec

  /** The statistics calculate_metrics returns. */
  datatype Summary = Summary(
    avgWaitingTime: real,
    maxWaitingTime: real,
    avgTurnaroundTime: real,
    maxTurnaroundTime: real,
    cpuEfficiency: real,
    contextSwitches: nat,
    throughput50: nat,
    throughput100: nat,
    throughput150: nat,
    throughput200: nat)

  /** The write-back for one process: a completed process gets its turnaround
      time (completion minus arrival) and its waiting time (turnaround minus
      burst); a process without a completion time is left alone. */
  function WithTimes(p: Process): (q: Process)
    ensures SameStatic(q, p) && q.remainingTime == p.remainingTime
    ensures q.startTime == p.startTime && q.completionTime == p.completionTime && q.responseTime == p.responseTime
    ensures p.completionTime.None? ==> q == p
    ensures p.completionTime.Some? ==>
      && q.turnaroundTime.Some? && q.waitingTime.Some?
      && q.arrivalTime as real + q.turnaroundTime.value == p.completionTime.value
      && q.waitingTime.value + q.cpuBurstTime as real == q.turnaroundTime.value
  {
    match p.completionTime
    case None => p
    case Some(c) =>
      var turnaround := c - p.arrivalTime as real;
      p.(turnaroundTime := Some(turnaround), waitingTime := Some(turnaround - p.cpuBurstTime as real))
  }

  /** The waiting times of the completed processes, in list order. */
  function WaitingTimes(ps: seq<Process>): (r: seq<real>)
    ensures |r| == CountDone(ps)
  {
    if |ps| == 0 then []
    else
      var p := ps[|ps| - 1];
      WaitingTimes(ps[..|ps| - 1])
      + (if p.completionTime.Some? then [p.completionTime.value - p.arrivalTime as real - p.cpuBurstTime as real] else [])
  }

  /** The turnaround times of the completed processes, in list order. */
  function TurnaroundTimes(ps: seq<Process>): (r: seq<real>)
    ensures |r| == CountDone(ps)
  {
    if |ps| == 0 then []
    else
      var p := ps[|ps| - 1];
      TurnaroundTimes(ps[..|ps| - 1])
      + (if p.completionTime.Some? then [p.completionTime.value - p.arrivalTime as real] else [])
  }

  function Sum(xs: seq<real>): real
  {
    if |xs| == 0 then 0.0 else Sum(xs[..|xs| - 1]) + xs[|xs| - 1]
  }

  /** Python's max over a non-empty list: an element no smaller than any other. */
  function MaxOf(xs: seq<real>): (r: real)
    requires |xs| > 0
    ensures r in xs && forall k :: 0 <= k < |xs| ==> xs[k] <= r
  {
    if |xs| == 1 then xs[0]
    else
      var m := MaxOf(xs[..|xs| - 1]);
      assert forall k :: 0 <= k < |xs| - 1 ==> xs[..|xs| - 1][k] == xs[k];
      if xs[|xs| - 1] > m then xs[|xs| - 1] else m
  }

  /** The mean of a non-empty list: |xs| copies of it add up to the sum. */
  function Average(xs: seq<real>): (a: real)
    requires |xs| > 0
    ensures a * (|xs| as real) == Sum(xs)
  {
    Sum(xs) / |xs| as real
  }

  /** busy / total * 100 when the run took time, 0 otherwise. */
  function Efficiency(busy: real, total: real): (e: real)
    ensures total > 0.0 ==> e * total == busy * 100.0
    ensures total <= 0.0 ==> e == 0.0
  {
    if total > 0.0 then busy / total * 100.0 else 0.0
  }

  /** The processes counted at a time limit: `p.completion_time and
      p.completion_time <= limit`, where a completion time of 0 is falsy and
      so not counted. */
  function Throughput(ps: seq<Process>, limit: real): (n: nat)
    ensures n <= CountDone(ps)
  {
    if |ps| == 0 then 0
    else
      var p := ps[|ps| - 1];
      Throughput(ps[..|ps| - 1], limit)
      + (if p.completionTime.Some? && p.completionTime.value != 0.0 && p.completionTime.value <= limit then 1 else 0)
  }

  /** What calculate_metrics returns for a result: nothing for an empty list or
      when no process has completed, the statistics otherwise. */
  function MetricsOf(r: SchedulingResult): (m: Option<Summary>)
    ensures m.None? <==> CountDone(r.processes) == 0
    ensures m.Some? ==>
      && m.value.avgWaitingTime <= m.value.maxWaitingTime
      && m.value.avgTurnaroundTime <= m.value.maxTurnaroundTime
      && m.value.contextSwitches == r.contextSwitches
      && m.value.throughput50 <= m.value.throughput100 <= m.value.throughput150
         <= m.value.throughput200 <= CountDone(r.processes)
  {
    var ps := r.processes;
    var waits, turnarounds := WaitingTimes(ps), TurnaroundTimes(ps);
    if |ps| == 0 || |waits| == 0 then None
    else
      AverageAtMostMax(waits);
      AverageAtMostMax(turnarounds);
      ThroughputMonotone(ps, 50.0, 100.0);
      ThroughputMonotone(ps, 100.0, 150.0);
      ThroughputMonotone(ps, 150.0, 200.0);
      Some(Summary(
      Average(waits), MaxOf(waits), Average(turnarounds), MaxOf(turnarounds),
      Efficiency(BusyTime(r.timeSlots), r.totalTime), r.contextSwitches,
      Throughput(ps, 50.0), Throughput(ps, 100.0), Throughput(ps, 150.0), Throughput(ps, 200.0)))
  }

  /** calculate_metrics: write the turnaround and waiting times onto the
      completed processes (returned as the new process list) and compute the
      statistics. */
  method CalculateMetrics(r: SchedulingResult) returns (procs: seq<Process>, m: Option<Summary>)
    ensures |procs| == |r.processes| && forall i :: 0 <= i < |procs| ==> procs[i] == WithTimes(r.processes[i])
    ensures m == MetricsOf(r)
  {
    procs := r.processes;
    if |procs| == 0 {
      return procs, None;
    }
    var waitingTimes, turnaroundTimes;
    procs, waitingTimes, turnaroundTimes := RecordTimes(r.processes);
    if |waitingTimes| == 0 {
      return procs, None;
    }
    m := Some(Summary(
      Sum(waitingTimes) / |waitingTimes| as real, MaxOf(waitingTimes),
      Sum(turnaroundTimes) / |turnaroundTimes| as real, MaxOf(turnaroundTimes),
      Efficiency(BusyTime(r.timeSlots), r.totalTime), r.contextSwitches,
      Throughput(r.processes, 50.0), Throughput(r.processes, 100.0),
      Throughput(r.processes, 150.0), Throughput(r.processes, 200.0)));
  }

  /** The loop of calculate_metrics: walk the list once, writing the times onto
      each completed process and collecting its waiting and turnaround times. */
  method RecordTimes(ps: seq<Process>) returns (procs: seq<Process>, waits: seq<real>, turnarounds: seq<real>)
    ensures |procs| == |ps| && forall i :: 0 <= i < |procs| ==> procs[i] == WithTimes(ps[i])
    ensures waits == WaitingTimes(ps) && turnarounds == TurnaroundTimes(ps)
  {
    procs, waits, turnarounds := ps, [], [];
    for i := 0 to |procs|
      invariant |procs| == |ps|
      invariant forall k :: 0 <= k < i ==> procs[k] == WithTimes(ps[k])
      invariant forall k :: i <= k < |procs| ==> procs[k] == ps[k]
      invariant waits == WaitingTimes(ps[..i])
      invariant turnarounds == TurnaroundTimes(ps[..i])
    {
      assert ps[..i + 1][..i] == ps[..i];
      var p := procs[i];
      if p.completionTime.Some? {
        var turnaround := p.completionTime.value - p.arrivalTime as real;
        var waiting := turnaround - p.cpuBurstTime as real;
        procs := procs[i := p.(turnaroundTime := Some(turnaround), waitingTime := Some(waiting))];
        waits := waits + [waiting];
        turnarounds := turnarounds + [turnaround];
      }
    }
    assert ps[..|procs|] == ps;
  }

  /** No statistics exactly when the list is empty or nothing has completed. */
  lemma {:induction false} MetricsAbsent(r: SchedulingResult)
    ensures MetricsOf(r).None? <==> forall i :: 0 <= i < |r.processes| ==> r.processes[i].completionTime.None?
  {
    var ps := r.processes;
    if forall i :: 0 <= i < |ps| ==> ps[i].completionTime.None? {
      NoneDone(ps);
    } else {
      var i :| 0 <= i < |ps| && ps[i].completionTime.Some?;
      DoneCounted(ps, i);
    }
  }

  lemma {:induction false} DoneCounted(ps: seq<Process>, i: nat)
    requires i < |ps| && Done(ps[i])
    ensures CountDone(ps) > 0
  {
    if i < |ps| - 1 {
      DoneCounted(ps[..|ps| - 1], i);
    }
  }

  /** Every element bounded by m bounds the sum by |xs| * m. */
  lemma {:induction false} SumAtMost(xs: seq<real>, m: real)
    requires forall k :: 0 <= k < |xs| ==> xs[k] <= m
    ensures Sum(xs) <= |xs| as real * m
  {
    if |xs| > 0 {
      var init := xs[..|xs| - 1];
      assert forall k :: 0 <= k < |init| ==> init[k] == xs[k];
      SumAtMost(init, m);
    }
  }

  /** No negative element, no negative sum. */
  lemma {:induction false} SumNonNegative(xs: seq<real>)
    requires forall k :: 0 <= k < |xs| ==> 0.0 <= xs[k]
    ensures 0.0 <= Sum(xs)
  {
    if |xs| > 0 {
      var init := xs[..|xs| - 1];
      assert forall k :: 0 <= k < |init| ==> init[k] == xs[k];
      SumNonNegative(init);
    }
  }

  /** A quotient of non-negative x by positive d is non-negative. */
  lemma {:induction false} QuotientNonNegative(x: real, d: real)
    requires d > 0.0 && 0.0 <= x
    ensures 0.0 <= x / d
  {
    var y := x / d;
    assert x == y * d;
    assert y < 0.0 ==> y * d < 0.0;
  }

  /** A quotient by a positive d of something at most d * c is at most c. */
  lemma {:induction false} QuotientAtMost(x: real, d: real, c: real)
    requires d > 0.0 && x <= d * c
    ensures x / d <= c
  {
    var y := x / d;
    assert x == y * d;
    assert y > c ==> y * d > c * d;
  }

  /** An average never exceeds the maximum. */
  lemma {:induction false} AverageAtMostMax(xs: seq<real>)
    requires |xs| > 0
    ensures Average(xs) <= MaxOf(xs)
  {
    var m, total, n := MaxOf(xs), Sum(xs), |xs| as real;
    SumAtMost(xs, m);
    QuotientAtMost(total, n, m);
    assert Average(xs) == total / n;
  }

  /** The average of elements none of which is negative is not negative. */
  lemma {:induction false} AverageNonNegative(xs: seq<real>)
    requires |xs| > 0 && forall k :: 0 <= k < |xs| ==> 0.0 <= xs[k]
    ensures 0.0 <= Average(xs)
  {
    SumNonNegative(xs);
    QuotientNonNegative(Sum(xs), |xs| as real);
  }

  /** A later time limit counts at least the processes an earlier one does, and
      no count exceeds the number of processes. */
  lemma {:induction false} ThroughputMonotone(ps: seq<Process>, a: real, b: real)
    requires a <= b
    ensures Throughput(ps, a) <= Throughput(ps, b) <= |ps|
  {
    if |ps| > 0 {
      ThroughputMonotone(ps[..|ps| - 1], a, b);
    }
  }

  /** On a well-timed timeline the busy time is a share of the total time, so
      the efficiency lies between 0 and 100. */
  lemma {:induction false} EfficiencyBounded(slots: seq<TimeSlot>, total: real)
    requires WellTimed(slots, total)
    ensures 0.0 <= Efficiency(BusyTime(slots), total) <= 100.0
  {
    if |slots| > 0 {
      SpanWithin(slots);
      if total > 0.0 {
        QuotientNonNegative(BusyTime(slots), total);
        QuotientAtMost(BusyTime(slots), total, 1.0);
      }
    }
  }

  /** When every process ran to completion on an ordered timeline, each waited
      for no negative time: its completion is no earlier than its arrival plus
      its burst. */
  lemma {:induction false} WaitingNonNegative(ps: seq<Process>, slots: seq<TimeSlot>)
    requires AllFinished(ps, slots) && Ordered(slots)
    ensures forall k :: 0 <= k < |WaitingTimes(ps)| ==> 0.0 <= WaitingTimes(ps)[k]
    ensures forall k :: 0 <= k < |TurnaroundTimes(ps)| ==> 0.0 <= TurnaroundTimes(ps)[k]
  {
    if |ps| > 0 {
      var init := ps[..|ps| - 1];
      assert forall k :: 0 <= k < |init| ==> init[k] == ps[k];
      WaitingNonNegative(init, slots);
      CompletionBound(ps, slots, |ps| - 1);
    }
  }

  /** For the outcome of any of the policies (a non-empty list, every process
      finished on an ordered, well-timed timeline) the statistics exist and are
      consistent: averages within the maxima and not negative, efficiency a
      percentage, and throughput growing with the time limit. */
  lemma {:induction false} FinishedRunMetrics(r: SchedulingResult)
    requires |r.processes| > 0 && AllFinished(r.processes, r.timeSlots) && WellTimed(r.timeSlots, r.totalTime)
    ensures MetricsOf(r).Some?
    ensures var s := MetricsOf(r).value;
            && 0.0 <= s.avgWaitingTime <= s.maxWaitingTime
            && 0.0 <= s.avgTurnaroundTime <= s.maxTurnaroundTime
            && 0.0 <= s.cpuEfficiency <= 100.0
            && s.throughput50 <= s.throughput100 <= s.throughput150 <= s.throughput200 <= |r.processes|
  {
    var ps := r.processes;
    assert Done(ps[0]);
    DoneCounted(ps, 0);
    WaitingNonNegative(ps, r.timeSlots);
    AverageAtMostMax(WaitingTimes(ps));
    AverageNonNegative(WaitingTimes(ps));
    AverageAtMostMax(TurnaroundTimes(ps));
    AverageNonNegative(TurnaroundTimes(ps));
    EfficiencyBounded(r.timeSlots, r.totalTime);
    ThroughputMonotone(ps, 50.0, 100.0);
    ThroughputMonotone(ps, 100.0, 150.0);
    ThroughputMonotone(ps, 150.0, 200.0);
  }
}
