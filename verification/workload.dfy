/** Predicates and counts over the process list a policy runs on.  A process is
    identified by its index in the list; with unique ids this is the identity
    the Python code gets from dataclass equality. */
module Workload {
  import opened Process

  /** Arrival order, as the CSV parser leaves the list (it sorts by arrival). */
  predicate SortedByArrival(ps: seq<Process>)
  {
    forall i, j :: 0 <= i < j < |ps| ==> ps[i].arrivalTime <= ps[j].arrivalTime
  }

  /** Processes i and j carry the same id. */
  predicate SameId(ps: seq<Process>, i: nat, j: nat)
    requires i < |ps| && j < |ps|
  {
    ps[i].processId == ps[j].processId
  }

  /** No two processes share an id. */
  predicate UniqueIds(ps: seq<Process>)
  {
    forall i: nat, j: nat {:trigger SameId(ps, i, j)} :: i < |ps| && j < |ps| && SameId(ps, i, j) ==> i == j
  }

  /** Unique ids tell any two processes apart. */
  lemma {:induction false} UniqueIdsDistinct(ps: seq<Process>, i: nat, j: nat)
    requires UniqueIds(ps) && i < |ps| && j < |ps| && i != j
    ensures ps[i].processId != ps[j].processId
  {
    assert !SameId(ps, i, j);
  }

  /** What every policy relies on: unique ids that are not the idle sentinel,
      and positive bursts. */
  predicate WellFormed(ps: seq<Process>)
  {
    && UniqueIds(ps)
    && (forall i :: 0 <= i < |ps| ==> ps[i].cpuBurstTime > 0 && ps[i].processId != IDLE)
  }

  /** Same processes in the same order; only progress fields may differ. */
  predicate SameProcesses(ps: seq<Process>, qs: seq<Process>)
  {
    |ps| == |qs| && forall i :: 0 <= i < |ps| ==> SameStatic(ps[i], qs[i])
  }

  predicate Done(p: Process)
  {
    p.completionTime.Some?
  }

  /** Number of processes that have a completion time. */
  function CountDone(ps: seq<Process>): nat
  {
    if |ps| == 0 then 0 else CountDone(ps[..|ps| - 1]) + (if Done(ps[|ps| - 1]) then 1 else 0)
  }

  /** Work still outstanding: the summed remaining times. */
  function Outstanding(ps: seq<Process>): nat
  {
    if |ps| == 0 then 0 else Outstanding(ps[..|ps| - 1]) + ps[|ps| - 1].remainingTime
  }

  /** Work already done: the summed burst minus remaining time. */
  function Served(ps: seq<Process>): real
  {
    if |ps| == 0 then 0.0
    else Served(ps[..|ps| - 1]) + (ps[|ps| - 1].cpuBurstTime as real - ps[|ps| - 1].remainingTime as real)
  }

  /** Summed CPU bursts of the processes that have completed. */
  function CompletedBurst(ps: seq<Process>): real
  {
    if |ps| == 0 then 0.0
    else CompletedBurst(ps[..|ps| - 1]) + (if Done(ps[|ps| - 1]) then ps[|ps| - 1].cpuBurstTime as real else 0.0)
  }

  /** Summed CPU bursts of all processes. */
  function TotalBurst(ps: seq<Process>): real
  {
    if |ps| == 0 then 0.0 else TotalBurst(ps[..|ps| - 1]) + ps[|ps| - 1].cpuBurstTime as real
  }

  /** Once every process has completed, the completed bursts are all the bursts. */
  lemma {:induction false} CompletedBurstIsTotal(ps: seq<Process>)
    requires forall i :: 0 <= i < |ps| ==> Done(ps[i])
    ensures CompletedBurst(ps) == TotalBurst(ps)
  {
    if |ps| > 0 {
      var init := ps[..|ps| - 1];
      assert forall k :: 0 <= k < |init| ==> init[k] == ps[k];
      CompletedBurstIsTotal(init);
    }
  }

  /** Progress updates leave the summed bursts alone. */
  lemma {:induction false} TotalBurstSame(ps: seq<Process>, qs: seq<Process>)
    requires SameProcesses(ps, qs)
    ensures TotalBurst(ps) == TotalBurst(qs)
  {
    if |ps| > 0 {
      TotalBurstSame(ps[..|ps| - 1], qs[..|qs| - 1]);
    }
  }

  /** Once no process has work left, the work done is all the bursts. */
  lemma {:induction false} ServedAll(ps: seq<Process>)
    requires forall i :: 0 <= i < |ps| ==> ps[i].remainingTime == 0
    ensures Served(ps) == TotalBurst(ps)
  {
    if |ps| > 0 {
      var init := ps[..|ps| - 1];
      assert forall k :: 0 <= k < |init| ==> init[k] == ps[k];
      ServedAll(init);
    }
  }

  /** Before any work is done, nothing is served. */
  lemma {:induction false} ServedNone(ps: seq<Process>)
    requires forall i :: 0 <= i < |ps| ==> ps[i].remainingTime == ps[i].cpuBurstTime
    ensures Served(ps) == 0.0
  {
    if |ps| > 0 {
      var init := ps[..|ps| - 1];
      assert forall k :: 0 <= k < |init| ==> init[k] == ps[k];
      ServedNone(init);
    }
  }

  /** The time a process runs when it may run at most `limit`:
      min(limit, remaining_time). */
  function SliceLength(limit: nat, remaining: nat): (r: nat)
    ensures r <= limit && r <= remaining && (r == limit || r == remaining)
  {
    if limit <= remaining then limit else remaining
  }

  /** Number of processes that arrive strictly after time t. */
  function Future(ps: seq<Process>, t: real): nat
  {
    if |ps| == 0 then 0 else Future(ps[..|ps| - 1], t) + (if ps[|ps| - 1].arrivalTime as real > t then 1 else 0)
  }

  /** The CPU burst of the (last) process with the given id, 0 when there is none. */
  function BurstOf(ps: seq<Process>, id: string): nat
  {
    if |ps| == 0 then 0
    else if ps[|ps| - 1].processId == id then ps[|ps| - 1].cpuBurstTime
    else BurstOf(ps[..|ps| - 1], id)
  }

  /** With unique ids, the id of a process finds that process's burst. */
  lemma {:induction false} BurstOfUnique(ps: seq<Process>, i: nat)
    requires UniqueIds(ps) && i < |ps|
    ensures BurstOf(ps, ps[i].processId) == ps[i].cpuBurstTime
  {
    var n := |ps|;
    var init := ps[..n - 1];
    if i < n - 1 {
      UniqueIdsDistinct(ps, i, n - 1);
      forall a: nat, b: nat | a < |init| && b < |init| && SameId(init, a, b)
        ensures a == b
      {
        assert SameId(ps, a, b);
      }
      BurstOfUnique(init, i);
    }
  }

  /** Changing one record changes each count by what that record contributes. */
  lemma {:induction false} UpdateOne(ps: seq<Process>, i: nat, q: Process)
    requires i < |ps|
    ensures CountDone(ps[i := q]) + (if Done(ps[i]) then 1 else 0) == CountDone(ps) + (if Done(q) then 1 else 0)
    ensures Outstanding(ps[i := q]) + ps[i].remainingTime == Outstanding(ps) + q.remainingTime
    ensures Served(ps[i := q]) + (ps[i].cpuBurstTime as real - ps[i].remainingTime as real)
            == Served(ps) + (q.cpuBurstTime as real - q.remainingTime as real)
    ensures CompletedBurst(ps[i := q]) + (if Done(ps[i]) then ps[i].cpuBurstTime as real else 0.0)
            == CompletedBurst(ps) + (if Done(q) then q.cpuBurstTime as real else 0.0)
    ensures forall t :: Future(ps[i := q], t) + (if ps[i].arrivalTime as real > t then 1 else 0)
                        == Future(ps, t) + (if q.arrivalTime as real > t then 1 else 0)
  {
    var n := |ps|;
    var ps' := ps[i := q];
    assert ps'[..n - 1] == if i == n - 1 then ps[..n - 1] else ps[..n - 1][i := q];
    if i < n - 1 {
      UpdateOne(ps[..n - 1], i, q);
    }
  }

  /** When every process has completed, each one has a completion time. */
  lemma {:induction false} AllDone(ps: seq<Process>)
    requires CountDone(ps) == |ps|
    ensures forall i :: 0 <= i < |ps| ==> Done(ps[i])
  {
    if |ps| > 0 {
      var init := ps[..|ps| - 1];
      assert CountDone(init) <= |init| by { CountDoneBound(init); }
      AllDone(init);
      assert forall k :: 0 <= k < |init| ==> init[k] == ps[k];
    }
  }

  /** Before anything has completed, nothing is counted as completed. */
  lemma {:induction false} NoneDone(ps: seq<Process>)
    requires forall i :: 0 <= i < |ps| ==> !Done(ps[i])
    ensures CountDone(ps) == 0 && CompletedBurst(ps) == 0.0
  {
    if |ps| > 0 {
      var init := ps[..|ps| - 1];
      assert forall k :: 0 <= k < |init| ==> init[k] == ps[k];
      NoneDone(init);
    }
  }

  /** While fewer than all have completed, some process has no completion time. */
  lemma {:induction false} SomeNotDone(ps: seq<Process>)
    requires CountDone(ps) < |ps|
    ensures exists i :: 0 <= i < |ps| && !Done(ps[i])
  {
    var init := ps[..|ps| - 1];
    assert forall k :: 0 <= k < |init| ==> init[k] == ps[k];
    if Done(ps[|ps| - 1]) {
      SomeNotDone(init);
    }
  }

  lemma {:induction false} CountDoneBound(ps: seq<Process>)
    ensures CountDone(ps) <= |ps|
  {
    if |ps| > 0 {
      CountDoneBound(ps[..|ps| - 1]);
    }
  }

  /** When every process has completed, the completed bursts are all the bursts. */
  lemma {:induction false} CompletedBurstAll(ps: seq<Process>)
    requires forall i :: 0 <= i < |ps| ==> Done(ps[i])
    ensures CompletedBurst(ps) == Served(ps) + Outstanding(ps) as real
  {
    if |ps| > 0 {
      var init := ps[..|ps| - 1];
      assert forall k :: 0 <= k < |init| ==> init[k] == ps[k];
      CompletedBurstAll(init);
    }
  }

  /** The count of future arrivals never grows as time moves on, and drops when
      some process arrives in between. */
  lemma {:induction false} FutureShrinks(ps: seq<Process>, t: real, t': real, i: nat)
    requires t <= t' && i < |ps| && t < ps[i].arrivalTime as real <= t'
    ensures Future(ps, t') < Future(ps, t)
  {
    var n := |ps|;
    var init := ps[..n - 1];
    assert forall k :: 0 <= k < |init| ==> init[k] == ps[k];
    if i < n - 1 {
      FutureShrinks(init, t, t', i);
    } else {
      FutureNotGrowing(init, t, t');
    }
  }

  lemma {:induction false} FutureNotGrowing(ps: seq<Process>, t: real, t': real)
    requires t <= t'
    ensures Future(ps, t') <= Future(ps, t)
  {
    if |ps| > 0 {
      FutureNotGrowing(ps[..|ps| - 1], t, t');
    }
  }

  /** Progress updates keep a list well formed. */
  lemma {:induction false} SameWellFormed(ps: seq<Process>, qs: seq<Process>)
    requires SameProcesses(ps, qs) && WellFormed(qs)
    ensures WellFormed(ps)
  {
    forall i: nat, j: nat | i < |ps| && j < |ps| && SameId(ps, i, j)
      ensures i == j
    {
      assert SameId(qs, i, j);
    }
  }
}
