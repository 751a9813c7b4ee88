/** The list comprehensions and the sort-then-take-first selections that the
    policies use to find arrived processes, ready processes, the next process to
    run and the end of an idle interval. */
module Selection {
  import opened Process
  import opened Workload

  /** The indices from, from + 1, ..., to - 1. */
  function Range(from: nat, to: nat): (r: seq<nat>)
    requires from <= to
    ensures |r| == to - from && forall k :: 0 <= k < |r| ==> r[k] == from + k
  {
    seq(to - from, k requires 0 <= k < to - from => from + k)
  }

  predicate Increasing(xs: seq<nat>)
  {
    forall a, b :: 0 <= a < b < |xs| ==> xs[a] < xs[b]
  }

  /** [p for p in processes[from:] if p.arrival_time <= t], as indices (FCFS). */
  function Arrived(ps: seq<Process>, from: nat, t: real): (r: seq<nat>)
    requires from <= |ps|
    ensures forall i :: i in r <==> from <= i < |ps| && ps[i].arrivalTime as real <= t
    ensures forall k :: 0 <= k < |r| ==> from <= r[k]
    ensures Increasing(r)
    decreases |ps| - from
  {
    if from == |ps| then []
    else if ps[from].arrivalTime as real <= t then [from] + Arrived(ps, from + 1, t)
    else Arrived(ps, from + 1, t)
  }

  /** In arrival order the arrived processes of the remaining slice are exactly
      the slice's first |r| entries, and the next one, if any, has not arrived. */
  lemma {:induction false} ArrivedIsPrefix(ps: seq<Process>, from: nat, t: real)
    requires SortedByArrival(ps) && from <= |ps|
    ensures var r := Arrived(ps, from, t);
            && from + |r| <= |ps|
            && (forall k :: 0 <= k < |r| ==> r[k] == from + k)
            && (from + |r| < |ps| ==> ps[from + |r|].arrivalTime as real > t)
    decreases |ps| - from
  {
    if from < |ps| {
      if ps[from].arrivalTime as real <= t {
        ArrivedIsPrefix(ps, from + 1, t);
        var rest := Arrived(ps, from + 1, t);
        assert Arrived(ps, from, t) == [from] + rest;
      } else {
        NoneArrived(ps, from, t);
      }
    }
  }

  lemma {:induction false} NoneArrived(ps: seq<Process>, from: nat, t: real)
    requires from <= |ps|
    requires forall i :: from <= i < |ps| ==> ps[i].arrivalTime as real > t
    ensures Arrived(ps, from, t) == []
    decreases |ps| - from
  {
    if from < |ps| {
      NoneArrived(ps, from + 1, t);
    }
  }

  /** [p for p in processes[from:] if p.arrival_time <= t and p not in
      ready_queue and p not in completed_processes], as indices (Round Robin). */
  function ArrivedUnqueued(ps: seq<Process>, from: nat, t: real, queue: seq<nat>, completed: seq<nat>): (r: seq<nat>)
    requires from <= |ps|
    ensures forall i {:trigger i in r} :: i in r <==> from <= i < |ps| && ps[i].arrivalTime as real <= t && i !in queue && i !in completed
    ensures |r| <= |ps| - from
    decreases |ps| - from
  {
    if from == |ps| then []
    else if ps[from].arrivalTime as real <= t && from !in queue && from !in completed
    then [from] + ArrivedUnqueued(ps, from + 1, t, queue, completed)
    else ArrivedUnqueued(ps, from + 1, t, queue, completed)
  }

  /** When nothing of the remaining slice is queued or completed, the two filters agree. */
  lemma {:induction false} ArrivedUnqueuedIsArrived(ps: seq<Process>, from: nat, t: real, queue: seq<nat>, completed: seq<nat>)
    requires from <= |ps|
    requires forall i :: from <= i < |ps| ==> i !in queue && i !in completed
    ensures ArrivedUnqueued(ps, from, t, queue, completed) == Arrived(ps, from, t)
    decreases |ps| - from
  {
    if from < |ps| {
      ArrivedUnqueuedIsArrived(ps, from + 1, t, queue, completed);
      assert from !in queue && from !in completed;
    }
  }

  /** next((p for p in processes[from:] if p.arrival_time > t), None), as an index. */
  function NextArrival(ps: seq<Process>, from: nat, t: real): (r: Option<nat>)
    requires from <= |ps|
    ensures r.None? <==> forall i :: from <= i < |ps| ==> ps[i].arrivalTime as real <= t
    ensures r.Some? ==> && from <= r.value < |ps| && ps[r.value].arrivalTime as real > t
                        && forall i :: from <= i < r.value ==> ps[i].arrivalTime as real <= t
    decreases |ps| - from
  {
    if from == |ps| then None
    else if ps[from].arrivalTime as real > t then Some(from)
    else NextArrival(ps, from + 1, t)
  }

  /** A process is ready: arrived, not completed and with work left. */
  predicate IsReady(ps: seq<Process>, completed: seq<nat>, t: real, i: nat)
    requires i < |ps|
  {
    ps[i].arrivalTime as real <= t && i !in completed && ps[i].remainingTime > 0
  }

  /** [p for p in processes if p.arrival_time <= t and p not in completed and
      p.remaining_time > 0], as indices in list order. */
  function ReadyFrom(ps: seq<Process>, completed: seq<nat>, t: real, from: nat): (r: seq<nat>)
    requires from <= |ps|
    ensures forall i :: i in r <==> from <= i < |ps| && IsReady(ps, completed, t, i)
    ensures forall k :: 0 <= k < |r| ==> from <= r[k]
    ensures Increasing(r)
    decreases |ps| - from
  {
    if from == |ps| then []
    else if IsReady(ps, completed, t, from) then [from] + ReadyFrom(ps, completed, t, from + 1)
    else ReadyFrom(ps, completed, t, from + 1)
  }

  function ReadyList(ps: seq<Process>, completed: seq<nat>, t: real): seq<nat>
  {
    ReadyFrom(ps, completed, t, 0)
  }

  /** [p.arrival_time for p in processes if p not in completed_processes]. */
  function PendingArrivals(ps: seq<Process>, completed: seq<nat>, from: nat): (r: seq<nat>)
    requires from <= |ps|
    ensures forall i :: from <= i < |ps| && i !in completed ==> ps[i].arrivalTime in r
    ensures forall a :: a in r ==> exists i :: from <= i < |ps| && i !in completed && ps[i].arrivalTime == a
    decreases |ps| - from
  {
    if from == |ps| then []
    else if from !in completed then [ps[from].arrivalTime] + PendingArrivals(ps, completed, from + 1)
    else PendingArrivals(ps, completed, from + 1)
  }

  /** Python's min over a non-empty list. */
  function Min(xs: seq<nat>): (m: nat)
    requires |xs| > 0
    ensures m in xs && forall x :: x in xs ==> m <= x
  {
    if |xs| == 1 then xs[0]
    else
      var rest := Min(xs[1..]);
      assert forall x :: x in xs ==> x == xs[0] || x in xs[1..];
      if xs[0] <= rest then xs[0] else rest
  }

  /** min([p.arrival_time for p in processes if p not in completed_processes]):
      the end of an idle interval in the policies that scan the whole list. */
  function MinPendingArrival(ps: seq<Process>, completed: seq<nat>): (m: nat)
    requires exists i :: 0 <= i < |ps| && i !in completed
    ensures forall i :: 0 <= i < |ps| && i !in completed ==> m <= ps[i].arrivalTime
    ensures exists i :: 0 <= i < |ps| && i !in completed && ps[i].arrivalTime == m
  {
    var i :| 0 <= i < |ps| && i !in completed;
    var arrivals := PendingArrivals(ps, completed, 0);
    assert ps[i].arrivalTime in arrivals;
    Min(arrivals)
  }

  /** The sort keys of the selecting policies; smaller sorts first. */
  datatype Rule =
    | ShortestRemaining  // key=lambda p: p.remaining_time
    | ShortestBurst      // key=lambda p: (p.cpu_burst_time, p.arrival_time)
    | HighestPriority    // key=lambda p: (-p.priority.value, p.arrival_time)

  function Key(rule: Rule, p: Process): (int, int)
  {
    match rule
    case ShortestRemaining => (p.remainingTime as int, 0)
    case ShortestBurst => (p.cpuBurstTime as int, p.arrivalTime as int)
    case HighestPriority => (-(p.priority.Value() as int), p.arrivalTime as int)
  }

  /** Lexicographic order on keys, as Python compares tuples. */
  predicate KeyLess(a: (int, int), b: (int, int))
  {
    a.0 < b.0 || (a.0 == b.0 && a.1 < b.1)
  }

  /** Process i comes no later than process j after a stable sort by the rule's
      key: smaller key, or equal key and no later in the list. */
  predicate Precedes(rule: Rule, ps: seq<Process>, i: nat, j: nat)
    requires i < |ps| && j < |ps|
  {
    KeyLess(Key(rule, ps[i]), Key(rule, ps[j])) || (Key(rule, ps[i]) == Key(rule, ps[j]) && i <= j)
  }

  /** The key order is the order each policy's sort key gives: least remaining
      time; least burst, then earliest arrival; highest priority value, then
      earliest arrival. */
  lemma {:induction false} KeyOrder(rule: Rule, p: Process, q: Process)
    ensures rule.ShortestRemaining? ==>
              (KeyLess(Key(rule, p), Key(rule, q)) <==> p.remainingTime < q.remainingTime)
    ensures rule.ShortestBurst? ==>
              (KeyLess(Key(rule, p), Key(rule, q)) <==>
                 p.cpuBurstTime < q.cpuBurstTime
                 || (p.cpuBurstTime == q.cpuBurstTime && p.arrivalTime < q.arrivalTime))
    ensures rule.HighestPriority? ==>
              (KeyLess(Key(rule, p), Key(rule, q)) <==>
                 p.priority.Value() > q.priority.Value()
                 || (p.priority.Value() == q.priority.Value() && p.arrivalTime < q.arrivalTime))
    ensures Key(rule, p) == Key(rule, q) || KeyLess(Key(rule, p), Key(rule, q)) || KeyLess(Key(rule, q), Key(rule, p))
  {
  }

  /** Precedes is a total order on the indices of the list: the stable sort puts
      every pair in exactly one order, consistently. */
  lemma {:induction false} PrecedesOrder(rule: Rule, ps: seq<Process>, i: nat, j: nat, k: nat)
    requires i < |ps| && j < |ps| && k < |ps|
    ensures Precedes(rule, ps, i, i)
    ensures Precedes(rule, ps, i, j) || Precedes(rule, ps, j, i)
    ensures Precedes(rule, ps, i, j) && Precedes(rule, ps, j, i) ==> i == j
    ensures Precedes(rule, ps, i, j) && Precedes(rule, ps, j, k) ==> Precedes(rule, ps, i, k)
  {
  }

  /** sorted(ready, key)[0]: since Python's sort is stable and the ready list is in
      list order, the chosen process precedes every other ready process. */
  function Select(rule: Rule, ps: seq<Process>, ready: seq<nat>): (k: nat)
    requires |ready| > 0 && Increasing(ready)
    requires forall j :: j in ready ==> j < |ps|
    ensures k in ready
    ensures forall j :: j in ready ==> Precedes(rule, ps, k, j)
  {
    if |ready| == 1 then ready[0]
    else
      var first, rest := ready[0], ready[1..];
      assert forall j :: j in ready ==> j == first || j in rest;
      SelectRest(ready);
      var m := Select(rule, ps, rest);
      if KeyLess(Key(rule, ps[m]), Key(rule, ps[first])) then m
      else
        assert forall j :: j in rest ==> Precedes(rule, ps, first, j) by {
          forall j | j in rest ensures Precedes(rule, ps, first, j) {
            PrecedesThrough(rule, ps, first, m, j);
          }
        }
        first
  }

  /** The tail of an increasing list is increasing and lies above its head. */
  lemma {:induction false} SelectRest(ready: seq<nat>)
    requires |ready| > 1 && Increasing(ready)
    ensures Increasing(ready[1..]) && forall j :: j in ready[1..] ==> ready[0] < j && j in ready
  {
    forall j | j in ready[1..] ensures ready[0] < j && j in ready {
      var b :| 0 <= b < |ready[1..]| && ready[1..][b] == j;
      assert ready[b + 1] == j;
    }
  }

  /** A process whose key is no larger than m's, and which comes earlier in the
      list than j, precedes j whenever m does. */
  lemma {:induction false} PrecedesThrough(rule: Rule, ps: seq<Process>, a: nat, m: nat, j: nat)
    requires a < |ps| && m < |ps| && j < |ps|
    requires !KeyLess(Key(rule, ps[m]), Key(rule, ps[a])) && Precedes(rule, ps, m, j) && a < j
    ensures Precedes(rule, ps, a, j)
  {
  }

  /** The selection is the unique process that precedes every ready process. */
  lemma {:induction false} SelectIsUnique(rule: Rule, ps: seq<Process>, ready: seq<nat>, k: nat)
    requires |ready| > 0 && Increasing(ready)
    requires forall j :: j in ready ==> j < |ps|
    requires k in ready && forall j :: j in ready ==> Precedes(rule, ps, k, j)
    ensures k == Select(rule, ps, ready)
  {
  }
}
