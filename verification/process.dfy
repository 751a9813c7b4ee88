/** Entities of the simulator: priority levels, process records, time slots and
    the record a scheduling run produces (Project/src/process.py).

    Process records are values.  The engine takes the process list as a value
    sequence, identifies a process by its index in it, and hands the updated list
    back inside its SchedulingResult. */
module Process {

  datatype Option<T> = None | Some(value: T)

  /** The three priority levels; a larger value means a more urgent process. */
  datatype Priority = High | Normal | Low {

    /** The numeric value of the enumeration member (HIGH = 3, NORMAL = 2, LOW = 1). */
    function Value(): (v: nat)
      ensures 1 <= v <= 3
    {
      match this
      case High => 3
      case Normal => 2
      case Low => 1
    }

    /** The name of the enumeration member: one of the three keys the
        enumeration accepts, already in upper case. */
    function Name(): (n: string)
      ensures n in {"HIGH", "NORMAL", "LOW"} && Upper(n) == n
    {
      match this
      case High => assert Upper("HIGH") == "HIGH"; "HIGH"
      case Normal => assert Upper("NORMAL") == "NORMAL"; "NORMAL"
      case Low => assert Upper("LOW") == "LOW"; "LOW"
    }
  }

  /** HIGH > NORMAL > LOW, and distinct levels have distinct values. */
  lemma {:induction false} PriorityOrder(a: Priority, b: Priority)
    ensures High.Value() > Normal.Value() > Low.Value()
    ensures a.Value() == b.Value() <==> a == b
  {
  }

  /** ASCII upper-casing of one character. */
  function UpperChar(c: char): char
  {
    if 'a' <= c <= 'z' then (c as int - 32) as char else c
  }

  /** ASCII upper-casing of a string (Python's str.upper restricted to ASCII):
      each lower-case letter becomes its capital, every other character stays,
      and no lower-case letter is left. */
  function Upper(s: string): (r: string)
    ensures |r| == |s|
    ensures forall i :: 0 <= i < |s| ==> !('a' <= r[i] <= 'z')
    ensures forall i :: 0 <= i < |s| ==>
              if 'a' <= s[i] <= 'z' then r[i] as int == s[i] as int - 32 else r[i] == s[i]
  {
    seq(|s|, i requires 0 <= i < |s| => UpperChar(s[i]))
  }

  /** Priority[name.upper()]: the member whose name is the upper-cased text, or
      None where Python raises KeyError. */
  function PriorityFromName(name: string): (r: Option<Priority>)
    ensures r.Some? <==> Upper(name) in {"HIGH", "NORMAL", "LOW"}
    ensures r.Some? ==> r.value.Name() == Upper(name)
  {
    var key := Upper(name);
    if key == "HIGH" then Some(High)
    else if key == "NORMAL" then Some(Normal)
    else if key == "LOW" then Some(Low)
    else None
  }

  lemma {:induction false} UpperIdempotent(s: string)
    ensures Upper(Upper(s)) == Upper(s)
  {
  }

  /** The lookup ignores case: a name and its upper-cased form map to the same level. */
  lemma {:induction false} PriorityFromNameIgnoresCase(name: string)
    ensures PriorityFromName(Upper(name)) == PriorityFromName(name)
  {
    UpperIdempotent(name);
  }

  /** Every level is found again from its own name, and from its lower-case spelling. */
  lemma {:induction false} PriorityNameRoundTrip(p: Priority)
    ensures PriorityFromName(p.Name()) == Some(p)
    ensures PriorityFromName(if p == High then "high" else if p == Normal then "normal" else "low") == Some(p)
  {
    assert Upper("HIGH") == "HIGH";
    assert Upper("NORMAL") == "NORMAL";
    assert Upper("LOW") == "LOW";
    assert Upper("high") == "HIGH";
    assert Upper("normal") == "NORMAL";
    assert Upper("low") == "LOW";
  }

  /** A process: its identity and static parameters, and the progress fields a
      scheduling run fills in.  Times of the simulated clock are reals; arrival,
      burst and remaining work are whole time units. */
  datatype Process = Process(
    processId: string,
    arrivalTime: nat,
    cpuBurstTime: nat,
    priority: Priority,
    remainingTime: nat,
    startTime: Option<real>,
    completionTime: Option<real>,
    turnaroundTime: Option<real>,
    waitingTime: Option<real>,
    responseTime: Option<real>)

  /** The priority argument of the constructor: an enumeration member or its name. */
  datatype PriorityArg = Level(level: Priority) | Named(name: string)

  /** Progress fields as they are before any run: all work outstanding, no times. */
  predicate IsFresh(p: Process)
  {
    && p.remainingTime == p.cpuBurstTime
    && p.startTime.None? && p.completionTime.None?
    && p.turnaroundTime.None? && p.waitingTime.None? && p.responseTime.None?
  }

  /** Two records describe the same process: identity and static parameters agree. */
  predicate SameStatic(p: Process, q: Process)
  {
    && p.processId == q.processId && p.arrivalTime == q.arrivalTime
    && p.cpuBurstTime == q.cpuBurstTime && p.priority == q.priority
  }

  /** Construction with __post_init__: remaining_time defaults to the burst, and a
      priority given by name is looked up case-insensitively (None for an unknown
      name, where Python raises KeyError). */
  function NewProcess(id: string, arrival: nat, burst: nat, priority: PriorityArg,
                      remaining: Option<nat>): (r: Option<Process>)
    ensures r.None? <==> priority.Named? && PriorityFromName(priority.name).None?
    ensures r.Some? ==>
      && r.value.processId == id && r.value.arrivalTime == arrival && r.value.cpuBurstTime == burst
      && r.value.remainingTime == (if remaining.Some? then remaining.value else burst)
      && r.value.priority == (if priority.Level? then priority.level else PriorityFromName(priority.name).value)
      && r.value.startTime.None? && r.value.completionTime.None?
      && r.value.turnaroundTime.None? && r.value.waitingTime.None? && r.value.responseTime.None?
  {
    var level :=
      match priority
      case Level(l) => Some(l)
      case Named(n) => PriorityFromName(n);
    if level.None? then None
    else
      var rem := match remaining case Some(x) => x case None => burst;
      Some(Process(id, arrival, burst, level.value, rem, None, None, None, None, None))
  }

  /** A process constructed without an explicit remaining time is fresh. */
  lemma {:induction false} NewProcessIsFresh(id: string, arrival: nat, burst: nat, priority: PriorityArg)
    requires NewProcess(id, arrival, burst, priority, None).Some?
    ensures IsFresh(NewProcess(id, arrival, burst, priority, None).value)
  {
  }

  /** reset(): back to the state before any run; the static fields are untouched. */
  function Reset(p: Process): (q: Process)
    ensures SameStatic(p, q) && IsFresh(q)
  {
    p.(remainingTime := p.cpuBurstTime, startTime := None, completionTime := None,
       turnaroundTime := None, waitingTime := None, responseTime := None)
  }

  /** Resetting gives exactly the record a fresh construction from the static
      parameters gives, so resetting twice is resetting once. */
  lemma {:induction false} ResetIsFreshConstruction(p: Process)
    ensures NewProcess(p.processId, p.arrivalTime, p.cpuBurstTime, Level(p.priority), None) == Some(Reset(p))
    ensures Reset(Reset(p)) == Reset(p)
  {
  }

  /** The sentinel process id of an idle interval. */
  const IDLE: string := "IDLE"

  /** An interval of the timeline, running a process or (with id IDLE) idle. */
  datatype TimeSlot = TimeSlot(processId: string, startTime: real, endTime: real) {

    /** The length of the interval: it starts, lasts its duration and ends. */
    function Duration(): (d: real)
      ensures startTime + d == endTime
      ensures 0.0 <= d <==> startTime <= endTime
    {
      endTime - startTime
    }

    predicate IsIdle()
    {
      processId == IDLE
    }
  }

  /** The outcome of one run of one policy. */
  datatype SchedulingResult = SchedulingResult(
    algorithmName: string,
    timeSlots: seq<TimeSlot>,
    processes: seq<Process>,
    contextSwitches: nat,
    totalTime: real)
}
