/** Functions over a timeline (the ordered list of time slots a run emits) and
    the facts about them that the scheduling policies and the metrics rely on.
    Every function is defined by recursion on the last slot, so that appending a
    slot, which is what a run does, unfolds each of them by one step. */
module Timeline {
  import opened Process

  /** Every slot has positive length, and a slot ends no later than any later slot starts. */
  predicate Ordered(slots: seq<TimeSlot>)
  {
    && (forall k :: 0 <= k < |slots| ==> slots[k].startTime < slots[k].endTime)
    && (forall a, b :: 0 <= a < b < |slots| ==> slots[a].endTime <= slots[b].startTime)
  }

  /** Total CPU time given to process `id`: the summed lengths of its slots. */
  function ServiceTime(slots: seq<TimeSlot>, id: string): real
  {
    if |slots| == 0 then 0.0
    else ServiceTime(slots[..|slots| - 1], id)
         + (if slots[|slots| - 1].processId == id then slots[|slots| - 1].Duration() else 0.0)
  }

  /** Number of slots that run process `id`. */
  function SlotCount(slots: seq<TimeSlot>, id: string): nat
  {
    if |slots| == 0 then 0
    else SlotCount(slots[..|slots| - 1], id) + (if slots[|slots| - 1].processId == id then 1 else 0)
  }

  /** Start of the first slot that runs `id`, if any. */
  function FirstStart(slots: seq<TimeSlot>, id: string): Option<real>
  {
    if |slots| == 0 then None
    else if FirstStart(slots[..|slots| - 1], id).Some? then FirstStart(slots[..|slots| - 1], id)
    else if slots[|slots| - 1].processId == id then Some(slots[|slots| - 1].startTime)
    else None
  }

  /** End of the last slot that runs `id`, if any. */
  function LastEnd(slots: seq<TimeSlot>, id: string): Option<real>
  {
    if |slots| == 0 then None
    else if slots[|slots| - 1].processId == id then Some(slots[|slots| - 1].endTime)
    else LastEnd(slots[..|slots| - 1], id)
  }

  /** Summed length of all slots, idle ones included. */
  function Span(slots: seq<TimeSlot>): real
  {
    if |slots| == 0 then 0.0 else Span(slots[..|slots| - 1]) + slots[|slots| - 1].Duration()
  }

  /** Summed length of the slots that run a process (id other than IDLE). */
  function BusyTime(slots: seq<TimeSlot>): real
  {
    if |slots| == 0 then 0.0
    else BusyTime(slots[..|slots| - 1]) + (if slots[|slots| - 1].IsIdle() then 0.0 else slots[|slots| - 1].Duration())
  }

  /** Number of slots that run a process. */
  function ExecCount(slots: seq<TimeSlot>): nat
  {
    if |slots| == 0 then 0
    else ExecCount(slots[..|slots| - 1]) + (if slots[|slots| - 1].IsIdle() then 0 else 1)
  }

  /** How each per-process timeline function changes when one slot is appended. */
  lemma {:induction false} Append(slots: seq<TimeSlot>, x: TimeSlot)
    ensures forall id :: ServiceTime(slots + [x], id) == ServiceTime(slots, id) + (if x.processId == id then x.Duration() else 0.0)
    ensures forall id :: SlotCount(slots + [x], id) == SlotCount(slots, id) + (if x.processId == id then 1 else 0)
    ensures forall id :: LastEnd(slots + [x], id) == if x.processId == id then Some(x.endTime) else LastEnd(slots, id)
    ensures forall id :: FirstStart(slots + [x], id) ==
              (if FirstStart(slots, id).Some? then FirstStart(slots, id)
               else if x.processId == id then Some(x.startTime) else None)
  {
    assert (slots + [x])[..|slots|] == slots;
  }

  /** How the timeline totals change when one slot is appended. */
  lemma {:induction false} AppendTotals(slots: seq<TimeSlot>, x: TimeSlot)
    ensures Span(slots + [x]) == Span(slots) + x.Duration()
    ensures BusyTime(slots + [x]) == BusyTime(slots) + (if x.IsIdle() then 0.0 else x.Duration())
    ensures ExecCount(slots + [x]) == ExecCount(slots) + (if x.IsIdle() then 0 else 1)
  {
    assert (slots + [x])[..|slots|] == slots;
  }

  /** A process has a first slot exactly when it has a last slot, exactly when
      some slot runs it; without one it has received no service. */
  lemma {:induction false} NoSlot(slots: seq<TimeSlot>, id: string)
    ensures (forall k :: 0 <= k < |slots| ==> slots[k].processId != id) <==> FirstStart(slots, id).None?
    ensures FirstStart(slots, id).None? <==> LastEnd(slots, id).None?
    ensures FirstStart(slots, id).None? ==> ServiceTime(slots, id) == 0.0 && SlotCount(slots, id) == 0
  {
    if |slots| > 0 {
      var init := slots[..|slots| - 1];
      assert forall k :: 0 <= k < |init| ==> init[k] == slots[k];
      NoSlot(init, id);
    }
  }

  /** The last slot of a process is a slot that runs it. */
  lemma {:induction false} LastEndWitness(slots: seq<TimeSlot>, id: string)
    requires LastEnd(slots, id).Some?
    ensures exists k :: 0 <= k < |slots| && slots[k].processId == id && slots[k].endTime == LastEnd(slots, id).value
  {
    var init := slots[..|slots| - 1];
    if slots[|slots| - 1].processId != id {
      LastEndWitness(init, id);
      var k :| 0 <= k < |init| && init[k].processId == id && init[k].endTime == LastEnd(init, id).value;
      assert slots[k] == init[k];
    }
  }

  /** The service a process receives fits between the start of its first slot and
      the end of its last one. */
  lemma {:induction false} ServiceWithinTrace(slots: seq<TimeSlot>, id: string)
    requires Ordered(slots)
    requires FirstStart(slots, id).Some?
    ensures LastEnd(slots, id).Some?
    ensures ServiceTime(slots, id) <= LastEnd(slots, id).value - FirstStart(slots, id).value
  {
    var n := |slots|;
    var init, x := slots[..n - 1], slots[n - 1];
    assert forall k :: 0 <= k < |init| ==> init[k] == slots[k];
    assert Ordered(init);
    if FirstStart(init, id).None? {
      NoSlot(init, id);
    } else {
      ServiceWithinTrace(init, id);
      NoSlot(init, id);
      LastEndWitness(init, id);
      var k :| 0 <= k < |init| && init[k].processId == id && init[k].endTime == LastEnd(init, id).value;
      assert slots[k].endTime <= x.startTime;
    }
  }

  /** The slots of an ordered timeline, idle or not, fit between the start of the
      first and the end of the last, and the busy ones make up part of that. */
  lemma {:induction false} SpanWithin(slots: seq<TimeSlot>)
    requires Ordered(slots) && |slots| > 0
    ensures 0.0 <= BusyTime(slots) <= Span(slots) <= slots[|slots| - 1].endTime - slots[0].startTime
  {
    var n := |slots|;
    var init, x := slots[..n - 1], slots[n - 1];
    assert slots == init + [x];
    Append(init, x);
    AppendTotals(init, x);
    if n > 1 {
      SpanWithin(init);
    }
  }
}
