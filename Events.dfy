// The task events and the append-only list a test logger keeps of them, with
// the typed views PHP's `array_filter` gives (which keep each event's
// position in the list as its key).

module Events {
  import opened Wrappers
  import opened Tasks

  /** The task events a logger records. */
  datatype TaskEvent =
    | Scheduled(task: Task)
    | Unscheduled(name: string)
    | Executed(task: Task, output: Option<Output>)
    | Failed(failed: FailedTask)

  predicate IsScheduled(e: TaskEvent) { e.Scheduled? }
  predicate IsUnscheduled(e: TaskEvent) { e.Unscheduled? }
  predicate IsExecuted(e: TaskEvent) { e.Executed? }
  predicate IsFailed(e: TaskEvent) { e.Failed? }
  /** A scheduled event whose task is queued. */
  predicate IsQueued(e: TaskEvent) { e.Scheduled? && e.task.queued }

  /**
   * `array_filter` over `events` from position `i` on: the events that satisfy
   * `keep`, each paired with its position, in order.
   */
  function Filter(events: seq<TaskEvent>, keep: TaskEvent -> bool, i: nat): (r: seq<(nat, TaskEvent)>)
    ensures i <= |events| ==> |r| <= |events| - i
    ensures forall k :: 0 <= k < |r| ==> i <= r[k].0 < |events| && events[r[k].0] == r[k].1 && keep(r[k].1)
    decreases |events| - i
  {
    if i >= |events| then []
    else
      var rest := Filter(events, keep, i + 1);
      if keep(events[i]) then [(i, events[i])] + rest else rest
  }

  /** Nothing the view keeps is missing from it. */
  lemma {:induction false} FilterComplete(events: seq<TaskEvent>, keep: TaskEvent -> bool, i: nat, j: nat)
    requires i <= j < |events| && keep(events[j])
    ensures exists k :: 0 <= k < |Filter(events, keep, i)| && Filter(events, keep, i)[k] == (j, events[j])
    decreases j - i
  {
    var r := Filter(events, keep, i);
    if j == i {
      assert r[0] == (j, events[j]);
    } else {
      FilterComplete(events, keep, i + 1, j);
      var rest := Filter(events, keep, i + 1);
      var k :| 0 <= k < |rest| && rest[k] == (j, events[j]);
      if keep(events[i]) {
        assert r[k + 1] == rest[k];
      } else {
        assert r[k] == rest[k];
      }
    }
  }

  /** The view lists the events it keeps in the order of the list. */
  lemma {:induction false} FilterOrdered(events: seq<TaskEvent>, keep: TaskEvent -> bool, i: nat, k: nat, l: nat)
    requires k < l < |Filter(events, keep, i)|
    ensures Filter(events, keep, i)[k].0 < Filter(events, keep, i)[l].0
    decreases |events| - i
  {
    var r := Filter(events, keep, i);
    var rest := Filter(events, keep, i + 1);
    if keep(events[i]) {
      assert r == [(i, events[i])] + rest;
      assert r[l] == rest[l - 1];
      if k > 0 {
        assert r[k] == rest[k - 1];
        FilterOrdered(events, keep, i + 1, k - 1, l - 1);
      } else {
        assert r[k].0 == i;
      }
    } else {
      assert r == rest;
      FilterOrdered(events, keep, i + 1, k, l);
    }
  }

  /** Appending an event extends each view by that event, at its position, exactly when the view keeps it. */
  lemma {:induction false} FilterAppend(events: seq<TaskEvent>, keep: TaskEvent -> bool, e: TaskEvent, i: nat)
    requires i <= |events|
    ensures Filter(events + [e], keep, i) == Filter(events, keep, i) + (if keep(e) then [(|events|, e)] else [])
    decreases |events| - i
  {
    var all := events + [e];
    var tail := if keep(e) then [(|events|, e)] else [];
    if i < |events| {
      assert all[i] == events[i];
      FilterAppend(events, keep, e, i + 1);
      if keep(events[i]) {
        var head := [(i, events[i])];
        assert Filter(all, keep, i) == head + Filter(all, keep, i + 1);
        assert Filter(events, keep, i) == head + Filter(events, keep, i + 1);
        assert head + (Filter(events, keep, i + 1) + tail) == (head + Filter(events, keep, i + 1)) + tail;
      } else {
        assert Filter(all, keep, i) == Filter(all, keep, i + 1);
        assert Filter(events, keep, i) == Filter(events, keep, i + 1);
      }
    } else {
      assert Filter(all, keep, i + 1) == [];
    }
  }

  /** A view that keeps fewer events is no longer than one that keeps more. */
  lemma {:induction false} FilterMonotone(events: seq<TaskEvent>, fewer: TaskEvent -> bool, more: TaskEvent -> bool, i: nat)
    requires forall e :: fewer(e) ==> more(e)
    ensures |Filter(events, fewer, i)| <= |Filter(events, more, i)|
    decreases |events| - i
  {
    if i < |events| {
      FilterMonotone(events, fewer, more, i + 1);
    }
  }

  /** `TaskEventList`: the events in the order they were added. */
  class TaskEventList {
    var events: seq<TaskEvent>

    constructor ()
      ensures events == []
    {
      events := [];
    }

    method AddEvent(e: TaskEvent)
      modifies this
      ensures events == old(events) + [e]
    {
      events := events + [e];
    }

    function GetEvents(): seq<TaskEvent>
      reads this
    {
      events
    }

    function GetScheduledTaskEvents(): seq<(nat, TaskEvent)>
      reads this
    {
      Filter(events, IsScheduled, 0)
    }

    function GetUnscheduledTaskEvents(): seq<(nat, TaskEvent)>
      reads this
    {
      Filter(events, IsUnscheduled, 0)
    }

    function GetExecutedTaskEvents(): seq<(nat, TaskEvent)>
      reads this
    {
      Filter(events, IsExecuted, 0)
    }

    function GetFailedTaskEvents(): seq<(nat, TaskEvent)>
      reads this
    {
      Filter(events, IsFailed, 0)
    }

    function GetQueuedTaskEvents(): seq<(nat, TaskEvent)>
      reads this
    {
      Filter(events, IsQueued, 0)
    }

    function Count(): nat
      reads this
    {
      |events|
    }
  }

  /** Adding one event grows the count by one and each view by that event alone when the view keeps it. */
  lemma AddEventViews(before: seq<TaskEvent>, e: TaskEvent, keep: TaskEvent -> bool)
    ensures |before + [e]| == |before| + 1
    ensures Filter(before + [e], keep, 0) == Filter(before, keep, 0) + (if keep(e) then [(|before|, e)] else [])
  {
    FilterAppend(before, keep, e, 0);
  }

  /** The queued view is part of the scheduled view: it is never longer, and every queued entry is a scheduled one. */
  lemma QueuedAreScheduled(events: seq<TaskEvent>)
    ensures |Filter(events, IsQueued, 0)| <= |Filter(events, IsScheduled, 0)|
    ensures forall x :: x in Filter(events, IsQueued, 0) ==> x in Filter(events, IsScheduled, 0)
  {
    FilterMonotone(events, IsQueued, IsScheduled, 0);
    var queued := Filter(events, IsQueued, 0);
    forall x | x in queued
      ensures x in Filter(events, IsScheduled, 0)
    {
      var k :| 0 <= k < |queued| && queued[k] == x;
      var j := x.0;
      assert x == (j, events[j]);
      FilterComplete(events, IsScheduled, 0, j);
    }
  }

  /** The four typed views split the list: together they are exactly as long as it. */
  lemma {:induction false} ViewsPartition(events: seq<TaskEvent>, i: nat)
    requires i <= |events|
    ensures |Filter(events, IsScheduled, i)| + |Filter(events, IsUnscheduled, i)|
      + |Filter(events, IsExecuted, i)| + |Filter(events, IsFailed, i)| == |events| - i
    decreases |events| - i
  {
    if i < |events| {
      ViewsPartition(events, i + 1);
    }
  }
}
