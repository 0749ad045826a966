// The test constraints that count events in a logged task event list:
// `TaskQueued` counts scheduled events of queued tasks, `TaskExecuted`
// counts executed events and events of tasks left incomplete.

module Constraints {
  import opened Wrappers
  import opened Tasks
  import opened Events
  import Php

  /** `'%s %s been <participle>'` with `have` for more than one and `has` otherwise. */
  function Describe(expectedCount: int, participle: string): (r: string)
    ensures |r| > |Php.IntToString(expectedCount)|
    ensures r[..|Php.IntToString(expectedCount)|] == Php.IntToString(expectedCount)
    ensures r[|Php.IntToString(expectedCount)|..] == (if expectedCount > 1 then " have been " else " has been ") + participle
  {
    var number := Php.IntToString(expectedCount);
    var rest := (if expectedCount > 1 then " have been " else " has been ") + participle;
    assert (number + rest)[..|number|] == number;
    assert (number + rest)[|number|..] == rest;
    number + rest
  }

  /** The description starts with the decimal digits of a non-negative count, which read back as that count. */
  lemma DescribeStartsWithCount(expectedCount: nat, participle: string)
    ensures var digits := Describe(expectedCount, participle)[..|Php.NatToString(expectedCount)|];
      digits == Php.NatToString(expectedCount) && Php.DigitsValue(digits) == expectedCount
  {
    Php.NatToStringRoundTrip(expectedCount);
  }

  /**
   * `$event->getTask()->getExecutionState()` for an event that carries a task:
   * a failed event carries the failed task, whose own execution state is unset.
   */
  function EventExecutionState(e: TaskEvent): Option<ExecutionState>
    requires !e.Unscheduled?
  {
    match e
    case Scheduled(t) => t.executionState
    case Executed(t, _) => t.executionState
    case Failed(_) => None
  }

  /** Whether `TaskExecuted` counts an event: an executed event, or one whose task is left incomplete. */
  predicate CountsAsExecuted(e: TaskEvent)
  {
    e.Executed? || (!e.Unscheduled? && EventExecutionState(e) == Some(Incomplete))
  }

  /**
   * What `countExecutedTasks` computes: an unscheduled event carries only a
   * name, so asking it for its task's execution state is an error; otherwise
   * the number of events it counts.
   */
  function ExecutedCount(events: seq<TaskEvent>): (r: Result<nat>)
    ensures r.Err? <==> exists i :: 0 <= i < |events| && events[i].Unscheduled?
    ensures r.Err? ==> r.error == EngineError
    ensures r.Ok? ==> r.value == |Filter(events, CountsAsExecuted, 0)| && r.value <= |events|
  {
    if exists i :: 0 <= i < |events| && events[i].Unscheduled? then Err(EngineError)
    else Ok(|Filter(events, CountsAsExecuted, 0)|)
  }

  /** Every executed event is counted: the count is at least the size of the executed view. */
  lemma ExecutedEventsCounted(events: seq<TaskEvent>)
    requires ExecutedCount(events).Ok?
    ensures |Filter(events, IsExecuted, 0)| <= ExecutedCount(events).value <= |events|
  {
    FilterMonotone(events, IsExecuted, CountsAsExecuted, 0);
  }

  /** A scheduled event is counted when, and only when, its task is incomplete. */
  lemma ScheduledCountedWhenIncomplete(events: seq<TaskEvent>, t: Task)
    requires ExecutedCount(events).Ok?
    ensures ExecutedCount(events + [Scheduled(t)]).Ok?
    ensures ExecutedCount(events + [Scheduled(t)]).value
      == ExecutedCount(events).value + (if t.executionState == Some(Incomplete) then 1 else 0)
  {
    var all := events + [Scheduled(t)];
    forall i | 0 <= i < |all|
      ensures !all[i].Unscheduled?
    {
      if i < |events| {
        assert all[i] == events[i];
      }
    }
    FilterAppend(events, CountsAsExecuted, Scheduled(t), 0);
  }

  /** `TaskQueued`. */
  class TaskQueued {
    const expectedCount: int

    constructor (expectedCount: int)
      ensures this.expectedCount == expectedCount
    {
      this.expectedCount := expectedCount;
    }

    function ToString(): (r: string)
    {
      Describe(expectedCount, "queued")
    }

    /** `countQueuedTasks`: the number of queued scheduled events, counted one event at a time. */
    method CountQueuedTasks(list: TaskEventList) returns (count: nat)
      ensures count == |list.GetQueuedTaskEvents()|
    {
      var events := list.GetEvents();
      count := 0;
      var i := 0;
      while i < |events|
        invariant i <= |events|
        invariant count == |Filter(events[..i], IsQueued, 0)|
      {
        AddEventViews(events[..i], events[i], IsQueued);
        assert events[..i + 1] == events[..i] + [events[i]];
        if events[i].Scheduled? && events[i].task.queued {
          count := count + 1;
        }
        i := i + 1;
      }
      assert events[..i] == events;
    }

    method Matches(list: TaskEventList) returns (b: bool)
      ensures b <==> expectedCount == |list.GetQueuedTaskEvents()|
    {
      var count := CountQueuedTasks(list);
      b := expectedCount == count;
    }
  }

  /** `TaskExecuted`. */
  class TaskExecuted {
    const expectedCount: int

    constructor (expectedCount: int)
      ensures this.expectedCount == expectedCount
    {
      this.expectedCount := expectedCount;
    }

    function ToString(): (r: string)
    {
      Describe(expectedCount, "executed")
    }

    /** `countExecutedTasks`, one event at a time; the first unscheduled event met is the error. */
    method CountExecutedTasks(list: TaskEventList) returns (r: Result<nat>)
      ensures r == ExecutedCount(list.events)
    {
      var events := list.GetEvents();
      var count := 0;
      var i := 0;
      while i < |events|
        invariant i <= |events|
        invariant count == |Filter(events[..i], CountsAsExecuted, 0)|
        invariant forall j :: 0 <= j < i ==> !events[j].Unscheduled?
      {
        if !events[i].Executed? && events[i].Unscheduled? {
          return Err(EngineError);
        }
        AddEventViews(events[..i], events[i], CountsAsExecuted);
        assert events[..i + 1] == events[..i] + [events[i]];
        if events[i].Executed? || EventExecutionState(events[i]) == Some(Incomplete) {
          count := count + 1;
        }
        i := i + 1;
      }
      assert events[..i] == events;
      return Ok(count);
    }

    /** `matches`: the expected count equals the computed one (or the count's error propagates). */
    method Matches(list: TaskEventList) returns (r: Result<bool>)
      ensures r.Err? <==> ExecutedCount(list.events).Err?
      ensures r.Ok? ==> (r.value <==> expectedCount == ExecutedCount(list.events).value)
    {
      var count := CountExecutedTasks(list);
      if count.Err? {
        return Err(count.error);
      }
      return Ok(expectedCount == count.value);
    }
  }
}
