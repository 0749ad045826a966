// The execution tracker: a stopwatch entry per tracked task, whose duration
// becomes the task's computation time when tracking ends.

module Tracker {
  import opened Wrappers
  import opened Tasks

  /** The stopwatch entry a task is tracked under: `task_execution.<name>`. */
  function WatchName(t: Task): string
  {
    "task_execution." + t.name
  }

  /** `startTracking`: a tracked task starts its entry; an untracked one changes nothing. */
  function Started(started: set<string>, t: Task): (r: set<string>)
    ensures t.tracked ==> r == started + {WatchName(t)}
    ensures !t.tracked ==> r == started
  {
    if !t.tracked then started else started + {WatchName(t)}
  }

  /** The stopwatch entries and the task after `endTracking`. */
  datatype Ended = Ended(started: set<string>, task: Task)

  /**
   * `endTracking`: for a tracked task whose entry is running, the entry is
   * stopped and its duration written as the computation time; otherwise
   * nothing changes.
   */
  function End(started: set<string>, t: Task, duration: int): (r: Ended)
    ensures r.started <= started
    ensures r.task == t || r.task == t.(computationTime := Some(duration))
  {
    if !t.tracked || WatchName(t) !in started then Ended(started, t)
    else Ended(started - {WatchName(t)}, t.(computationTime := Some(duration)))
  }

  /** The tracker over its stopwatch, reduced to the set of running entries. */
  class TaskExecutionTracker {
    var started: set<string>

    constructor ()
      ensures started == {}
    {
      started := {};
    }

    method StartTracking(t: Task)
      modifies this
      ensures started == Started(old(started), t)
    {
      if !t.tracked {
        return;
      }
      started := started + {WatchName(t)};
    }

    /** `duration` is what the stopwatch reports for the stopped entry. */
    method EndTracking(t: Task, duration: int) returns (task: Task)
      modifies this
      ensures Ended(started, task) == End(old(started), t, duration)
    {
      task := t;
      if !t.tracked {
        return;
      }
      if WatchName(t) !in started {
        return;
      }
      started := started - {WatchName(t)};
      task := t.(computationTime := Some(duration));
    }
  }

  /** Tracking a tracked task from start to end records the duration and leaves its entry stopped. */
  lemma StartThenEnd(started: set<string>, t: Task, duration: int)
    requires t.tracked
    ensures End(Started(started, t), t, duration) == Ended(started - {WatchName(t)}, t.(computationTime := Some(duration)))
  {
  }

  /** An untracked task is never touched. */
  lemma UntrackedUntouched(started: set<string>, t: Task, duration: int)
    requires !t.tracked
    ensures Started(started, t) == started
    ensures End(started, t, duration) == Ended(started, t)
  {
  }

  /** Ending without a matching start changes nothing. */
  lemma EndWithoutStart(started: set<string>, t: Task, duration: int)
    requires WatchName(t) !in started
    ensures End(started, t, duration) == Ended(started, t)
  {
  }

  /** Each task has its own entry: tracking one task never touches another's name. */
  lemma EntriesAreDistinct(a: Task, b: Task)
    ensures WatchName(a) == WatchName(b) <==> a.name == b.name
  {
    var p := "task_execution.";
    if WatchName(a) == WatchName(b) {
      assert a.name == WatchName(a)[|p|..];
      assert b.name == WatchName(b)[|p|..];
    }
  }
}
