// The event subscribers around the worker and the scheduler: the two that
// stop the worker (after a number of tasks, after a length of time), the one
// that feeds executions back into the scheduler, and the test logger.

module Listeners {
  import opened Wrappers
  import opened Tasks
  import Php
  import Events
  import Worker
  import Scheduler

  /** The event classes a subscriber can subscribe to. */
  datatype EventKind =
    | WorkerStartedEvent | WorkerRunningEvent | WorkerStoppedEvent
    | SingleRunTaskExecutedEvent | TaskExecutedEvent | TaskFailedEvent
    | TaskScheduledEvent | TaskUnscheduledEvent

  // ---- StopWorkerOnTaskLimitSubscriber ----

  /** The number of non-idle running events in a log. */
  function NonIdle(log: seq<Worker.WorkerEvent>): (n: nat)
    ensures n <= |log|
  {
    if log == [] then 0
    else NonIdle(log[..|log| - 1]) + (if log[|log| - 1] == Worker.WorkerRunning(false) then 1 else 0)
  }

  /**
   * Whether a task-limit subscriber that has seen the whole log stops the
   * worker at its last event: that event is a non-idle running event and
   * the count of them has reached the maximum.
   */
  predicate TaskLimitStops(maximumTasks: int, log: seq<Worker.WorkerEvent>)
  {
    log != [] && log[|log| - 1] == Worker.WorkerRunning(false) && NonIdle(log) >= maximumTasks
  }

  class StopWorkerOnTaskLimitSubscriber {
    const maximumTasks: int
    var consumedTasks: nat

    constructor (maximumTasks: int)
      ensures this.maximumTasks == maximumTasks && consumedTasks == 0
    {
      this.maximumTasks := maximumTasks;
      consumedTasks := 0;
    }

    /** `onWorkerRunning`: a non-idle event counts one task and stops the worker once the maximum is reached. */
    method OnWorkerRunning(idle: bool, worker: Worker.Worker)
      modifies this, worker
      ensures consumedTasks == old(consumedTasks) + (if idle then 0 else 1)
      ensures worker.State() == if !idle && consumedTasks >= maximumTasks then old(worker.State()).(shouldStop := true) else old(worker.State())
    {
      if !idle {
        consumedTasks := consumedTasks + 1;
        if consumedTasks >= maximumTasks {
          worker.Stop();
        }
      }
    }
  }

  function TaskLimitSubscribedEvents(): (r: map<EventKind, string>)
    ensures r.Keys == {WorkerRunningEvent}
  {
    map[WorkerRunningEvent := "onWorkerRunning"]
  }

  /**
   * The subscriber is what `TaskLimitStops` says: if its counter is the
   * log's non-idle count, then after the next event its counter is again the
   * count, and it calls `stop()` exactly when `TaskLimitStops` holds of the
   * longer log. Only running events reach it; any other event changes nothing.
   */
  lemma TaskLimitStopsIsTheSubscriber(maximumTasks: int, log: seq<Worker.WorkerEvent>, e: Worker.WorkerEvent, consumed: nat)
    requires consumed == NonIdle(log)
    ensures var counted := consumed + (if e == Worker.WorkerRunning(false) then 1 else 0);
      && NonIdle(log + [e]) == counted
      && (TaskLimitStops(maximumTasks, log + [e]) <==> e == Worker.WorkerRunning(false) && counted >= maximumTasks)
  {
    assert (log + [e])[..|log|] == log;
  }

  /** The hook the worker's environment uses for a lone task-limit subscriber. */
  function TaskLimitHook(maximumTasks: int): seq<Worker.WorkerEvent> -> bool
  {
    log => TaskLimitStops(maximumTasks, log)
  }

  // ---- StopWorkerOnTimeLimitSubscriber ----

  class StopWorkerOnTimeLimitSubscriber {
    const timeLimitInSeconds: int
    var endTime: Option<int>

    constructor (timeLimitInSeconds: int)
      ensures this.timeLimitInSeconds == timeLimitInSeconds && endTime == None
    {
      this.timeLimitInSeconds := timeLimitInSeconds;
      endTime := None;
    }

    /** `onWorkerStarted` at time `now`: the end time is set only when the worker is running; the worker is left alone. */
    method OnWorkerStarted(worker: Worker.Worker, now: int)
      modifies this
      ensures endTime == if worker.IsRunning() then Some(now + timeLimitInSeconds) else old(endTime)
    {
      if worker.IsRunning() {
        endTime := Some(now + timeLimitInSeconds);
      }
    }

    /** `onWorkerStopped` at time `now`: stop the worker when `endTime <= now`, PHP's loose comparison with null included. */
    method OnWorkerStopped(worker: Worker.Worker, now: int)
      modifies worker
      ensures worker.State() == if Php.LessEq(endTime, Some(now)) then old(worker.State()).(shouldStop := true) else old(worker.State())
    {
      if Php.LessEq(endTime, Some(now)) {
        worker.Stop();
      }
    }
  }

  function TimeLimitSubscribedEvents(): (r: map<EventKind, string>)
    ensures r.Keys == {WorkerStartedEvent, WorkerStoppedEvent}
  {
    map[WorkerStartedEvent := "onWorkerStarted", WorkerStoppedEvent := "onWorkerStopped"]
  }

  /** The end time a time-limit subscriber holds after the Started events of a log, with the clock at each event given. */
  function EndTimeAfter(log: seq<Worker.WorkerEvent>, clock: nat -> int, timeLimitInSeconds: int): Option<int>
  {
    if log == [] then None
    else
      var last := log[|log| - 1];
      if last.WorkerStarted? && last.running then Some(clock(|log| - 1) + timeLimitInSeconds)
      else EndTimeAfter(log[..|log| - 1], clock, timeLimitInSeconds)
  }

  /**
   * The worker dispatches WorkerStarted only while it is not running, so the
   * time-limit subscriber never sets its end time, and since PHP takes null as
   * less than any number it calls `stop()` at every WorkerStopped event.
   */
  lemma {:induction false} TimeLimitNeverArmed(log: seq<Worker.WorkerEvent>, clock: nat -> int, timeLimitInSeconds: int, now: int)
    requires Worker.StartsIdle(log)
    ensures EndTimeAfter(log, clock, timeLimitInSeconds) == None
    ensures Php.LessEq(EndTimeAfter(log, clock, timeLimitInSeconds), Some(now))
  {
    if log != [] {
      var init := log[..|log| - 1];
      assert forall i :: 0 <= i < |init| ==> init[i] == log[i];
      TimeLimitNeverArmed(init, clock, timeLimitInSeconds, now);
    }
  }

  /** The end time, once set, stops the worker exactly when the limit has elapsed. */
  lemma TimeLimitElapsed(start: int, timeLimitInSeconds: int, now: int)
    ensures Php.LessEq(Some(start + timeLimitInSeconds), Some(now)) <==> now - start >= timeLimitInSeconds
  {
  }

  // ---- TaskExecutionSubscriber ----

  class TaskExecutionSubscriber {
    const scheduler: Scheduler.Scheduler

    constructor (scheduler: Scheduler.Scheduler)
      ensures this.scheduler == scheduler
    {
      this.scheduler := scheduler;
    }

    /** `onSingleRunTaskExecuted`: a single-run task is unscheduled by its name once it has run. */
    method OnSingleRunTaskExecuted(task: Task)
      requires scheduler.Valid()
      modifies scheduler, scheduler.transport
      ensures scheduler.Valid()
      ensures scheduler.transport.tasks == Remove(old(scheduler.transport.tasks), task.name)
      ensures scheduler.events == old(scheduler.events) + scheduler.Logged(Scheduler.TaskEvent(Events.Unscheduled(task.name)))
      ensures scheduler.messages == old(scheduler.messages)
    {
      scheduler.Unschedule(task.name);
    }

    /** `onTaskExecuted`: the executed task is written back under its name. */
    method OnTaskExecuted(task: Task)
      ensures scheduler.transport.tasks == old(scheduler.transport.tasks)
    {
      scheduler.Update(task.name, task);
    }
  }

  function TaskExecutionSubscribedEvents(): (r: map<EventKind, string>)
    ensures r.Keys == {SingleRunTaskExecutedEvent, TaskExecutedEvent}
  {
    map[SingleRunTaskExecutedEvent := "onSingleRunTaskExecuted", TaskExecutedEvent := "onTaskExecuted"]
  }

  // ---- TaskLoggerSubscriber ----

  class TaskLoggerSubscriber {
    const events: Events.TaskEventList

    constructor ()
      ensures fresh(events) && events.events == []
    {
      events := new Events.TaskEventList();
    }

    /** `onTask`: the event is appended to the list. */
    method OnTask(e: Events.TaskEvent)
      modifies events
      ensures events.events == old(events.events) + [e]
    {
      events.AddEvent(e);
    }

    function GetEvents(): Events.TaskEventList
    {
      events
    }
  }

  /** The event class of each task event. */
  function KindOf(e: Events.TaskEvent): EventKind
  {
    match e
    case Scheduled(_) => TaskScheduledEvent
    case Unscheduled(_) => TaskUnscheduledEvent
    case Executed(_, _) => TaskExecutedEvent
    case Failed(_) => TaskFailedEvent
  }

  /** The logger listens to the four task events, each with `onTask` at priority -255, after every other listener. */
  function LoggerSubscribedEvents(): (r: map<EventKind, (string, int)>)
    ensures forall e: Events.TaskEvent :: KindOf(e) in r && r[KindOf(e)] == ("onTask", -255)
    ensures forall k :: k in r ==> exists e: Events.TaskEvent :: KindOf(e) == k
  {
    var r := map[TaskExecutedEvent := ("onTask", -255), TaskFailedEvent := ("onTask", -255),
                 TaskScheduledEvent := ("onTask", -255), TaskUnscheduledEvent := ("onTask", -255)];
    assert KindOf(Events.Unscheduled("")) == TaskUnscheduledEvent;
    assert KindOf(Events.Failed(FailedTask(Named("", ""), ""))) == TaskFailedEvent;
    assert KindOf(Events.Scheduled(Named("", ""))) == TaskScheduledEvent;
    assert KindOf(Events.Executed(Named("", ""), None)) == TaskExecutedEvent;
    r
  }
}
