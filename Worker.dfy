// The worker: fetches due tasks, checks their state, hands each one to the
// runners that support it under a lock, records failures, and stops when a
// listener asks it to. The outside world it talks to (runners, the lock
// store, the clock, the stopwatch's durations, the scheduler's due tasks and
// the listeners behind the event dispatcher) is given as an environment.

module Worker {
  import opened Wrappers
  import opened Tasks
  import Tracker

  /** The events the worker dispatches, with what listeners read from them. */
  datatype WorkerEvent =
    | WorkerStarted(running: bool)
    | WorkerRunning(idle: bool)
    | WorkerStopped
    | WorkerRestarted
    | SingleRunTaskExecuted(task: Task)
    | TaskExecuting(task: Task)
    | TaskExecuted(task: Task, output: Output)
    | TaskFailed(failed: FailedTask)

  /** What a runner's `run` does: hands back the task it ran and an output, or throws with a message. */
  datatype RunResult = Ran(task: Task, output: Output) | RunThrew(message: string)

  /** A call of `run` on the runner at index `runner`, for the task `support` accepted. */
  datatype RunCall = RunCall(runner: nat, task: Task)

  /**
   * The worker's surroundings:
   * - `runners` runners, with their `supports` and `run`;
   * - `acquire`, whether the lock taken at a given tick is acquired;
   * - `clock`, the time read at a given tick, and `duration`, what the stopwatch reports then;
   * - `due`, the scheduler's due tasks on the n-th request (or what it throws);
   * - `dispatcher`, whether an event dispatcher is set, and `stopHook`, whether
   *   the listeners call `stop()` when the last event of the log is dispatched.
   */
  datatype Env = Env(
    runners: nat,
    supports: (nat, Task) -> bool,
    run: (nat, Task) -> RunResult,
    acquire: nat -> bool,
    clock: nat -> int,
    duration: nat -> int,
    due: nat -> Result<seq<Task>>,
    dispatcher: bool,
    stopHook: seq<WorkerEvent> -> bool)

  /** Everything the worker changes: its own flags and failed tasks, and what it did to its surroundings. */
  datatype WState = WState(
    running: bool,
    shouldStop: bool,
    failed: map<string, FailedTask>,
    held: set<string>,
    watch: set<string>,
    events: seq<WorkerEvent>,
    runs: seq<RunCall>,
    ticks: nat,
    fetches: nat)

  /** How one task went: skipped for its state, handed to the runners, or refused with an exception. */
  datatype Step = Skipped | Attempted | Rejected(error: Exception)

  /** How a pass over the tasks ended: all done, stopped, or aborted by an exception. */
  datatype Pass = Completed | Halted | Aborted(error: Exception)

  /** How `execute` ended: stopped, thrown, or cut off by the fuel bound. */
  datatype Status = Stopped | Raised(error: Exception) | OutOfFuel

  /** What a `handleTask` call leaves: the state, the task as stamped, and the runner's exception message if it threw. */
  datatype Handled = Handled(state: WState, task: Task, thrown: Option<string>)

  /** What an attempt leaves: the state and the task as the next runner sees it. */
  datatype Turn = Turn(state: WState, task: Task)

  const NoRunnerMessage: string := "No runner found"
  const UndefinedStateMessage: string := "The task state must be defined in order to be executed!"

  function Initial(): WState
  {
    WState(false, false, map[], {}, {}, [], [], 0, 0)
  }

  // ---- the specification, layer by layer ----

  /** `dispatch(event)`: with a dispatcher, the event is logged and the listeners may stop the worker. */
  function DispatchSpec(env: Env, s: WState, e: WorkerEvent): (r: WState)
    ensures r.running == s.running && r.failed == s.failed && r.held == s.held && r.watch == s.watch
    ensures r.runs == s.runs && r.ticks == s.ticks && r.fetches == s.fetches
    ensures r.events == (if env.dispatcher then s.events + [e] else s.events)
    ensures s.shouldStop ==> r.shouldStop
  {
    if !env.dispatcher then s
    else
      var log := s.events + [e];
      s.(events := log, shouldStop := s.shouldStop || env.stopHook(log))
  }

  /** The task with its arrival and start times read from the clock at `ticks` and `ticks + 1`. */
  function Stamped(env: Env, t: Task, ticks: nat): (r: Task)
    ensures r.name == t.name && r.state == t.state && r.tracked == t.tracked
    ensures r.arrivalTime == Some(env.clock(ticks)) && r.executionStartTime == Some(env.clock(ticks + 1))
  {
    t.(arrivalTime := Some(env.clock(ticks)), executionStartTime := Some(env.clock(ticks + 1)))
  }

  /** `handleTask(runner, task)`: Executing, two time stamps, start tracking, run; on success end tracking, two more stamps, Executed. */
  function HandleTaskSpec(env: Env, r: nat, t: Task, s: WState): Handled
  {
    var s1 := DispatchSpec(env, s, TaskExecuting(t));
    var stamped := Stamped(env, t, s1.ticks);
    var s2 := s1.(ticks := s1.ticks + 2, watch := Tracker.Started(s1.watch, stamped), runs := s1.runs + [RunCall(r, t)]);
    match env.run(r, stamped)
    case RunThrew(m) => Handled(s2, stamped, Some(m))
    case Ran(ran, output) => FinishSpec(env, s2, ran, output)
  }

  /** The rest of `handleTask` once `run` has returned: end tracking, two more time stamps, then Executed. */
  function FinishSpec(env: Env, s: WState, ran: Task, output: Output): Handled
  {
    var ended := Tracker.End(s.watch, ran, env.duration(s.ticks));
    var done := ended.task.(executionEndTime := Some(env.clock(s.ticks + 1)), lastExecution := Some(env.clock(s.ticks + 2)));
    var s1 := s.(watch := ended.started, ticks := s.ticks + 3);
    Handled(DispatchSpec(env, s1, TaskExecuted(done, output)), done, None)
  }

  /** The `finally` block: release the lock, clear `running`, and say the worker is idle. */
  function Release(env: Env, s: WState, name: string): WState
  {
    DispatchSpec(env, s.(held := s.held - {name}, running := false), WorkerRunning(true))
  }

  /** The `try` and `catch` blocks once the lock is held: mark running, handle the task, record a failure. */
  function TrySpec(env: Env, r: nat, t: Task, s: WState): Turn
  {
    var s1 := DispatchSpec(env, s.(running := true), WorkerRunning(false));
    var h := HandleTaskSpec(env, r, t, s1);
    match h.thrown
    case None => Turn(h.state, h.task)
    case Some(m) =>
      var ft := FailedTask(h.task, m);
      Turn(DispatchSpec(env, h.state.(failed := h.state.failed[FailedName(ft) := ft]), TaskFailed(ft)), h.task)
  }

  /**
   * One supporting runner's turn (the body of the runners loop): the
   * single-run event, the lock, and when the lock is acquired and the worker
   * is not running the `try` block, then the `finally` block.
   */
  function AttemptSpec(env: Env, r: nat, t: Task, s: WState): Turn
  {
    var (acquired, s1) := LockSpec(env, t, s);
    var tried := if acquired && !s1.running then TrySpec(env, r, t, s1) else Turn(s1, t);
    Turn(Release(env, tried.state, t.name), tried.task)
  }

  /** `handleSingleRunTask`, then `getLock` and `acquire`: whether the lock on the task's name was acquired. */
  function LockSpec(env: Env, t: Task, s: WState): (bool, WState)
  {
    var s1 := if t.singleRun then DispatchSpec(env, s, SingleRunTaskExecuted(t)) else s;
    var acquired := env.acquire(s1.ticks);
    (acquired, s1.(ticks := s1.ticks + 1, held := if acquired then s1.held + {t.name} else s1.held))
  }

  /** The runners loop from runner `r` on: skip the unsupporting ones; after an attempt, leave if the worker must stop. */
  function RunnersSpec(env: Env, t: Task, s: WState, r: nat): (a: Turn)
    ensures a.state.fetches == s.fetches
    decreases env.runners - r
  {
    if r >= env.runners then Turn(s, t)
    else if !env.supports(r, t) then RunnersSpec(env, t, s, r + 1)
    else
      var a := AttemptSpec(env, r, t, s);
      if a.state.shouldStop then a else RunnersSpec(env, a.task, a.state, r + 1)
  }

  /** `checkTaskState`: an undefined task is an error, a paused or disabled one is skipped. */
  function CheckTaskState(t: Task): (r: Result<bool>)
    ensures r.Err? <==> t.state == Undefined
    ensures r.Err? ==> r.error == Logic(UndefinedStateMessage)
    ensures r == Ok(false) <==> t.state in {Paused, Disabled}
  {
    if t.state == Undefined then Err(Logic(UndefinedStateMessage))
    else if t.state == Paused || t.state == Disabled then Ok(false)
    else Ok(true)
  }

  /** One task of the tasks loop: its state check, a running event, then the runners. */
  function TaskStep(env: Env, t: Task, s: WState): (r: (Step, WState))
    ensures t.state == Undefined ==> r == (Rejected(Logic(UndefinedStateMessage)), s)
    ensures t.state in {Paused, Disabled} ==> r == (Skipped, s)
    ensures r.0 == Attempted <==> t.state !in {Undefined, Paused, Disabled}
    ensures r.1.fetches == s.fetches
  {
    match CheckTaskState(t)
    case Err(e) => (Rejected(e), s)
    case Ok(false) => (Skipped, s)
    case Ok(true) => (Attempted, RunnersSpec(env, t, DispatchSpec(env, s, WorkerRunning(false)), 0).state)
  }

  /** The tasks loop from task `i` on; a stop after a task that reached the runners ends the pass. */
  function TasksSpec(env: Env, ts: seq<Task>, i: nat, s: WState): (r: (Pass, WState))
    ensures r.0 == Halted ==> r.1.shouldStop
    ensures r.0.Aborted? ==> r.0.error == Logic(UndefinedStateMessage)
    ensures r.1.fetches == s.fetches
    decreases |ts| - i
  {
    if i >= |ts| then (Completed, s)
    else match TaskStep(env, ts[i], s)
      case (Rejected(e), s1) => (Aborted(e), s1)
      case (Skipped, s1) => TasksSpec(env, ts, i + 1, s1)
      case (Attempted, s1) => if s1.shouldStop then (Halted, s1) else TasksSpec(env, ts, i + 1, s1)
  }

  /** The tasks of a pass: those given, or when none are, the scheduler's due tasks. */
  function FetchIfEmpty(env: Env, tasks: seq<Task>, s: WState): (Result<seq<Task>>, WState)
  {
    if tasks != [] then (Ok(tasks), s)
    else (env.due(s.fetches), s.(fetches := s.fetches + 1))
  }

  /**
   * One `execute` call after its runner check: Started, then the loop; a pass
   * that completes makes the nested `execute` call, and every call ends with
   * its own Stopped event.
   */
  function RunSpec(env: Env, tasks: seq<Task>, s: WState, fuel: nat): (r: (Status, WState))
    ensures r.0 == Stopped ==> r.1.shouldStop
    ensures s.fetches <= r.1.fetches
    ensures r.0.Raised? ==> r.0.error == Logic(UndefinedStateMessage) || exists n :: s.fetches <= n < r.1.fetches && env.due(n) == Err(r.0.error)
    decreases fuel
  {
    if fuel == 0 then (OutOfFuel, s)
    else
      var s1 := DispatchSpec(env, s, WorkerStarted(s.running));
      if s1.shouldStop then (Stopped, DispatchSpec(env, s1, WorkerStopped))
      else
        var (fetched, s2) := FetchIfEmpty(env, tasks, s1);
        match fetched
        case Err(e) => (Raised(e), s2)
        case Ok(ts) =>
          var (pass, s3) := TasksSpec(env, ts, 0, s2);
          match pass
          case Aborted(e) => (Raised(e), s3)
          case Halted => (Stopped, DispatchSpec(env, s3, WorkerStopped))
          case Completed =>
            var (inner, s4) := RunSpec(env, [], s3, fuel - 1);
            if inner == Stopped then (Stopped, DispatchSpec(env, s4, WorkerStopped)) else (inner, s4)
  }

  /** `execute(options, tasks)`: without runners it throws before doing anything. */
  function ExecuteSpec(env: Env, tasks: seq<Task>, s: WState, fuel: nat): (r: (Status, WState))
    ensures env.runners == 0 ==> r == (Raised(UndefinedRunner(NoRunnerMessage)), s)
    ensures r.0.Raised? && env.runners > 0 ==> r.0.error == Logic(UndefinedStateMessage) || exists n :: s.fetches <= n < r.1.fetches && env.due(n) == Err(r.0.error)
  {
    if env.runners == 0 then (Raised(UndefinedRunner(NoRunnerMessage)), s)
    else RunSpec(env, tasks, s, fuel)
  }

  /** `restart()`: stop, clear `running` and the failed tasks, un-stop, then the Restarted event. */
  function RestartSpec(env: Env, s: WState): (r: WState)
    ensures !r.running && r.failed == map[]
    ensures r.shouldStop <==> env.dispatcher && env.stopHook(s.events + [WorkerRestarted])
    ensures r.events == (if env.dispatcher then s.events + [WorkerRestarted] else s.events)
    ensures r.held == s.held && r.runs == s.runs && r.fetches == s.fetches
  {
    DispatchSpec(env, s.(shouldStop := false, running := false, failed := map[]), WorkerRestarted)
  }

  // ---- the worker as PHP runs it ----

  class Worker {
    const env: Env
    var running: bool
    var shouldStop: bool
    var failedTasks: map<string, FailedTask>
    /** The lock store: names of the locks this worker holds. */
    var held: set<string>
    /** The tracker's stopwatch: the entries started and not stopped. */
    var watch: set<string>
    /** What the event dispatcher received, in order. */
    var events: seq<WorkerEvent>
    var runs: seq<RunCall>
    var ticks: nat
    var fetches: nat

    function State(): WState
      reads this
    {
      WState(running, shouldStop, failedTasks, held, watch, events, runs, ticks, fetches)
    }

    constructor (env: Env)
      ensures this.env == env && State() == Initial()
    {
      this.env := env;
      running := false;
      shouldStop := false;
      failedTasks := map[];
      held := {};
      watch := {};
      events := [];
      runs := [];
      ticks := 0;
      fetches := 0;
    }

    function IsRunning(): bool
      reads this
    {
      running
    }

    function GetFailedTasks(): map<string, FailedTask>
      reads this
    {
      failedTasks
    }

    method Stop()
      modifies this
      ensures State() == old(State()).(shouldStop := true)
    {
      shouldStop := true;
    }

    method Restart()
      modifies this
      ensures State() == RestartSpec(env, old(State()))
    {
      Stop();
      running := false;
      failedTasks := map[];
      shouldStop := false;
      Dispatch(WorkerRestarted);
    }

    method Dispatch(e: WorkerEvent)
      modifies this
      ensures State() == DispatchSpec(env, old(State()), e)
    {
      if !env.dispatcher {
        return;
      }
      events := events + [e];
      if env.stopHook(events) {
        shouldStop := true;
      }
    }

    method HandleTask(r: nat, t: Task) returns (task: Task, thrown: Option<string>)
      modifies this
      ensures Handled(State(), task, thrown) == HandleTaskSpec(env, r, t, old(State()))
    {
      Dispatch(TaskExecuting(t));
      task := t.(arrivalTime := Some(env.clock(ticks)));
      task := task.(executionStartTime := Some(env.clock(ticks + 1)));
      ticks := ticks + 2;
      watch := Tracker.Started(watch, task);
      runs := runs + [RunCall(r, t)];
      match env.run(r, task) {
        case RunThrew(m) =>
          thrown := Some(m);
        case Ran(ran, output) =>
          task := Finish(ran, output);
          thrown := None;
      }
    }

    method Finish(ran: Task, output: Output) returns (task: Task)
      modifies this
      ensures Handled(State(), task, None) == FinishSpec(env, old(State()), ran, output)
    {
      var ended := Tracker.End(watch, ran, env.duration(ticks));
      watch := ended.started;
      task := ended.task.(executionEndTime := Some(env.clock(ticks + 1)));
      task := task.(lastExecution := Some(env.clock(ticks + 2)));
      ticks := ticks + 3;
      Dispatch(TaskExecuted(task, output));
    }

    method Try(r: nat, t: Task) returns (task: Task)
      modifies this
      ensures Turn(State(), task) == TrySpec(env, r, t, old(State()))
    {
      running := true;
      Dispatch(WorkerRunning(false));
      var thrown;
      task, thrown := HandleTask(r, t);
      if thrown.Some? {
        var failedTask := FailedTask(task, thrown.value);
        failedTasks := failedTasks[FailedName(failedTask) := failedTask];
        Dispatch(TaskFailed(failedTask));
      }
    }

    method Lock(t: Task) returns (acquired: bool)
      modifies this
      ensures (acquired, State()) == LockSpec(env, t, old(State()))
    {
      if t.singleRun {
        Dispatch(SingleRunTaskExecuted(t));
      }
      acquired := env.acquire(ticks);
      ticks := ticks + 1;
      if acquired {
        held := held + {t.name};
      }
    }

    method Attempt(r: nat, t: Task) returns (task: Task)
      modifies this
      ensures Turn(State(), task) == AttemptSpec(env, r, t, old(State()))
    {
      var acquired := Lock(t);
      task := t;
      if acquired && !running {
        task := Try(r, t);
      }
      held := held - {t.name};
      running := false;
      Dispatch(WorkerRunning(true));
    }

    method Runners(t: Task) returns (task: Task)
      modifies this
      ensures Turn(State(), task) == RunnersSpec(env, t, old(State()), 0)
    {
      task := t;
      var r := 0;
      while r < env.runners
        invariant r <= env.runners
        invariant RunnersSpec(env, t, old(State()), 0) == RunnersSpec(env, task, State(), r)
      {
        if env.supports(r, task) {
          task := Attempt(r, task);
          if shouldStop {
            return;
          }
        }
        r := r + 1;
      }
    }

    method RunTasks(ts: seq<Task>) returns (pass: Pass)
      modifies this
      ensures (pass, State()) == TasksSpec(env, ts, 0, old(State()))
    {
      var i := 0;
      while i < |ts|
        invariant i <= |ts|
        invariant TasksSpec(env, ts, 0, old(State())) == TasksSpec(env, ts, i, State())
      {
        var task := ts[i];
        var checked := CheckTaskState(task);
        if checked.Err? {
          return Aborted(checked.error);
        }
        if checked.value {
          Dispatch(WorkerRunning(false));
          var _ := Runners(task);
          if shouldStop {
            return Halted;
          }
        }
        i := i + 1;
      }
      return Completed;
    }

    /** One `execute` call after the runner check; `fuel` bounds the nesting of its calls. */
    method Run(tasks: seq<Task>, fuel: nat) returns (status: Status)
      modifies this
      ensures (status, State()) == RunSpec(env, tasks, old(State()), fuel)
      decreases fuel
    {
      if fuel == 0 {
        return OutOfFuel;
      }
      Dispatch(WorkerStarted(running));
      ghost var started := State();
      var current := tasks;
      while !shouldStop
        invariant !shouldStop ==> State() == started && current == tasks
        invariant shouldStop ==> RunSpec(env, tasks, old(State()), fuel) == (Stopped, DispatchSpec(env, State(), WorkerStopped))
        decreases !shouldStop
      {
        if current == [] {
          var due := env.due(fetches);
          fetches := fetches + 1;
          if due.Err? {
            return Raised(due.error);
          }
          current := due.value;
        }
        assert FetchIfEmpty(env, tasks, started) == (Ok(current), State());
        ghost var fetched := State();
        var pass := RunTasks(current);
        if pass.Aborted? {
          return Raised(pass.error);
        }
        if pass.Completed? {
          ghost var passed := State();
          var inner := Run([], fuel - 1);
          if inner != Stopped {
            return inner;
          }
          assert RunSpec(env, tasks, old(State()), fuel) == (Stopped, DispatchSpec(env, State(), WorkerStopped)) by {
            assert TasksSpec(env, current, 0, fetched) == (Completed, passed);
          }
        } else {
          assert RunSpec(env, tasks, old(State()), fuel) == (Stopped, DispatchSpec(env, State(), WorkerStopped)) by {
            assert TasksSpec(env, current, 0, fetched) == (Halted, State());
          }
        }
      }
      Dispatch(WorkerStopped);
      return Stopped;
    }

    method Execute(tasks: seq<Task>, fuel: nat) returns (status: Status)
      modifies this
      ensures (status, State()) == ExecuteSpec(env, tasks, old(State()), fuel)
    {
      if env.runners == 0 {
        return Raised(UndefinedRunner(NoRunnerMessage));
      }
      status := Run(tasks, fuel);
    }
  }

  // ---- what the worker promises ----

  /** Every run so far was of a runner that exists and supports the task it was given. */
  ghost predicate RunsSupported(env: Env, runs: seq<RunCall>)
  {
    forall i :: 0 <= i < |runs| ==> runs[i].runner < env.runners && env.supports(runs[i].runner, runs[i].task)
  }

  /** Every Started event so far went out while the worker was not running. */
  ghost predicate StartsIdle(events: seq<WorkerEvent>)
  {
    forall i :: 0 <= i < |events| && events[i].WorkerStarted? ==> !events[i].running
  }

  /** What holds between two attempts: the runs were supported, the Started events idle, and the worker is not running. */
  ghost predicate Settled(env: Env, s: WState)
  {
    RunsSupported(env, s.runs) && StartsIdle(s.events) && !s.running
  }

  lemma InitialSettled(env: Env)
    ensures Settled(env, Initial())
  {
  }

  lemma DispatchKeepsLogs(env: Env, s: WState, e: WorkerEvent)
    requires RunsSupported(env, s.runs) && StartsIdle(s.events)
    requires e.WorkerStarted? ==> !e.running
    ensures RunsSupported(env, DispatchSpec(env, s, e).runs) && StartsIdle(DispatchSpec(env, s, e).events)
  {
    var r := DispatchSpec(env, s, e);
    forall i | 0 <= i < |r.events| && r.events[i].WorkerStarted?
      ensures !r.events[i].running
    {
      if i < |s.events| {
        assert r.events[i] == s.events[i];
      }
    }
  }

  lemma HandleTaskKeepsLogs(env: Env, r: nat, t: Task, s: WState)
    requires RunsSupported(env, s.runs) && StartsIdle(s.events)
    requires r < env.runners && env.supports(r, t)
    ensures RunsSupported(env, HandleTaskSpec(env, r, t, s).state.runs)
    ensures StartsIdle(HandleTaskSpec(env, r, t, s).state.events)
  {
    DispatchKeepsLogs(env, s, TaskExecuting(t));
    var s1 := DispatchSpec(env, s, TaskExecuting(t));
    var s2 := s1.(ticks := s1.ticks + 2, watch := Tracker.Started(s1.watch, Stamped(env, t, s1.ticks)), runs := s1.runs + [RunCall(r, t)]);
    assert RunsSupported(env, s2.runs) by {
      forall i | 0 <= i < |s2.runs|
        ensures s2.runs[i].runner < env.runners && env.supports(s2.runs[i].runner, s2.runs[i].task)
      {
        if i < |s1.runs| {
          assert s2.runs[i] == s1.runs[i];
        }
      }
    }
    match env.run(r, Stamped(env, t, s1.ticks))
    case RunThrew(m) =>
    case Ran(ran, output) =>
      var ended := Tracker.End(s2.watch, ran, env.duration(s2.ticks));
      var done := ended.task.(executionEndTime := Some(env.clock(s2.ticks + 1)), lastExecution := Some(env.clock(s2.ticks + 2)));
      DispatchKeepsLogs(env, s2.(watch := ended.started, ticks := s2.ticks + 3), TaskExecuted(done, output));
  }

  lemma TryKeepsLogs(env: Env, r: nat, t: Task, s: WState)
    requires RunsSupported(env, s.runs) && StartsIdle(s.events)
    requires r < env.runners && env.supports(r, t)
    ensures RunsSupported(env, TrySpec(env, r, t, s).state.runs) && StartsIdle(TrySpec(env, r, t, s).state.events)
  {
    var s1 := DispatchSpec(env, s.(running := true), WorkerRunning(false));
    DispatchKeepsLogs(env, s.(running := true), WorkerRunning(false));
    HandleTaskKeepsLogs(env, r, t, s1);
    var h := HandleTaskSpec(env, r, t, s1);
    if h.thrown.Some? {
      var ft := FailedTask(h.task, h.thrown.value);
      DispatchKeepsLogs(env, h.state.(failed := h.state.failed[FailedName(ft) := ft]), TaskFailed(ft));
    }
  }

  lemma AttemptKeepsSettled(env: Env, r: nat, t: Task, s: WState)
    requires Settled(env, s)
    requires r < env.runners && env.supports(r, t)
    ensures Settled(env, AttemptSpec(env, r, t, s).state)
  {
    var s0 := if t.singleRun then DispatchSpec(env, s, SingleRunTaskExecuted(t)) else s;
    if t.singleRun {
      DispatchKeepsLogs(env, s, SingleRunTaskExecuted(t));
    }
    var (acquired, s1) := LockSpec(env, t, s);
    assert s1.runs == s0.runs && s1.events == s0.events;
    var tried := if acquired && !s1.running then TrySpec(env, r, t, s1) else Turn(s1, t);
    if acquired && !s1.running {
      TryKeepsLogs(env, r, t, s1);
    }
    DispatchKeepsLogs(env, tried.state.(held := tried.state.held - {t.name}, running := false), WorkerRunning(true));
  }

  lemma {:induction false} RunnersKeepSettled(env: Env, t: Task, s: WState, r: nat)
    requires Settled(env, s)
    ensures Settled(env, RunnersSpec(env, t, s, r).state)
    decreases env.runners - r
  {
    if r >= env.runners {
    } else if !env.supports(r, t) {
      RunnersKeepSettled(env, t, s, r + 1);
    } else {
      AttemptKeepsSettled(env, r, t, s);
      var a := AttemptSpec(env, r, t, s);
      if !a.state.shouldStop {
        RunnersKeepSettled(env, a.task, a.state, r + 1);
      }
    }
  }

  lemma {:induction false} TasksKeepSettled(env: Env, ts: seq<Task>, i: nat, s: WState)
    requires Settled(env, s)
    ensures Settled(env, TasksSpec(env, ts, i, s).1)
    decreases |ts| - i
  {
    if i < |ts| {
      if CheckTaskState(ts[i]) == Ok(true) {
        var s1 := DispatchSpec(env, s, WorkerRunning(false));
        DispatchKeepsLogs(env, s, WorkerRunning(false));
        RunnersKeepSettled(env, ts[i], s1, 0);
      }
      var (step, s1) := TaskStep(env, ts[i], s);
      if step == Skipped || (step == Attempted && !s1.shouldStop) {
        TasksKeepSettled(env, ts, i + 1, s1);
      }
    }
  }

  /**
   * Across a whole `execute`, only existing runners that support a task are
   * asked to run it, and the worker is never running when it announces a
   * start: so a listener reading `isRunning()` on WorkerStarted always reads false.
   */
  lemma {:induction false} RunKeepsSettled(env: Env, tasks: seq<Task>, s: WState, fuel: nat)
    requires Settled(env, s)
    ensures Settled(env, RunSpec(env, tasks, s, fuel).1)
    decreases fuel
  {
    if fuel > 0 {
      var s1 := DispatchSpec(env, s, WorkerStarted(s.running));
      DispatchKeepsLogs(env, s, WorkerStarted(s.running));
      if s1.shouldStop {
        DispatchKeepsLogs(env, s1, WorkerStopped);
      } else {
        var (fetched, s2) := FetchIfEmpty(env, tasks, s1);
        if fetched.Ok? {
          TasksKeepSettled(env, fetched.value, 0, s2);
          var (pass, s3) := TasksSpec(env, fetched.value, 0, s2);
          if pass == Halted {
            DispatchKeepsLogs(env, s3, WorkerStopped);
          } else if pass == Completed {
            RunKeepsSettled(env, [], s3, fuel - 1);
            var (inner, s4) := RunSpec(env, [], s3, fuel - 1);
            DispatchKeepsLogs(env, s4, WorkerStopped);
          }
        }
      }
    }
  }

  lemma ExecuteKeepsSettled(env: Env, tasks: seq<Task>, s: WState, fuel: nat)
    requires Settled(env, s)
    ensures Settled(env, ExecuteSpec(env, tasks, s, fuel).1)
  {
    if env.runners > 0 {
      RunKeepsSettled(env, tasks, s, fuel);
    }
  }

  /** A worker stopped before `execute` only announces its start and its stop: no due tasks are fetched and no runner runs. */
  lemma StoppedBeforeExecute(env: Env, tasks: seq<Task>, s: WState, fuel: nat)
    requires s.shouldStop && env.runners > 0 && fuel > 0
    ensures ExecuteSpec(env, tasks, s, fuel).0 == Stopped
    ensures ExecuteSpec(env, tasks, s, fuel).1.events
      == s.events + (if env.dispatcher then [WorkerStarted(s.running), WorkerStopped] else [])
    ensures ExecuteSpec(env, tasks, s, fuel).1.fetches == s.fetches
    ensures ExecuteSpec(env, tasks, s, fuel).1.runs == s.runs
  {
  }

  /** A task whose state is undefined, met first, makes `execute` throw the logic error before any runner runs. */
  lemma UndefinedTaskRaises(env: Env, tasks: seq<Task>, s: WState, fuel: nat)
    requires env.runners > 0 && fuel > 0 && tasks != [] && tasks[0].state == Undefined
    requires !DispatchSpec(env, s, WorkerStarted(s.running)).shouldStop
    ensures ExecuteSpec(env, tasks, s, fuel).0 == Raised(Logic(UndefinedStateMessage))
    ensures ExecuteSpec(env, tasks, s, fuel).1.runs == s.runs
    ensures ExecuteSpec(env, tasks, s, fuel).1.fetches == s.fetches
  {
    var s1 := DispatchSpec(env, s, WorkerStarted(s.running));
    assert TaskStep(env, tasks[0], s1) == (Rejected(Logic(UndefinedStateMessage)), s1);
  }

  /** Paused and disabled tasks reach no runner: a pass over only such tasks changes nothing. */
  lemma {:induction false} InactiveTasksUntouched(env: Env, ts: seq<Task>, i: nat, s: WState)
    requires forall j :: i <= j < |ts| ==> ts[j].state in {Paused, Disabled}
    ensures TasksSpec(env, ts, i, s) == (Completed, s)
    decreases |ts| - i
  {
    if i < |ts| {
      assert TaskStep(env, ts[i], s) == (Skipped, s);
      InactiveTasksUntouched(env, ts, i + 1, s);
    }
  }

  /**
   * An attempt runs the runner exactly when the task's lock was acquired and
   * the worker was not running; either way it ends with the lock released and
   * the worker not running.
   */
  lemma AttemptLocking(env: Env, r: nat, t: Task, s: WState)
    ensures var (acquired, locked) := LockSpec(env, t, s);
      AttemptSpec(env, r, t, s).state.runs == (if acquired && !locked.running then s.runs + [RunCall(r, t)] else s.runs)
    ensures AttemptSpec(env, r, t, s).state.held == s.held - {t.name}
    ensures !AttemptSpec(env, r, t, s).state.running
  {
    var (acquired, locked) := LockSpec(env, t, s);
    if acquired && !locked.running {
      var s1 := DispatchSpec(env, locked.(running := true), WorkerRunning(false));
      var h := HandleTaskSpec(env, r, t, s1);
      assert h.state.runs == s.runs + [RunCall(r, t)];
      assert h.state.held == s.held + {t.name};
    }
  }

  /**
   * When `run` throws, exactly one failed task is recorded, under its failed
   * name and with the exception's message as its reason; the Failed event is
   * dispatched; and the stopwatch entry is left running, since `endTracking`
   * is never reached.
   */
  lemma TryFailure(env: Env, r: nat, t: Task, s: WState, m: string)
    requires env.run(r, Stamped(env, t, s.ticks)) == RunThrew(m)
    ensures var ft := FailedTask(Stamped(env, t, s.ticks), m);
      var out := TrySpec(env, r, t, s);
      && out.state.failed == s.failed[FailedName(ft) := ft]
      && out.state.watch == Tracker.Started(s.watch, Stamped(env, t, s.ticks))
      && out.state.runs == s.runs + [RunCall(r, t)]
      && out.state.events == s.events + (if env.dispatcher then [WorkerRunning(false), TaskExecuting(t), TaskFailed(ft)] else [])
  {
  }

  /** When `run` returns, no failure is recorded and the stopwatch entry is ended with the measured duration. */
  lemma TrySuccess(env: Env, r: nat, t: Task, s: WState, ran: Task, output: Output)
    requires env.run(r, Stamped(env, t, s.ticks)) == Ran(ran, output)
    ensures var out := TrySpec(env, r, t, s);
      var ended := Tracker.End(Tracker.Started(s.watch, Stamped(env, t, s.ticks)), ran, env.duration(s.ticks + 2));
      && out.state.failed == s.failed
      && out.state.watch == ended.started
      && out.task.computationTime == ended.task.computationTime
      && out.state.runs == s.runs + [RunCall(r, t)]
      && out.state.events == s.events + (if env.dispatcher then [WorkerRunning(false), TaskExecuting(t), TaskExecuted(out.task, output)] else [])
  {
  }

  /** Once an attempt leaves the worker stopped, no later runner is tried for that task. */
  lemma StopEndsRunners(env: Env, t: Task, s: WState, r: nat)
    requires r < env.runners && env.supports(r, t)
    requires AttemptSpec(env, r, t, s).state.shouldStop
    ensures RunnersSpec(env, t, s, r) == AttemptSpec(env, r, t, s)
  {
  }

  /** Once the worker is stopped after a task reached the runners, no later task is tried in that pass. */
  lemma StopEndsPass(env: Env, ts: seq<Task>, i: nat, s: WState)
    requires i < |ts| && TaskStep(env, ts[i], s).0 == Attempted && TaskStep(env, ts[i], s).1.shouldStop
    ensures TasksSpec(env, ts, i, s) == (Halted, TaskStep(env, ts[i], s).1)
  {
  }
}
