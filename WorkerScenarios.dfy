// The worker's test scenarios, stated as lemmas about the model: one task due, one or two
// runners, a task-limit subscriber as the only listener, locks always
// acquired.

module WorkerScenarios {
  import opened Wrappers
  import opened Tasks
  import opened Worker
  import Listeners

  /** The surroundings of a scenario: `due` is what every fetch returns; the clock and stopwatch are left open. */
  function Scenario(runners: nat, supports: (nat, Task) -> bool, run: (nat, Task) -> RunResult, due: seq<Task>,
                    maximumTasks: int, clock: nat -> int, duration: nat -> int): Env
  {
    Env(runners, supports, run, _ => true, clock, duration, _ => Ok(due), true, Listeners.TaskLimitHook(maximumTasks))
  }

  /** The scenarios' surroundings, one per test. */
  function ExecutedScenario(t: Task, output: Output, clock: nat -> int, duration: nat -> int): Env
  {
    Scenario(1, (r, x) => true, (r, x) => Ran(x, output), [t], 1, clock, duration)
  }

  function FailingScenario(t: Task, clock: nat -> int, duration: nat -> int): Env
  {
    Scenario(1, (r, x) => true, (r, x) => RunThrew("Random error occurred"), [t], 1, clock, duration)
  }

  function SingleRunScenario(t: Task, output: Output, clock: nat -> int, duration: nat -> int): Env
  {
    Scenario(2, (r, x) => true, (r, x) => Ran(x, output), [t], 2, clock, duration)
  }

  function UnsupportedScenario(t: Task, clock: nat -> int, duration: nat -> int): Env
  {
    Scenario(1, (r, x) => false, (r, x) => RunThrew(""), [t], 1, clock, duration)
  }

  /** The non-idle counts of the logs the scenarios go through. */
  lemma OpeningCounts(t: Task)
    ensures Listeners.NonIdle([WorkerStarted(false)]) == 0
    ensures Listeners.NonIdle([WorkerStarted(false), WorkerRunning(false)]) == 1
    ensures Listeners.NonIdle([WorkerStarted(false), WorkerRunning(false), SingleRunTaskExecuted(t)]) == 1
    ensures Listeners.NonIdle([WorkerStarted(false), WorkerRunning(false), SingleRunTaskExecuted(t), WorkerRunning(false)]) == 2
  {
    var log1 := [WorkerStarted(false)];
    var log2 := [WorkerStarted(false), WorkerRunning(false)];
    var log3 := [WorkerStarted(false), WorkerRunning(false), SingleRunTaskExecuted(t)];
    assert [] + log1 == log1 && log1 + [WorkerRunning(false)] == log2 && log2 + [SingleRunTaskExecuted(t)] == log3;
    assert log3 + [WorkerRunning(false)] == [WorkerStarted(false), WorkerRunning(false), SingleRunTaskExecuted(t), WorkerRunning(false)];
    Listeners.TaskLimitStopsIsTheSubscriber(2, [], WorkerStarted(false), 0);
    Listeners.TaskLimitStopsIsTheSubscriber(2, log1, WorkerRunning(false), 0);
    Listeners.TaskLimitStopsIsTheSubscriber(2, log2, SingleRunTaskExecuted(t), 1);
    Listeners.TaskLimitStopsIsTheSubscriber(2, log3, WorkerRunning(false), 1);
  }

  /**
   * The start of every scenario, with a task limit of one or two: Started
   * does not stop the worker, the one fetch returns the due task, and the
   * task's running event stops it exactly when the limit is one.
   */
  lemma Opening(env: Env, t: Task, maximumTasks: int)
    requires env.dispatcher && env.stopHook == Listeners.TaskLimitHook(maximumTasks) && maximumTasks in {1, 2}
    ensures DispatchSpec(env, Initial(), WorkerStarted(false)) == Initial().(events := [WorkerStarted(false)])
    ensures DispatchSpec(env, Initial().(events := [WorkerStarted(false)], fetches := 1), WorkerRunning(false))
      == Initial().(events := [WorkerStarted(false), WorkerRunning(false)], fetches := 1, shouldStop := maximumTasks == 1)
  {
    OpeningCounts(t);
  }

  /** A first pass that halts makes `execute` stop, with Stopped as its last event. */
  lemma FirstPassHalts(env: Env, ts: seq<Task>, final: WState)
    requires env.runners > 0 && env.due(0) == Ok(ts)
    requires !DispatchSpec(env, Initial(), WorkerStarted(false)).shouldStop
    requires TasksSpec(env, ts, 0, DispatchSpec(env, Initial(), WorkerStarted(false)).(fetches := 1)) == (Halted, final)
    ensures ExecuteSpec(env, [], Initial(), 1) == (Stopped, DispatchSpec(env, final, WorkerStopped))
  {
  }

  /** A worker already asked to stop stays stopped through an attempt. */
  lemma AttemptKeepsStop(env: Env, r: nat, t: Task, s: WState)
    requires s.shouldStop
    ensures AttemptSpec(env, r, t, s).state.shouldStop
  {
  }

  /** The one-task pass of the scenarios whose limit of one stops the worker at the task's running event. */
  lemma StoppedPass(env: Env, t: Task, s2: WState, s3: WState)
    requires env.runners == 1 && env.supports(0, t) && t.state == Enabled
    requires s3 == DispatchSpec(env, s2, WorkerRunning(false)) && s3.shouldStop
    ensures TasksSpec(env, [t], 0, s2) == (Halted, AttemptSpec(env, 0, t, s3).state)
  {
    AttemptKeepsStop(env, 0, t, s3);
    StopEndsRunners(env, t, s3, 0);
    StopEndsPass(env, [t], 0, s2);
  }

  /** The lock of a task that is not single-run, when the lock store grants it. */
  lemma PlainLock(env: Env, t: Task, s: WState)
    requires env.acquire(s.ticks) && !t.singleRun
    ensures LockSpec(env, t, s) == (true, s.(ticks := s.ticks + 1, held := s.held + {t.name}))
  {
  }

  /** A turn whose runner returns: nothing is recorded as failed, and the runner ran once. */
  lemma SucceededAttempt(env: Env, t: Task, s: WState, output: Output)
    requires env.acquire(s.ticks) && !t.singleRun && !s.running
    requires env.run(0, Stamped(env, t, s.ticks + 1)) == Ran(Stamped(env, t, s.ticks + 1), output)
    ensures var a := AttemptSpec(env, 0, t, s);
      a.state.failed == s.failed && a.state.runs == s.runs + [RunCall(0, t)] && !a.state.running
  {
    PlainLock(env, t, s);
    var locked := s.(ticks := s.ticks + 1, held := s.held + {t.name});
    TrySuccess(env, 0, t, locked, Stamped(env, t, s.ticks + 1), output);
    AttemptLocking(env, 0, t, s);
    var tried := TrySpec(env, 0, t, locked);
    assert AttemptSpec(env, 0, t, s) == Turn(Release(env, tried.state, t.name), tried.task);
  }

  /** A turn whose runner throws: the failed task is recorded under its failed name, and the runner ran once. */
  lemma FailedAttempt(env: Env, t: Task, s: WState, m: string)
    requires env.acquire(s.ticks) && !t.singleRun && !s.running
    requires env.run(0, Stamped(env, t, s.ticks + 1)) == RunThrew(m)
    ensures var ft := FailedTask(Stamped(env, t, s.ticks + 1), m);
      var a := AttemptSpec(env, 0, t, s);
      a.state.failed == s.failed[FailedName(ft) := ft] && a.state.runs == s.runs + [RunCall(0, t)]
  {
    PlainLock(env, t, s);
    var locked := s.(ticks := s.ticks + 1, held := s.held + {t.name});
    TryFailure(env, 0, t, locked, m);
    AttemptLocking(env, 0, t, s);
    var tried := TrySpec(env, 0, t, locked);
    assert AttemptSpec(env, 0, t, s) == Turn(Release(env, tried.state, t.name), tried.task);
  }

  /**
   * One enabled task and one supporting runner, a limit of one task: the
   * worker fetches once, runs the task once, records no failure and stops.
   */
  lemma ExecutedWithRunner(t: Task, output: Output, clock: nat -> int, duration: nat -> int)
    requires t.state == Enabled && !t.singleRun
    ensures var (status, s) := ExecuteSpec(ExecutedScenario(t, output, clock, duration), [], Initial(), 1);
      status == Stopped && s.runs == [RunCall(0, t)] && s.failed == map[] && s.fetches == 1 && s.shouldStop && !s.running
  {
    var env := ExecutedScenario(t, output, clock, duration);
    Opening(env, t, 1);
    var s2 := Initial().(events := [WorkerStarted(false)], fetches := 1);
    var s3 := DispatchSpec(env, s2, WorkerRunning(false));
    SucceededAttempt(env, t, s3, output);
    StoppedPass(env, t, s2, s3);
    FirstPassHalts(env, [t], AttemptSpec(env, 0, t, s3).state);
  }

  /** The runner throws: one failed task, listed as `failed.failed` with the exception's message, and `execute` does not throw. */
  lemma FailedTaskRecorded(t: Task, clock: nat -> int, duration: nat -> int)
    requires t.name == "failed" && t.state == Enabled && !t.singleRun
    ensures var (status, s) := ExecuteSpec(FailingScenario(t, clock, duration), [], Initial(), 1);
      && status == Stopped
      && s.failed.Keys == {"failed.failed"}
      && s.failed["failed.failed"].reason == "Random error occurred"
      && s.runs == [RunCall(0, t)]
  {
    var env := FailingScenario(t, clock, duration);
    Opening(env, t, 1);
    var s2 := Initial().(events := [WorkerStarted(false)], fetches := 1);
    var s3 := DispatchSpec(env, s2, WorkerRunning(false));
    var ft := FailedTask(Stamped(env, t, 1), "Random error occurred");
    assert FailedName(ft) == "failed.failed";
    FailedAttempt(env, t, s3, "Random error occurred");
    StoppedPass(env, t, s2, s3);
    FirstPassHalts(env, [t], AttemptSpec(env, 0, t, s3).state);
  }

  /** The first attempt's lock: the single-run event comes first, and the lock is then acquired. */
  lemma SingleRunLock(env: Env, t: Task, s: WState)
    requires env.dispatcher && env.stopHook == Listeners.TaskLimitHook(2) && env.acquire(s.ticks) && t.singleRun
    requires !s.shouldStop
    ensures LockSpec(env, t, s) == (true, s.(events := s.events + [SingleRunTaskExecuted(t)], ticks := s.ticks + 1, held := s.held + {t.name}))
  {
    assert !Listeners.TaskLimitStops(2, s.events + [SingleRunTaskExecuted(t)]);
  }

  /** The first runner's `try` block: its running event is the second non-idle one, so the limit of two stops the worker. */
  lemma SingleRunTried(env: Env, t: Task, s: WState, output: Output)
    requires env.dispatcher && env.stopHook == Listeners.TaskLimitHook(2)
    requires env.run(0, Stamped(env, t, s.ticks)) == Ran(Stamped(env, t, s.ticks), output)
    requires s.events == [WorkerStarted(false), WorkerRunning(false), SingleRunTaskExecuted(t)]
    ensures var out := TrySpec(env, 0, t, s);
      out.state.shouldStop && out.state.runs == s.runs + [RunCall(0, t)] && SingleRunTaskExecuted(t) in out.state.events
  {
    var log := s.events + [WorkerRunning(false)];
    OpeningCounts(t);
    var s1 := DispatchSpec(env, s.(running := true), WorkerRunning(false));
    assert s1.shouldStop;
    assert HandleTaskSpec(env, 0, t, s1).state.shouldStop;
    TrySuccess(env, 0, t, s, Stamped(env, t, s.ticks), output);
  }

  /** The first runner's whole turn: it runs the task, the single-run event is logged, and the worker is stopped. */
  lemma SingleRunAttempt(env: Env, t: Task, s: WState, output: Output)
    requires env.dispatcher && env.stopHook == Listeners.TaskLimitHook(2) && env.acquire(s.ticks) && t.singleRun
    requires env.run(0, Stamped(env, t, s.ticks + 1)) == Ran(Stamped(env, t, s.ticks + 1), output)
    requires s.events == [WorkerStarted(false), WorkerRunning(false)] && !s.shouldStop && !s.running
    ensures var a := AttemptSpec(env, 0, t, s);
      a.state.shouldStop && a.state.runs == s.runs + [RunCall(0, t)] && SingleRunTaskExecuted(t) in a.state.events
  {
    SingleRunLock(env, t, s);
    var locked := s.(events := s.events + [SingleRunTaskExecuted(t)], ticks := s.ticks + 1, held := s.held + {t.name});
    SingleRunTried(env, t, locked, output);
    var tried := TrySpec(env, 0, t, locked);
    assert AttemptSpec(env, 0, t, s) == Turn(Release(env, tried.state, t.name), tried.task);
  }

  /**
   * A single-run task, two supporting runners and a limit of two: the
   * second runner is never tried, because the first attempt stops the worker.
   */
  lemma SingleRunTaskRunsOnce(t: Task, output: Output, clock: nat -> int, duration: nat -> int)
    requires t.state == Enabled && t.singleRun
    ensures var (status, s) := ExecuteSpec(SingleRunScenario(t, output, clock, duration), [], Initial(), 1);
      && status == Stopped
      && s.runs == [RunCall(0, t)]
      && SingleRunTaskExecuted(t) in s.events
  {
    var env := SingleRunScenario(t, output, clock, duration);
    Opening(env, t, 2);
    var s2 := Initial().(events := [WorkerStarted(false)], fetches := 1);
    var s3 := DispatchSpec(env, s2, WorkerRunning(false));
    SingleRunAttempt(env, t, s3, output);
    StopEndsRunners(env, t, s3, 0);
    var a := AttemptSpec(env, 0, t, s3);
    assert TaskStep(env, t, s2) == (Attempted, a.state);
    StopEndsPass(env, [t], 0, s2);
    FirstPassHalts(env, [t], a.state);
  }

  /** No runner supports the task: nothing runs, and the limit of one stops the worker after the task's running event. */
  lemma NoSupportingRunner(t: Task, clock: nat -> int, duration: nat -> int)
    requires t.state == Enabled
    ensures var (status, s) := ExecuteSpec(UnsupportedScenario(t, clock, duration), [], Initial(), 1);
      && status == Stopped
      && s.runs == []
      && s.events == [WorkerStarted(false), WorkerRunning(false), WorkerStopped]
  {
    var env := UnsupportedScenario(t, clock, duration);
    Opening(env, t, 1);
    var s2 := Initial().(events := [WorkerStarted(false)], fetches := 1);
    var s3 := DispatchSpec(env, s2, WorkerRunning(false));
    assert RunnersSpec(env, t, s3, 0) == Turn(s3, t);
    assert TaskStep(env, t, s2) == (Attempted, s3);
    FirstPassHalts(env, [t], s3);
  }
}
