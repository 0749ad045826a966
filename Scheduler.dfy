// The scheduler: stamps and stores tasks in its transport (or hands queued
// ones to a message bus), removes and updates them, lists the due ones, and
// reboots the store down to its reboot tasks.

module Scheduler {
  import opened Wrappers
  import opened Tasks
  import Php
  import ExecutionMode
  import Events
  import InMemory

  /** The expression that marks a task to be created again at every reboot. */
  const RebootMacro: string := "@reboot"

  /** The events the scheduler dispatches. */
  datatype SchedulerEvent = TaskEvent(event: Events.TaskEvent) | SchedulerRebooted

  function Names(ts: seq<Task>): (r: seq<string>)
    ensures |r| == |ts| && forall i :: 0 <= i < |ts| ==> r[i] == ts[i].name
  {
    if ts == [] then [] else Names(ts[..|ts| - 1]) + [ts[|ts| - 1].name]
  }

  /** The stored tasks, in order, whose expression is the reboot macro. */
  function RebootTasks(s: seq<Entry>): (r: seq<Task>)
    ensures forall k :: 0 <= k < |r| ==> r[k].expression == RebootMacro && exists i :: 0 <= i < |s| && s[i].task == r[k]
    ensures forall i :: 0 <= i < |s| && s[i].task.expression == RebootMacro ==> s[i].task in r
  {
    if s == [] then []
    else
      var last := s[|s| - 1].task;
      var init := RebootTasks(s[..|s| - 1]);
      assert forall i :: 0 <= i < |s| - 1 ==> s[..|s| - 1][i] == s[i];
      init + (if last.expression == RebootMacro then [last] else [])
  }

  /** The `create` calls of the reboot loop from task `i` on; the first that throws ends it. */
  function CreateAll(mode: ExecutionMode.Mode, options: map<string, Php.Value>, store: seq<Entry>, todo: seq<Task>, i: nat): InMemory.Created
  {
    Fold(Creator(mode, options), store, todo, i)
  }

  /** `create` on a store, as a step of the reboot loop. */
  function Creator(mode: ExecutionMode.Mode, options: map<string, Php.Value>): (seq<Entry>, Task) -> InMemory.Created
  {
    (store: seq<Entry>, t: Task) => InMemory.CreateSpec(mode, options, store, t)
  }

  /** Apply `step` to each task from `i` on, stopping at the first that fails. */
  function Fold(step: (seq<Entry>, Task) -> InMemory.Created, store: seq<Entry>, todo: seq<Task>, i: nat): InMemory.Created
    decreases |todo| - i
  {
    if i >= |todo| then InMemory.Created(Outcome.Done, store)
    else
      var c := step(store, todo[i]);
      if c.outcome.Fail? then c else Fold(step, c.tasks, todo, i + 1)
  }

  /**
   * What evaluating one task's expression throws, if anything:
   * `CronExpression::factory` refuses the expression first (the library's own
   * parser, given here as `factory`); then a task without a timezone makes
   * `getTimezone()->getName()` a call on null, an engine `Error`.
   */
  function DueFailure(factory: string -> Outcome, e: Entry): Option<Exception>
  {
    if factory(e.task.expression).Fail? then Some(factory(e.task.expression).error)
    else if e.task.timezone.None? then Some(EngineError)
    else None
  }

  /**
   * What `getDueTasks` keeps of the listed tasks, walking them in order: those
   * the cron expression says are due now in the task's own timezone, under
   * their keys. The first task whose evaluation throws ends the walk.
   */
  function DueTasks(s: seq<Entry>, factory: string -> Outcome, isDue: (string, int, string) -> bool, now: int): (r: Result<seq<Entry>>)
    ensures r.Ok? ==> forall e :: e in r.value <==> e in s && e.task.timezone.Some? && isDue(e.task.expression, now, e.task.timezone.value)
  {
    if s == [] then Ok([])
    else
      var last := s[|s| - 1];
      var init := s[..|s| - 1];
      assert forall i :: 0 <= i < |init| ==> init[i] == s[i];
      assert s == init + [last];
      DueStep(DueTasks(init, factory, isDue, now), last, factory, isDue, now)
  }

  /** The walk fails exactly when some task's evaluation throws, and then with the exception of the first such task. */
  lemma {:induction false} DueTasksError(s: seq<Entry>, factory: string -> Outcome, isDue: (string, int, string) -> bool, now: int)
    ensures DueTasks(s, factory, isDue, now).Err? <==> exists i :: 0 <= i < |s| && DueFailure(factory, s[i]).Some?
    ensures DueTasks(s, factory, isDue, now).Err? ==>
      exists i :: 0 <= i < |s| && DueFailure(factory, s[i]) == Some(DueTasks(s, factory, isDue, now).error) && forall j :: 0 <= j < i ==> DueFailure(factory, s[j]).None?
    decreases |s|
  {
    if s != [] {
      var init := s[..|s| - 1];
      var last := s[|s| - 1];
      var p := DueTasks(init, factory, isDue, now);
      DueTasksError(init, factory, isDue, now);
      assert DueTasks(s, factory, isDue, now) == DueStep(p, last, factory, isDue, now);
      if p.Err? {
        var i :| 0 <= i < |init| && DueFailure(factory, init[i]) == Some(p.error) && forall j :: 0 <= j < i ==> DueFailure(factory, init[j]).None?;
        assert s[i] == init[i];
        forall j | 0 <= j < i ensures DueFailure(factory, s[j]).None? {
          assert s[j] == init[j];
        }
      } else if DueFailure(factory, last).Some? {
        forall j | 0 <= j < |s| - 1 ensures DueFailure(factory, s[j]).None? {
          assert s[j] == init[j];
        }
      } else {
        forall i | 0 <= i < |s| ensures DueFailure(factory, s[i]).None? {
          if i < |init| {
            assert s[i] == init[i];
          }
        }
      }
    }
  }

  /** One step of the walk: after the earlier tasks, evaluate `last`. */
  function DueStep(prev: Result<seq<Entry>>, last: Entry, factory: string -> Outcome, isDue: (string, int, string) -> bool, now: int): Result<seq<Entry>>
  {
    match prev
    case Err(e) => Err(e)
    case Ok(due) =>
      match DueFailure(factory, last)
      case Some(e) => Err(e)
      case None =>
        if isDue(last.task.expression, now, last.task.timezone.value) then Ok(due + [last])
        else Ok(due)
  }

  /** The walk of a concatenation: the first part's error, else the second part's, else both results in order. */
  function Joined(x: Result<seq<Entry>>, y: Result<seq<Entry>>): Result<seq<Entry>>
  {
    match x
    case Err(e) => Err(e)
    case Ok(u) =>
      match y
      case Err(e) => Err(e)
      case Ok(v) => Ok(u + v)
  }

  class Scheduler {
    const timezone: string
    const transport: InMemory.InMemoryTransport
    /** Whether an event dispatcher was given. */
    const dispatcher: bool
    /** Whether a message bus was given. */
    const bus: bool
    /** What the event dispatcher received. */
    var events: seq<SchedulerEvent>
    /** The tasks sent to the message bus. */
    var messages: seq<Task>

    ghost predicate Valid()
      reads this, transport
    {
      transport.Valid()
    }

    constructor (timezone: string, transport: InMemory.InMemoryTransport, dispatcher: bool, bus: bool)
      requires transport.Valid()
      ensures this.timezone == timezone && this.transport == transport && this.dispatcher == dispatcher && this.bus == bus
      ensures events == [] && messages == [] && Valid()
    {
      this.timezone := timezone;
      this.transport := transport;
      this.dispatcher := dispatcher;
      this.bus := bus;
      events := [];
      messages := [];
    }

    /** What a dispatched event adds to the event log. */
    function Logged(e: SchedulerEvent): seq<SchedulerEvent>
      reads this
    {
      if dispatcher then [e] else []
    }

    /** The task as `schedule` stamps it: scheduled now, in the scheduler's timezone. */
    function Stamped(task: Task, now: int): (r: Task)
      reads this
      ensures r.scheduledAt == Some(now) && r.timezone == Some(timezone) && r.name == task.name && r.queued == task.queued
    {
      task.(scheduledAt := Some(now), timezone := Some(timezone))
    }

    method Dispatch(e: SchedulerEvent)
      modifies this
      ensures events == old(events) + Logged(e) && messages == old(messages)
    {
      if dispatcher {
        events := events + [e];
      }
    }

    /**
     * `schedule(task)` at the synchronized time `now`: with a bus, a queued
     * task goes to the bus instead of the store; otherwise it is created in
     * the store. The Scheduled event follows either, unless `create` threw.
     * The event carries the task object `create` stored, so it shows what
     * `create` did to it: the `nice` option and the mode's pre-pass.
     */
    method Schedule(task: Task, now: int) returns (outcome: Outcome)
      requires Valid()
      modifies this, transport
      ensures Valid()
      ensures bus && task.queued ==>
        && outcome == Outcome.Done && transport.tasks == old(transport.tasks)
        && messages == old(messages) + [Stamped(task, now)]
        && events == old(events) + Logged(TaskEvent(Events.Scheduled(Stamped(task, now))))
      ensures !(bus && task.queued) ==>
        && InMemory.Created(outcome, transport.tasks) == InMemory.CreateSpec(transport.mode, transport.options, old(transport.tasks), Stamped(task, now))
        && messages == old(messages)
        && (outcome.Fail? ==> events == old(events))
        && (outcome.Done? ==>
              && Lookup(transport.tasks, task.name).Some?
              && events == old(events) + Logged(TaskEvent(Events.Scheduled(Lookup(transport.tasks, task.name).value))))
    {
      var t := task.(scheduledAt := Some(now));
      t := t.(timezone := Some(timezone));
      if bus && t.queued {
        messages := messages + [t];
        Dispatch(TaskEvent(Events.Scheduled(t)));
        return Outcome.Done;
      }
      ghost var before := transport.tasks;
      outcome := transport.Create(t);
      if outcome.Fail? {
        return;
      }
      InMemory.CreateAddsTask(transport.mode, transport.options, before, t);
      Dispatch(TaskEvent(Events.Scheduled(Lookup(transport.tasks, t.name).value)));
    }

    /** `unschedule(name)`: delete, then the Unscheduled event. */
    method Unschedule(name: string)
      requires Valid()
      modifies this, transport
      ensures Valid()
      ensures transport.tasks == Remove(old(transport.tasks), name) && messages == old(messages)
      ensures events == old(events) + Logged(TaskEvent(Events.Unscheduled(name)))
    {
      transport.Delete(name);
      Dispatch(TaskEvent(Events.Unscheduled(name)));
    }

    /** `update(name, task)`: forwarded; the in-memory store keeps what it had. */
    method Update(name: string, task: Task)
      ensures transport.tasks == old(transport.tasks)
    {
      transport.Update(name, task);
    }

    method Pause(name: string)
      requires Valid()
      modifies transport
      ensures Valid()
      ensures transport.tasks == InMemory.SetStateSpec(old(transport.tasks), name, Paused)
    {
      transport.Pause(name);
    }

    method Resume(name: string)
      requires Valid()
      modifies transport
      ensures Valid()
      ensures transport.tasks == InMemory.SetStateSpec(old(transport.tasks), name, Enabled)
    {
      transport.Resume(name);
    }

    function GetTimezone(): string
      reads this
    {
      timezone
    }

    /** `getTasks()`: the store's list, in the store's (sorted) order. */
    function GetTasks(): (r: seq<Entry>)
      reads this, transport
      requires Valid()
      ensures r == transport.tasks
      ensures KeyedByName(r) && UniqueKeys(r)
    {
      transport.List()
    }

    /**
     * `getDueTasks()` at the synchronized time `now`, with the cron library's
     * parser as `factory` and its evaluation as `isDue`.
     */
    function GetDueTasks(factory: string -> Outcome, isDue: (string, int, string) -> bool, now: int): (r: Result<seq<Entry>>)
      reads this, transport
      requires Valid()
      ensures r.Err? <==> exists i :: 0 <= i < |transport.tasks| && DueFailure(factory, transport.tasks[i]).Some?
      ensures r.Err? ==> exists i :: 0 <= i < |transport.tasks| && DueFailure(factory, transport.tasks[i]) == Some(r.error) && forall j :: 0 <= j < i ==> DueFailure(factory, transport.tasks[j]).None?
      ensures r.Ok? ==> forall e :: e in r.value <==> e in transport.tasks && e.task.timezone.Some? && isDue(e.task.expression, now, e.task.timezone.value)
      ensures r == DueTasks(transport.tasks, factory, isDue, now)
    {
      DueTasksError(transport.tasks, factory, isDue, now);
      DueTasks(GetTasks(), factory, isDue, now)
    }

    /** `reboot()`: keep the reboot tasks, clear the store, create them again in order, then the Rebooted event. */
    method Reboot() returns (outcome: Outcome)
      requires Valid()
      modifies this, transport
      ensures Valid()
      ensures InMemory.Created(outcome, transport.tasks)
        == CreateAll(transport.mode, transport.options, [], RebootTasks(old(transport.tasks)), 0)
      ensures messages == old(messages)
      ensures events == old(events) + (if outcome.Done? then Logged(SchedulerRebooted) else [])
    {
      var rebootTasks := RebootTasks(GetTasks());
      transport.Clear();
      var i := 0;
      while i < |rebootTasks|
        invariant i <= |rebootTasks| && Valid()
        invariant CreateAll(transport.mode, transport.options, [], rebootTasks, 0)
          == CreateAll(transport.mode, transport.options, transport.tasks, rebootTasks, i)
        invariant events == old(events) && messages == old(messages)
      {
        ghost var store := transport.tasks;
        var created := transport.Create(rebootTasks[i]);
        CreateAllStep(transport.mode, transport.options, store, rebootTasks, i);
        if created.Fail? {
          return created;
        }
        i := i + 1;
      }
      assert CreateAll(transport.mode, transport.options, transport.tasks, rebootTasks, i) == InMemory.Created(Outcome.Done, transport.tasks);
      Dispatch(SchedulerRebooted);
      return Outcome.Done;
    }
  }

  /** The reboot filter keeps the stored order: filtering a concatenation concatenates the filtered parts. */
  lemma {:induction false} RebootTasksAppend(a: seq<Entry>, b: seq<Entry>)
    ensures RebootTasks(a + b) == RebootTasks(a) + RebootTasks(b)
    decreases |b|
  {
    if b != [] {
      var b' := b[..|b| - 1];
      assert (a + b)[..|a + b| - 1] == a + b';
      assert (a + b)[|a + b| - 1] == b[|b| - 1];
      RebootTasksAppend(a, b');
    } else {
      assert a + b == a;
    }
  }

  /** A single entry is kept exactly when its expression is the reboot macro. */
  lemma RebootTasksSingle(e: Entry)
    ensures RebootTasks([e]) == if e.task.expression == RebootMacro then [e.task] else []
  {
    assert [e][..0] == [];
  }

  /**
   * `getDueTasks` walks the tasks in the stored order: on a concatenation,
   * the first part is evaluated first, and the due tasks of both parts come
   * out in that order.
   */
  lemma {:induction false} DueTasksAppend(a: seq<Entry>, b: seq<Entry>, factory: string -> Outcome, isDue: (string, int, string) -> bool, now: int)
    ensures DueTasks(a + b, factory, isDue, now) == Joined(DueTasks(a, factory, isDue, now), DueTasks(b, factory, isDue, now))
    decreases |b|
  {
    var x := DueTasks(a, factory, isDue, now);
    if b != [] {
      var b' := b[..|b| - 1];
      var last := b[|b| - 1];
      assert (a + b)[..|a + b| - 1] == a + b';
      assert (a + b)[|a + b| - 1] == last;
      DueTasksAppend(a, b', factory, isDue, now);
      var y := DueTasks(b', factory, isDue, now);
      assert DueTasks(a + b, factory, isDue, now) == DueStep(Joined(x, y), last, factory, isDue, now);
      assert DueTasks(b, factory, isDue, now) == DueStep(y, last, factory, isDue, now);
      if x.Ok? && y.Ok? {
        assert x.value + (y.value + [last]) == (x.value + y.value) + [last];
      }
    } else {
      assert a + b == a;
      if x.Ok? {
        assert x.value + [] == x.value;
      }
    }
  }

  /** A single task is kept exactly when it evaluates without throwing and is due. */
  lemma DueTasksSingle(e: Entry, factory: string -> Outcome, isDue: (string, int, string) -> bool, now: int)
    ensures DueTasks([e], factory, isDue, now) ==
      match DueFailure(factory, e)
      case Some(x) => Err(x)
      case None => if isDue(e.task.expression, now, e.task.timezone.value) then Ok([e]) else Ok([])
  {
    assert [e][..0] == [];
    assert [] + [e] == [e];
  }

  /** With every expression accepted by the parser, the walk fails, with an engine Error, exactly when some task has no timezone. */
  lemma DueTasksValidExpressions(s: seq<Entry>, factory: string -> Outcome, isDue: (string, int, string) -> bool, now: int)
    requires forall i :: 0 <= i < |s| ==> factory(s[i].task.expression).Done?
    ensures DueTasks(s, factory, isDue, now).Err? <==> exists i :: 0 <= i < |s| && s[i].task.timezone.None?
    ensures DueTasks(s, factory, isDue, now).Err? ==> DueTasks(s, factory, isDue, now).error == EngineError
  {
    var r := DueTasks(s, factory, isDue, now);
    DueTasksError(s, factory, isDue, now);
    if r.Err? {
      var i :| 0 <= i < |s| && DueFailure(factory, s[i]) == Some(r.error);
      assert s[i].task.timezone.None?;
    }
    if exists i :: 0 <= i < |s| && s[i].task.timezone.None? {
      var i :| 0 <= i < |s| && s[i].task.timezone.None?;
      assert DueFailure(factory, s[i]).Some?;
    }
  }

  lemma CreateAllStep(mode: ExecutionMode.Mode, options: map<string, Php.Value>, store: seq<Entry>, todo: seq<Task>, i: nat)
    requires i < |todo|
    ensures var c := InMemory.CreateSpec(mode, options, store, todo[i]);
      CreateAll(mode, options, store, todo, i) == if c.outcome.Fail? then c else CreateAll(mode, options, c.tasks, todo, i + 1)
  {
    assert Creator(mode, options)(store, todo[i]) == InMemory.CreateSpec(mode, options, store, todo[i]);
  }

  lemma NamesFrom(ts: seq<Task>, i: nat)
    requires i < |ts|
    ensures Names(ts[i..]) == [ts[i].name] + Names(ts[i + 1..])
  {
    var l := Names(ts[i..]);
    var r := [ts[i].name] + Names(ts[i + 1..]);
    assert |l| == |r|;
    forall k | 0 <= k < |l|
      ensures l[k] == r[k]
    {
      if k > 0 {
        assert ts[i..][k] == ts[i + 1..][k - 1];
      }
    }
  }

  /** A step that, on a valid store, adds exactly the task's name and keeps the store valid. */
  ghost predicate AddsTheName(step: (seq<Entry>, Task) -> InMemory.Created)
  {
    forall store: seq<Entry>, t: Task ::
      UniqueKeys(store) && KeyedByName(store) && step(store, t).outcome == Outcome.Done ==>
        && multiset(Keys(step(store, t).tasks)) == multiset(Keys(store)) + multiset{t.name}
        && UniqueKeys(step(store, t).tasks) && KeyedByName(step(store, t).tasks)
  }

  lemma {:induction false} FoldKeys(step: (seq<Entry>, Task) -> InMemory.Created, store: seq<Entry>, todo: seq<Task>, i: nat)
    requires AddsTheName(step)
    requires UniqueKeys(store) && KeyedByName(store) && i <= |todo|
    requires Fold(step, store, todo, i).outcome == Outcome.Done
    ensures multiset(Keys(Fold(step, store, todo, i).tasks)) == multiset(Keys(store)) + multiset(Names(todo[i..]))
    ensures UniqueKeys(Fold(step, store, todo, i).tasks)
    decreases |todo| - i
  {
    if i == |todo| {
      assert todo[i..] == [];
    } else {
      var c := step(store, todo[i]);
      FoldKeys(step, c.tasks, todo, i + 1);
      NamesFrom(todo, i);
    }
  }

  lemma CreatorAddsTheName(mode: ExecutionMode.Mode, options: map<string, Php.Value>)
    ensures AddsTheName(Creator(mode, options))
  {
    forall store: seq<Entry>, t: Task | UniqueKeys(store) && KeyedByName(store) && Creator(mode, options)(store, t).outcome == Outcome.Done
      ensures multiset(Keys(Creator(mode, options)(store, t).tasks)) == multiset(Keys(store)) + multiset{t.name}
      ensures UniqueKeys(Creator(mode, options)(store, t).tasks) && KeyedByName(Creator(mode, options)(store, t).tasks)
    {
      InMemory.CreateAddsTask(mode, options, store, t);
      InMemory.CreateKeepsValid(mode, options, store, t);
    }
  }

  /** A completed reboot loop adds exactly the names of the tasks it created. */
  lemma CreateAllKeys(mode: ExecutionMode.Mode, options: map<string, Php.Value>, store: seq<Entry>, todo: seq<Task>, i: nat)
    requires UniqueKeys(store) && KeyedByName(store) && i <= |todo|
    requires CreateAll(mode, options, store, todo, i).outcome == Outcome.Done
    ensures multiset(Keys(CreateAll(mode, options, store, todo, i).tasks)) == multiset(Keys(store)) + multiset(Names(todo[i..]))
    ensures UniqueKeys(CreateAll(mode, options, store, todo, i).tasks)
  {
    CreatorAddsTheName(mode, options);
    FoldKeys(Creator(mode, options), store, todo, i);
  }

  /**
   * After a reboot that did not throw, the store holds exactly the names of
   * the tasks that were stored with the reboot macro as their expression,
   * each once.
   */
  lemma RebootKeepsRebootTasks(mode: ExecutionMode.Mode, options: map<string, Php.Value>, before: seq<Entry>, name: string)
    requires UniqueKeys(before) && KeyedByName(before)
    requires CreateAll(mode, options, [], RebootTasks(before), 0).outcome == Outcome.Done
    ensures var after := CreateAll(mode, options, [], RebootTasks(before), 0).tasks;
      && UniqueKeys(after)
      && (HasKey(after, name) <==> exists i :: 0 <= i < |before| && before[i].key == name && before[i].task.expression == RebootMacro)
  {
    var todo := RebootTasks(before);
    CreateAllKeys(mode, options, [], todo, 0);
    assert todo[0..] == todo;
    KeysOfRebootTasks(CreateAll(mode, options, [], todo, 0).tasks, before, name);
  }

  lemma KeysOfRebootTasks(after: seq<Entry>, before: seq<Entry>, name: string)
    requires KeyedByName(before)
    requires multiset(Keys(after)) == multiset(Names(RebootTasks(before)))
    ensures HasKey(after, name) <==> exists i :: 0 <= i < |before| && before[i].key == name && before[i].task.expression == RebootMacro
  {
    var todo := RebootTasks(before);
    if HasKey(after, name) {
      StoredIsRebootTask(after, before, todo, name);
    }
    if exists i :: 0 <= i < |before| && before[i].key == name && before[i].task.expression == RebootMacro {
      RebootTaskIsStored(after, before, todo, name);
    }
  }

  /** Each task of `todo` is a reboot task taken from `before`. */
  predicate TakenFrom(todo: seq<Task>, before: seq<Entry>)
  {
    forall k :: 0 <= k < |todo| ==> todo[k].expression == RebootMacro && exists i :: 0 <= i < |before| && before[i].task == todo[k]
  }

  lemma {:induction false} StoredIsRebootTask(after: seq<Entry>, before: seq<Entry>, todo: seq<Task>, name: string)
    requires KeyedByName(before) && TakenFrom(todo, before)
    requires multiset(Keys(after)) == multiset(Names(todo))
    requires HasKey(after, name)
    ensures exists i :: 0 <= i < |before| && before[i].key == name && before[i].task.expression == RebootMacro
  {
    assert name in Names(todo) by {
      var j :| 0 <= j < |after| && after[j].key == name;
      var keys := Keys(after);
      assert keys[j] == name;
      assert name in multiset(keys);
      assert name in multiset(Names(todo));
    }
    var k :| 0 <= k < |todo| && Names(todo)[k] == name;
    var i :| 0 <= i < |before| && before[i].task == todo[k];
    assert before[i].key == name && before[i].task.expression == RebootMacro;
  }

  lemma {:induction false} RebootTaskIsStored(after: seq<Entry>, before: seq<Entry>, todo: seq<Task>, name: string)
    requires KeyedByName(before)
    requires forall i :: 0 <= i < |before| && before[i].task.expression == RebootMacro ==> before[i].task in todo
    requires multiset(Keys(after)) == multiset(Names(todo))
    requires exists i :: 0 <= i < |before| && before[i].key == name && before[i].task.expression == RebootMacro
    ensures HasKey(after, name)
  {
    var names := Names(todo);
    var i :| 0 <= i < |before| && before[i].key == name && before[i].task.expression == RebootMacro;
    assert before[i].task in todo;
    var k :| 0 <= k < |todo| && todo[k] == before[i].task;
    assert names[k] == name;
    assert name in multiset(names);
    assert name in Keys(after);
    InKeys(after, name);
  }

  lemma InKeys(s: seq<Entry>, name: string)
    requires name in Keys(s)
    ensures HasKey(s, name)
  {
    var j :| 0 <= j < |Keys(s)| && Keys(s)[j] == name;
    assert s[j].key == name;
  }

  /** After `unschedule(name)`, the name is gone and every other name keeps its task. */
  lemma UnscheduleRemoves(tasks: seq<Entry>, name: string, other: string)
    requires UniqueKeys(tasks) && other != name
    ensures !HasKey(Remove(tasks, name), name)
    ensures Lookup(Remove(tasks, name), other) == Lookup(tasks, other)
  {
    InMemory.DeleteRemovesOnlyThatName(tasks, name, other);
  }
}
