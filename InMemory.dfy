// The in-memory transport: an ordered, name-keyed task array that is
// re-sorted by the transport's execution mode after every creation.

module InMemory {
  import opened Wrappers
  import opened Tasks
  import Php
  import ExecutionMode

  function AlreadyScheduledMessage(name: string): string
  {
    "The following task \"" + name + "\" has already been scheduled!"
  }

  /**
   * The task `create` stores: when the `nice` option is set, it goes through
   * `setNice`, which coerces an integer string and refuses a value out of range.
   */
  function WithNiceOption(options: map<string, Php.Value>, t: Task): Result<Task>
  {
    if !Php.IsSet(options, "nice") then Ok(t)
    else match Php.IntArgument(options["nice"])
      case Err(e) => Err(e)
      case Ok(n) => SetNice(t, n)
  }

  /** The outcome of `create` and the array it leaves behind. */
  datatype Created = Created(outcome: Outcome, tasks: seq<Entry>)

  /**
   * `create(task)`: a name already present is refused; otherwise the task,
   * with the `nice` option applied, is appended under its name and the whole
   * array is re-sorted. A sort that throws leaves the appended, unsorted
   * array, with the pre-pass's changes to the shared task objects.
   */
  function CreateSpec(mode: ExecutionMode.Mode, options: map<string, Php.Value>, tasks: seq<Entry>, task: Task): Created
  {
    if HasKey(tasks, task.name) then Created(Fail(AlreadyScheduled(AlreadyScheduledMessage(task.name))), tasks)
    else match WithNiceOption(options, task)
      case Err(e) => Created(Fail(e), tasks)
      case Ok(t) =>
        var stored := tasks + [Entry(t.name, t)];
        match ExecutionMode.SortSpec(mode, stored)
        case Err(e) => Created(Fail(e), ExecutionMode.Prepared(mode, stored))
        case Ok(sorted) => Created(Outcome.Done, sorted)
  }

  /** `pause(name)` and `resume(name)`: a missing name or a task already in `target` is left alone. */
  function SetStateSpec(tasks: seq<Entry>, name: string, target: TaskState): seq<Entry>
  {
    match Lookup(tasks, name)
    case None => tasks
    case Some(t) => if t.state == target then tasks else Put(tasks, name, t.(state := target))
  }

  class InMemoryTransport {
    const options: map<string, Php.Value>
    const mode: ExecutionMode.Mode
    var tasks: seq<Entry>

    /** Each name once, each task under its own name. */
    ghost predicate Valid()
      reads this
    {
      UniqueKeys(tasks) && KeyedByName(tasks)
    }

    constructor (options: map<string, Php.Value>, mode: ExecutionMode.Mode)
      requires ExecutionMode.NewOrchestrator(ExecutionMode.ModeOption(options)) == Ok(mode)
      ensures this.options == options && this.mode == mode && tasks == [] && Valid()
    {
      this.options := options;
      this.mode := mode;
      tasks := [];
    }

    /** `get(name)`: the stored task; a missing name makes the non-nullable return a TypeError. */
    function Get(name: string): (r: Result<Task>)
      reads this
      requires Valid()
      ensures r.Ok? <==> HasKey(tasks, name)
      ensures r.Ok? ==> Entry(name, r.value) in tasks && r.value.name == name
      ensures r.Err? ==> r.error == TypeError
    {
      match Lookup(tasks, name)
      case None => Err(TypeError)
      case Some(t) => Ok(t)
    }

    /** `list()`: a fresh list holding the stored tasks, in the stored order (the order the last sort left), each under its name. */
    function List(): (r: seq<Entry>)
      reads this
      requires Valid()
      ensures r == tasks
      ensures KeyedByName(r) && UniqueKeys(r)
    {
      tasks
    }

    function GetOptions(): map<string, Php.Value>
      reads this
    {
      options
    }

    method Create(task: Task) returns (outcome: Outcome)
      requires Valid()
      modifies this
      ensures Created(outcome, tasks) == CreateSpec(mode, options, old(tasks), task)
      ensures Valid()
    {
      if IndexOf(tasks, task.name).Some? {
        return Fail(AlreadyScheduled(AlreadyScheduledMessage(task.name)));
      }
      var t := task;
      if "nice" in options && options["nice"] != Php.Null {
        match Php.IntArgument(options["nice"]) {
          case Err(e) => return Fail(e);
          case Ok(n) =>
            match SetNice(t, n) {
              case Err(e) => return Fail(e);
              case Ok(u) => t := u;
            }
        }
      }
      tasks := tasks + [Entry(t.name, t)];
      var sorted, prepared := ExecutionMode.Sort(mode, tasks);
      match sorted {
        case Ok(s) => tasks := s; outcome := Outcome.Done;
        case Err(e) => tasks := prepared; outcome := Fail(e);
      }
      CreateKeepsValid(mode, options, old(tasks), task);
    }

    /** `update(name, task)` writes into the fresh list `list()` builds, so the store keeps what it had. */
    method Update(name: string, task: Task)
      ensures tasks == old(tasks)
    {
      var copy := tasks;
      copy := Put(copy, name, task);
    }

    method Delete(name: string)
      requires Valid()
      modifies this
      ensures tasks == Remove(old(tasks), name)
      ensures Valid()
    {
      tasks := Remove(tasks, name);
      RemoveKeepsValid(old(tasks), name);
    }

    /** The task object `list()` hands out is the stored one, so setting its state changes the store. */
    method Pause(name: string)
      requires Valid()
      modifies this
      ensures tasks == SetStateSpec(old(tasks), name, Paused)
      ensures Valid()
    {
      var found := Lookup(tasks, name);
      if found.None? || found.value.state == Paused {
        return;
      }
      tasks := Put(tasks, name, found.value.(state := Paused));
      Update(name, found.value.(state := Paused));
      SetStateKeepsValid(old(tasks), name, Paused);
    }

    method Resume(name: string)
      requires Valid()
      modifies this
      ensures tasks == SetStateSpec(old(tasks), name, Enabled)
      ensures Valid()
    {
      var found := Lookup(tasks, name);
      if found.None? || found.value.state == Enabled {
        return;
      }
      tasks := Put(tasks, name, found.value.(state := Enabled));
      Update(name, found.value.(state := Enabled));
      SetStateKeepsValid(old(tasks), name, Enabled);
    }

    method Clear()
      modifies this
      ensures tasks == [] && Valid()
    {
      tasks := [];
    }
  }

  /** The constructor: the orchestrator rejects an unknown execution mode; the options are kept as given. */
  method New(options: map<string, Php.Value>) returns (r: Result<InMemoryTransport>)
    ensures r.Err? <==> ExecutionMode.NewOrchestrator(ExecutionMode.ModeOption(options)).Err?
    ensures r.Err? ==> r.error == ExecutionMode.NewOrchestrator(ExecutionMode.ModeOption(options)).error
    ensures r.Ok? ==>
              && fresh(r.value) && r.value.Valid() && r.value.tasks == []
              && r.value.GetOptions() == options
              && Ok(r.value.mode) == ExecutionMode.NewOrchestrator(ExecutionMode.ModeOption(options))
  {
    match ExecutionMode.NewOrchestrator(ExecutionMode.ModeOption(options)) {
      case Err(e) => r := Err(e);
      case Ok(mode) =>
        var t := new InMemoryTransport(options, mode);
        r := Ok(t);
    }
  }

  // ---- what the operations promise ----

  lemma PutKeepsValid(tasks: seq<Entry>, name: string, t: Task)
    requires UniqueKeys(tasks) && KeyedByName(tasks) && HasKey(tasks, name) && t.name == name
    ensures UniqueKeys(Put(tasks, name, t)) && KeyedByName(Put(tasks, name, t))
    ensures Keys(Put(tasks, name, t)) == Keys(tasks)
  {
    var i :| 0 <= i < |tasks| && tasks[i].key == name && Put(tasks, name, t) == tasks[i := Entry(name, t)];
    var r := tasks[i := Entry(name, t)];
    assert forall j :: 0 <= j < |r| ==> r[j].key == tasks[j].key;
    assert Keys(r) == Keys(tasks);
  }

  lemma SetStateKeepsValid(tasks: seq<Entry>, name: string, target: TaskState)
    requires UniqueKeys(tasks) && KeyedByName(tasks)
    ensures UniqueKeys(SetStateSpec(tasks, name, target)) && KeyedByName(SetStateSpec(tasks, name, target))
  {
    match Lookup(tasks, name)
    case None =>
    case Some(t) =>
      var i :| 0 <= i < |tasks| && tasks[i] == Entry(name, t);
      PutKeepsValid(tasks, name, t.(state := target));
  }

  lemma RemoveKeepsValid(tasks: seq<Entry>, name: string)
    requires UniqueKeys(tasks) && KeyedByName(tasks)
    ensures UniqueKeys(Remove(tasks, name)) && KeyedByName(Remove(tasks, name))
  {
    if tasks != [] {
      RemoveKeepsValid(tasks[..|tasks| - 1], name);
      var r := Remove(tasks[..|tasks| - 1], name);
      var last := tasks[|tasks| - 1];
      if last.key != name {
        forall i | 0 <= i < |r| ensures r[i].key != last.key {
          assert r[i] in tasks[..|tasks| - 1];
        }
      }
    }
  }

  /** Unique keys follow from every key being counted at most once. */
  lemma UniqueFromCounts(s: seq<Entry>)
    requires forall k :: multiset(Keys(s))[k] <= 1
    ensures UniqueKeys(s)
  {
    forall i, j | 0 <= i < j < |s| ensures s[i].key != s[j].key {
      if s[i].key == s[j].key {
        CountTwo(Keys(s), i, j);
      }
    }
  }

  /** A value at two positions is counted at least twice. */
  lemma CountTwo(ks: seq<string>, i: nat, j: nat)
    requires i < j < |ks| && ks[i] == ks[j]
    ensures multiset(ks)[ks[i]] >= 2
  {
    assert ks == ks[..j] + ks[j..];
    assert ks[..j][i] == ks[i];
    assert ks[j..][0] == ks[j];
    assert multiset(ks) == multiset(ks[..j]) + multiset(ks[j..]);
  }

  lemma CountsFromUnique(s: seq<Entry>)
    requires UniqueKeys(s)
    ensures forall k :: multiset(Keys(s))[k] <= 1
  {
    if s != [] {
      var init := s[..|s| - 1];
      CountsFromUnique(init);
      assert Keys(s) == Keys(init) + [s[|s| - 1].key];
      assert s[|s| - 1].key !in Keys(init);
    }
  }

  lemma KeyedByNameSorted(mode: ExecutionMode.Mode, s: seq<Entry>)
    requires KeyedByName(s) && ExecutionMode.SortSpec(mode, s).Ok?
    ensures KeyedByName(ExecutionMode.SortSpec(mode, s).value)
  {
    var r := ExecutionMode.SortSpec(mode, s).value;
    forall i | 0 <= i < |r| ensures r[i].key == r[i].task.name {
      ExecutionMode.SortKeepsTasksUnderTheirKeys(mode, s, r[i]);
      var j :| 0 <= j < |s| && r[i] == Entry(s[j].key, ExecutionMode.Prepare(mode, s[j].task));
      assert ExecutionMode.Prepare(mode, s[j].task).name == s[j].task.name;
    }
  }

  lemma CreateKeepsValid(mode: ExecutionMode.Mode, options: map<string, Php.Value>, tasks: seq<Entry>, task: Task)
    requires UniqueKeys(tasks) && KeyedByName(tasks)
    ensures UniqueKeys(CreateSpec(mode, options, tasks, task).tasks) && KeyedByName(CreateSpec(mode, options, tasks, task).tasks)
  {
    if !HasKey(tasks, task.name) && WithNiceOption(options, task).Ok? {
      var t := WithNiceOption(options, task).value;
      var stored := tasks + [Entry(t.name, t)];
      assert UniqueKeys(stored);
      assert KeyedByName(stored);
      if ExecutionMode.SortSpec(mode, stored).Err? {
        PreparedKeepsValid(mode, stored);
      } else {
        var sorted := ExecutionMode.SortSpec(mode, stored).value;
        ExecutionMode.SortKeepsKeys(mode, stored);
        CountsFromUnique(stored);
        UniqueFromCounts(sorted);
        KeyedByNameSorted(mode, stored);
      }
    }
  }

  /** The pre-pass keeps every key and every task's name. */
  lemma PreparedKeepsValid(mode: ExecutionMode.Mode, s: seq<Entry>)
    requires UniqueKeys(s) && KeyedByName(s)
    ensures UniqueKeys(ExecutionMode.Prepared(mode, s)) && KeyedByName(ExecutionMode.Prepared(mode, s))
  {
    var p := ExecutionMode.Prepared(mode, s);
    assert forall i :: 0 <= i < |p| ==> p[i].key == s[i].key && p[i].task.name == s[i].task.name;
  }

  /**
   * A sort that throws (deadline mode, a task without an absolute deadline)
   * fails the `create`, and the store keeps the appended task and the
   * pre-pass's changes to every task.
   */
  lemma CreateSortFailureKeepsPrepass(mode: ExecutionMode.Mode, options: map<string, Php.Value>, tasks: seq<Entry>, task: Task)
    requires !HasKey(tasks, task.name) && WithNiceOption(options, task).Ok?
    requires ExecutionMode.SortSpec(mode, tasks + [Entry(task.name, WithNiceOption(options, task).value)]).Err?
    ensures mode == ExecutionMode.Deadline
    ensures CreateSpec(mode, options, tasks, task)
      == Created(Fail(TypeError), ExecutionMode.Prepared(mode, tasks + [Entry(task.name, WithNiceOption(options, task).value)]))
  {
  }

  /** A name already stored is refused with `AlreadyScheduledTaskException`, and the store is unchanged. */
  lemma CreateDuplicateRefused(mode: ExecutionMode.Mode, options: map<string, Php.Value>, tasks: seq<Entry>, task: Task)
    requires HasKey(tasks, task.name)
    ensures CreateSpec(mode, options, tasks, task) == Created(Fail(AlreadyScheduled(AlreadyScheduledMessage(task.name))), tasks)
  {
  }

  /**
   * A successful `create` adds exactly the task's name to the keys, and the
   * task is stored under it with the `nice` option applied (and the mode's
   * pre-pass, as for every stored task).
   */
  lemma CreateAddsTask(mode: ExecutionMode.Mode, options: map<string, Php.Value>, tasks: seq<Entry>, task: Task)
    requires UniqueKeys(tasks) && KeyedByName(tasks)
    requires CreateSpec(mode, options, tasks, task).outcome == Outcome.Done
    ensures multiset(Keys(CreateSpec(mode, options, tasks, task).tasks)) == multiset(Keys(tasks)) + multiset{task.name}
    ensures !HasKey(tasks, task.name)
    ensures Entry(task.name, ExecutionMode.Prepare(mode, WithNiceOption(options, task).value)) in CreateSpec(mode, options, tasks, task).tasks
  {
    var t := WithNiceOption(options, task).value;
    var stored := tasks + [Entry(t.name, t)];
    CreateDone(mode, options, tasks, task);
    assert Keys(stored) == Keys(tasks) + [t.name];
    ExecutionMode.SortKeepsKeys(mode, stored);
    SortedContains(mode, stored, |tasks|);
  }

  /** After a successful `create`, the task's name finds the task as stored: `nice` applied, then the pre-pass. */
  lemma CreateLooksUpStored(mode: ExecutionMode.Mode, options: map<string, Php.Value>, tasks: seq<Entry>, task: Task)
    requires UniqueKeys(tasks) && KeyedByName(tasks)
    requires CreateSpec(mode, options, tasks, task).outcome == Outcome.Done
    ensures Lookup(CreateSpec(mode, options, tasks, task).tasks, task.name) == Some(ExecutionMode.Prepare(mode, WithNiceOption(options, task).value))
  {
    var r := CreateSpec(mode, options, tasks, task).tasks;
    CreateAddsTask(mode, options, tasks, task);
    CreateKeepsValid(mode, options, tasks, task);
    var i :| 0 <= i < |r| && r[i] == Entry(task.name, ExecutionMode.Prepare(mode, WithNiceOption(options, task).value));
    LookupAt(r, i);
  }

  /** What a successful `create` went through: a new name, a `nice` option that is unset or a valid (coerced) nice value, a sort that did not throw. */
  lemma CreateDone(mode: ExecutionMode.Mode, options: map<string, Php.Value>, tasks: seq<Entry>, task: Task)
    requires CreateSpec(mode, options, tasks, task).outcome == Outcome.Done
    ensures !HasKey(tasks, task.name) && WithNiceOption(options, task).Ok?
    ensures WithNiceOption(options, task).value.name == task.name
    ensures !Php.IsSet(options, "nice") ==> WithNiceOption(options, task).value == task
    ensures Php.IsSet(options, "nice") ==>
      && Php.IntArgument(options["nice"]).Ok? && Php.IntArgument(options["nice"]).value.Some?
      && ValidNice(Php.IntArgument(options["nice"]).value.value)
      && WithNiceOption(options, task).value == task.(nice := Php.IntArgument(options["nice"]).value)
    ensures var stored := tasks + [Entry(task.name, WithNiceOption(options, task).value)];
      ExecutionMode.SortSpec(mode, stored) == Ok(CreateSpec(mode, options, tasks, task).tasks)
  {
  }

  /** Every entry of the input, after the mode's pre-pass, is in the sorted output. */
  lemma SortedContains(mode: ExecutionMode.Mode, s: seq<Entry>, i: nat)
    requires ExecutionMode.SortSpec(mode, s).Ok? && i < |s|
    ensures Entry(s[i].key, ExecutionMode.Prepare(mode, s[i].task)) in ExecutionMode.SortSpec(mode, s).value
  {
    ExecutionMode.SortPermutes(mode, s);
    var p := ExecutionMode.Prepared(mode, s);
    assert p[i] in multiset(p);
  }

  /**
   * A set `nice` option that is an integer or an integer string is assigned
   * when it lies in the valid range, and is refused with "The nice value is
   * not valid" otherwise; any other string is a TypeError.
   */
  lemma CreateAppliesNice(options: map<string, Php.Value>, task: Task, n: int)
    requires Php.IsSet(options, "nice") && Php.IntArgument(options["nice"]) == Ok(Some(n))
    ensures ValidNice(n) ==> WithNiceOption(options, task) == Ok(task.(nice := Some(n)))
    ensures !ValidNice(n) ==> WithNiceOption(options, task) == Err(InvalidArgument(InvalidNiceMessage))
  {
  }

  /** A `nice` option given as a string (as a DSN query gives it) acts as the integer it renders. */
  lemma CreateCoercesNiceString(options: map<string, Php.Value>, task: Task, n: int)
    requires "nice" in options && options["nice"] == Php.Str(Php.IntToString(n))
    ensures WithNiceOption(options, task) == WithNiceOption(options["nice" := Php.Int(n)], task)
  {
    Php.IntArgumentOfRendering(n);
  }

  /** A set `nice` option that is neither an integer nor an integer string makes `setNice` a TypeError. */
  lemma CreateRefusesNonNumericNice(options: map<string, Php.Value>, task: Task)
    requires "nice" in options && options["nice"].Str? && !Php.IntegerString(options["nice"].s)
    ensures WithNiceOption(options, task) == Err(TypeError)
  {
  }

  /** `delete` of a missing name changes nothing. */
  lemma {:induction false} DeleteMissing(tasks: seq<Entry>, name: string)
    requires !HasKey(tasks, name)
    ensures Remove(tasks, name) == tasks
  {
    if tasks != [] {
      var init := tasks[..|tasks| - 1];
      var last := tasks[|tasks| - 1];
      assert last.key != name;
      assert !HasKey(init, name) by {
        forall i | 0 <= i < |init| ensures init[i].key != name {
          assert init[i] == tasks[i];
        }
      }
      DeleteMissing(init, name);
      assert Remove(tasks, name) == Remove(init, name) + [last];
      assert tasks == init + [last];
    }
  }

  /** `delete` removes that one name: every other key keeps its task, in the same order. */
  lemma DeleteRemovesOnlyThatName(tasks: seq<Entry>, name: string, other: string)
    requires UniqueKeys(tasks) && other != name
    ensures !HasKey(Remove(tasks, name), name)
    ensures Lookup(Remove(tasks, name), other) == Lookup(tasks, other)
  {
    var r := Remove(tasks, name);
    RemoveKeepsValidKeys(tasks, name);
    if Lookup(tasks, other).Some? {
      var t := Lookup(tasks, other).value;
      var i :| 0 <= i < |tasks| && tasks[i] == Entry(other, t);
      assert tasks[i] in r;
      var j :| 0 <= j < |r| && r[j] == Entry(other, t);
      LookupUnique(r, j);
      LookupUnique(tasks, i);
    }
  }

  lemma RemoveKeepsValidKeys(tasks: seq<Entry>, name: string)
    requires UniqueKeys(tasks)
    ensures UniqueKeys(Remove(tasks, name))
  {
    if tasks != [] {
      RemoveKeepsValidKeys(tasks[..|tasks| - 1], name);
      var r := Remove(tasks[..|tasks| - 1], name);
      var last := tasks[|tasks| - 1];
      if last.key != name {
        forall i | 0 <= i < |r| ensures r[i].key != last.key {
          assert r[i] in tasks[..|tasks| - 1];
        }
      }
    }
  }

  /** Two arrays with the same key at every position find a key at the same position. */
  lemma {:induction false} IndexOfSameKeys(a: seq<Entry>, b: seq<Entry>, key: string)
    requires |a| == |b| && forall k :: 0 <= k < |a| ==> a[k].key == b[k].key
    ensures IndexOf(a, key) == IndexOf(b, key)
  {
    if a != [] && a[0].key != key {
      IndexOfSameKeys(a[1..], b[1..], key);
    }
  }

  /** With unique keys, the slot holding a key is what looking it up finds. */
  lemma LookupUnique(s: seq<Entry>, i: nat)
    requires UniqueKeys(s) && i < |s|
    ensures Lookup(s, s[i].key) == Some(s[i].task)
  {
    var k := IndexOf(s, s[i].key).value;
    assert k == i;
  }

  /** Pausing: a missing or already paused task is left alone; otherwise it becomes paused and nothing else changes. */
  lemma PauseEffect(tasks: seq<Entry>, name: string, other: string)
    requires UniqueKeys(tasks)
    ensures (Lookup(tasks, name).None? || Lookup(tasks, name).value.state == Paused) ==> SetStateSpec(tasks, name, Paused) == tasks
    ensures Lookup(tasks, name).Some? ==>
      Lookup(SetStateSpec(tasks, name, Paused), name) == Some(Lookup(tasks, name).value.(state := Paused))
    ensures other != name ==> Lookup(SetStateSpec(tasks, name, Paused), other) == Lookup(tasks, other)
    ensures Keys(SetStateSpec(tasks, name, Paused)) == Keys(tasks)
  {
    SetStateEffect(tasks, name, other, Paused);
  }

  /** Resuming: a missing or already enabled task is left alone; otherwise it becomes enabled and nothing else changes. */
  lemma ResumeEffect(tasks: seq<Entry>, name: string, other: string)
    requires UniqueKeys(tasks)
    ensures (Lookup(tasks, name).None? || Lookup(tasks, name).value.state == Enabled) ==> SetStateSpec(tasks, name, Enabled) == tasks
    ensures Lookup(tasks, name).Some? ==>
      Lookup(SetStateSpec(tasks, name, Enabled), name) == Some(Lookup(tasks, name).value.(state := Enabled))
    ensures other != name ==> Lookup(SetStateSpec(tasks, name, Enabled), other) == Lookup(tasks, other)
    ensures Keys(SetStateSpec(tasks, name, Enabled)) == Keys(tasks)
  {
    SetStateEffect(tasks, name, other, Enabled);
  }

  lemma SetStateEffect(tasks: seq<Entry>, name: string, other: string, target: TaskState)
    requires UniqueKeys(tasks)
    ensures Lookup(tasks, name).Some? ==>
      Lookup(SetStateSpec(tasks, name, target), name) == Some(Lookup(tasks, name).value.(state := target))
    ensures other != name ==> Lookup(SetStateSpec(tasks, name, target), other) == Lookup(tasks, other)
    ensures Keys(SetStateSpec(tasks, name, target)) == Keys(tasks)
  {
    match Lookup(tasks, name)
    case None =>
    case Some(t) =>
      if t.state != target {
        var e := Entry(name, t.(state := target));
        var i :| 0 <= i < |tasks| && tasks[i].key == name && Put(tasks, name, e.task) == tasks[i := e];
        OverwriteSlot(tasks, i, e, other);
      }
  }

  /** Overwriting one slot with an entry of the same key keeps every key and every other lookup. */
  lemma OverwriteSlot(tasks: seq<Entry>, i: nat, e: Entry, other: string)
    requires i < |tasks| && tasks[i].key == e.key
    ensures Keys(tasks[i := e]) == Keys(tasks)
    ensures other != e.key ==> Lookup(tasks[i := e], other) == Lookup(tasks, other)
  {
    var r := tasks[i := e];
    assert forall k :: 0 <= k < |r| ==> r[k].key == tasks[k].key;
    assert Keys(r) == Keys(tasks);
    if other != e.key {
      IndexOfSameKeys(r, tasks, other);
    }
  }
}
