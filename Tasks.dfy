// The task record, its lifecycle and execution states, and the name-keyed,
// ordered task arrays (PHP arrays keyed by task name) that the stores and the
// orchestrators pass around.

module Tasks {
  import opened Wrappers

  /** The lifecycle states a task can be in. */
  datatype TaskState = Enabled | Paused | Disabled | Undefined

  /** The execution states a runner can leave a task in. */
  datatype ExecutionState = Succeed | Running | Done | Incomplete | Errored | ToRetry

  /**
   * A task. Dates are integer instants (seconds), durations and intervals
   * integer seconds; everything the orchestrators compare is an integer.
   * A relative deadline is a length of time; an absolute deadline is a signed
   * interval, added to "now" when deadlines are compared.
   */
  datatype Task = Task(
    name: string,
    expression: string,
    timezone: Option<string>,
    state: TaskState,
    executionState: Option<ExecutionState>,
    priority: int,
    nice: Option<int>,
    maxDuration: Option<int>,
    computationTime: Option<int>,
    relativeDeadline: Option<int>,
    absoluteDeadline: Option<int>,
    arrivalTime: Option<int>,
    scheduledAt: Option<int>,
    executionStartTime: Option<int>,
    executionEndTime: Option<int>,
    lastExecution: Option<int>,
    queued: bool,
    singleRun: bool,
    tracked: bool,
    tags: seq<string>)

  /**
   * A task with the given name and expression and every optional field unset:
   * enabled, priority 0, not queued, not single-run, tracked.
   */
  function Named(name: string, expression: string): (t: Task)
    ensures t.name == name && t.expression == expression && t.state == Enabled
  {
    Task(name, expression, None, Enabled, None, 0, None, None, None, None, None, None, None, None, None, None,
         false, false, true, [])
  }

  /** The values `setNice` accepts: the POSIX nice values, -20 to 19. */
  predicate ValidNice(n: int)
  {
    -20 <= n <= 19
  }

  const InvalidNiceMessage: string := "The nice value is not valid"

  /** `setNice(nice)`: null clears the value; a value outside the range throws. */
  function SetNice(t: Task, nice: Option<int>): (r: Result<Task>)
    ensures r.Ok? <==> nice.None? || ValidNice(nice.value)
    ensures r.Ok? ==> r.value.nice == nice && r.value.(nice := t.nice) == t
    ensures r.Err? ==> r.error == InvalidArgument(InvalidNiceMessage)
  {
    if nice.Some? && !ValidNice(nice.value) then Err(InvalidArgument(InvalidNiceMessage)) else Ok(t.(nice := nice))
  }

  /** The values the task tests refuse: 20, -25 and 200. */
  lemma SetNiceRefusesOutOfRange(t: Task)
    ensures SetNice(t, Some(20)) == Err(InvalidArgument("The nice value is not valid"))
    ensures SetNice(t, Some(-25)) == Err(InvalidArgument("The nice value is not valid"))
    ensures SetNice(t, Some(200)) == Err(InvalidArgument("The nice value is not valid"))
  {
  }

  /** A failed run: the task and the message of the exception its runner threw. */
  datatype FailedTask = FailedTask(task: Task, reason: string)

  /** The key a failed task is listed under: the task's name followed by `.failed`. */
  function FailedName(f: FailedTask): string
  {
    f.task.name + ".failed"
  }

  /** What a runner hands back after a run that did not throw. */
  datatype Output = Output(content: Option<string>)

  /** One slot of a name-keyed PHP array of tasks. */
  datatype Entry = Entry(key: string, task: Task)

  function Keys(s: seq<Entry>): (r: seq<string>)
    ensures |r| == |s| && forall i :: 0 <= i < |s| ==> r[i] == s[i].key
  {
    if s == [] then [] else Keys(s[..|s| - 1]) + [s[|s| - 1].key]
  }

  function TasksOf(s: seq<Entry>): (r: seq<Task>)
    ensures |r| == |s| && forall i :: 0 <= i < |s| ==> r[i] == s[i].task
  {
    if s == [] then [] else TasksOf(s[..|s| - 1]) + [s[|s| - 1].task]
  }

  /** A PHP array has each key at most once. */
  predicate UniqueKeys(s: seq<Entry>)
  {
    forall i, j :: 0 <= i < j < |s| ==> s[i].key != s[j].key
  }

  /** Every task sits under its own name, as `TaskList::add` and the stores keep them. */
  predicate KeyedByName(s: seq<Entry>)
  {
    forall i :: 0 <= i < |s| ==> s[i].key == s[i].task.name
  }

  predicate HasKey(s: seq<Entry>, key: string)
  {
    exists i :: 0 <= i < |s| && s[i].key == key
  }

  /** The position of `key`, if it is present. */
  function IndexOf(s: seq<Entry>, key: string): (r: Option<nat>)
    ensures r.Some? ==> r.value < |s| && s[r.value].key == key
    ensures r.None? <==> !HasKey(s, key)
    ensures r.Some? ==> forall i :: 0 <= i < r.value ==> s[i].key != key
  {
    if s == [] then None
    else if s[0].key == key then Some(0)
    else match IndexOf(s[1..], key)
      case None => None
      case Some(i) => Some(i + 1)
  }

  /** `$array[$key] ?? null`. */
  function Lookup(s: seq<Entry>, key: string): (r: Option<Task>)
    ensures r.Some? <==> HasKey(s, key)
    ensures r.Some? ==> exists i :: 0 <= i < |s| && s[i] == Entry(key, r.value)
  {
    match IndexOf(s, key)
    case None => None
    case Some(i) => Some(s[i].task)
  }

  /** With each key once, the slot at `i` is what a lookup of its key finds. */
  lemma LookupAt(s: seq<Entry>, i: nat)
    requires UniqueKeys(s) && i < |s|
    ensures Lookup(s, s[i].key) == Some(s[i].task)
  {
    var j :| 0 <= j < |s| && s[j] == Entry(s[i].key, Lookup(s, s[i].key).value);
    assert j == i;
  }

  /** `unset($array[$key])`: every slot under `key` goes, the others keep their order. */
  function Remove(s: seq<Entry>, key: string): (r: seq<Entry>)
    ensures !HasKey(r, key)
    ensures forall e :: e in r <==> e in s && e.key != key
    ensures |r| <= |s|
  {
    if s == [] then []
    else if s[|s| - 1].key == key then Remove(s[..|s| - 1], key)
    else Remove(s[..|s| - 1], key) + [s[|s| - 1]]
  }

  /** `unset` on an array with one more slot at the end: that slot stays exactly when it does not hold the key. */
  lemma RemoveSnoc(s: seq<Entry>, e: Entry, key: string)
    ensures Remove(s + [e], key) == if e.key == key then Remove(s, key) else Remove(s, key) + [e]
  {
    assert (s + [e])[..|s|] == s;
  }

  /** `unset` keeps the surviving slots in their order: it works on each part of an array alone. */
  lemma {:induction false} RemoveAppend(a: seq<Entry>, b: seq<Entry>, key: string)
    ensures Remove(a + b, key) == Remove(a, key) + Remove(b, key)
  {
    if b == [] {
      assert a + b == a;
    } else {
      var init, last := b[..|b| - 1], b[|b| - 1];
      var tail := if last.key == key then [] else [last];
      assert b == init + [last];
      assert a + b == (a + init) + [last];
      assert Remove(b, key) == Remove(init, key) + tail by {
        RemoveSnoc(init, last, key);
      }
      assert Remove(a + b, key) == Remove(a + init, key) + tail by {
        RemoveSnoc(a + init, last, key);
      }
      RemoveAppend(a, init, key);
      Regroup(Remove(a + b, key), Remove(a, key), Remove(init, key), Remove(b, key), tail);
    }
  }

  /** Regrouping a three-part concatenation. */
  lemma Regroup<T>(whole: seq<T>, front: seq<T>, middle: seq<T>, back: seq<T>, tail: seq<T>)
    requires whole == (front + middle) + tail && back == middle + tail
    ensures whole == front + back
  {
  }

  /**
   * `new TaskList($tasks)`: each task is added in turn under its own name, so
   * a later task whose name is already present takes over that earlier slot.
   */
  function TaskListOf(ts: seq<Task>): (r: seq<Entry>)
    ensures |r| <= |ts|
  {
    if ts == [] then [] else Put(TaskListOf(ts[..|ts| - 1]), ts[|ts| - 1].name, ts[|ts| - 1])
  }

  /** Adding a task under its own name keeps a list name-keyed, loses no name and brings in only that task. */
  lemma PutByName(p: seq<Entry>, t: Task)
    requires UniqueKeys(p) && KeyedByName(p)
    ensures UniqueKeys(Put(p, t.name, t)) && KeyedByName(Put(p, t.name, t))
    ensures forall e :: e in Put(p, t.name, t) ==> e in p || e == Entry(t.name, t)
    ensures forall k :: HasKey(p, k) ==> HasKey(Put(p, t.name, t), k)
  {
    if HasKey(p, t.name) {
      var i :| 0 <= i < |p| && p[i].key == t.name && Put(p, t.name, t) == p[i := Entry(t.name, t)];
      PutAt(p, i, t);
    } else {
      PutAtEnd(p, t);
    }
  }

  lemma PutAt(p: seq<Entry>, i: nat, t: Task)
    requires UniqueKeys(p) && KeyedByName(p) && i < |p| && p[i].key == t.name
    ensures var r := p[i := Entry(t.name, t)];
      && UniqueKeys(r) && KeyedByName(r)
      && (forall e :: e in r ==> e in p || e == Entry(t.name, t))
      && (forall k :: HasKey(p, k) ==> HasKey(r, k))
  {
    var r := p[i := Entry(t.name, t)];
    assert forall j :: 0 <= j < |r| ==> r[j].key == p[j].key;
    forall e | e in r ensures e in p || e == Entry(t.name, t) {
      var j :| 0 <= j < |r| && r[j] == e;
      if j != i {
        assert e == p[j];
      }
    }
  }

  lemma PutAtEnd(p: seq<Entry>, t: Task)
    requires UniqueKeys(p) && KeyedByName(p) && !HasKey(p, t.name)
    ensures var r := p + [Entry(t.name, t)];
      && UniqueKeys(r) && KeyedByName(r)
      && (forall e :: e in r ==> e in p || e == Entry(t.name, t))
      && (forall k :: HasKey(p, k) ==> HasKey(r, k))
  {
    var r := p + [Entry(t.name, t)];
    forall k | HasKey(p, k) ensures HasKey(r, k) {
      var j :| 0 <= j < |p| && p[j].key == k;
      assert r[j].key == k;
    }
  }

  /** A task list has each name once, each task under its own name, every task given and nothing else. */
  lemma {:induction false} TaskListOfKeyed(ts: seq<Task>)
    ensures UniqueKeys(TaskListOf(ts)) && KeyedByName(TaskListOf(ts))
    ensures forall e :: e in TaskListOf(ts) ==> e.task in ts
    ensures forall t :: t in ts ==> HasKey(TaskListOf(ts), t.name)
  {
    if ts != [] {
      var init, last := ts[..|ts| - 1], ts[|ts| - 1];
      TaskListOfKeyed(init);
      var p := TaskListOf(init);
      PutByName(p, last);
      assert TaskListOf(ts) == Put(p, last.name, last);
      assert forall t :: t in ts ==> t in init || t == last;
      assert HasKey(TaskListOf(ts), last.name);
    }
  }

  /** Tasks with distinct names each get a slot of their own, in the order given. */
  lemma {:induction false} TaskListOfDistinct(ts: seq<Task>)
    requires forall i, j :: 0 <= i < j < |ts| ==> ts[i].name != ts[j].name
    ensures |TaskListOf(ts)| == |ts|
    ensures forall i :: 0 <= i < |ts| ==> TaskListOf(ts)[i] == Entry(ts[i].name, ts[i])
  {
    if ts != [] {
      var init, last := ts[..|ts| - 1], ts[|ts| - 1];
      TaskListOfDistinct(init);
      var p := TaskListOf(init);
      assert !HasKey(p, last.name) by {
        forall j | 0 <= j < |p| ensures p[j].key != last.name {
          assert p[j].key == ts[j].name;
        }
      }
      var r := p + [Entry(last.name, last)];
      assert TaskListOf(ts) == r;
      forall i | 0 <= i < |ts| ensures r[i] == Entry(ts[i].name, ts[i]) {
        if i < |p| {
          assert r[i] == p[i] && ts[i] == init[i];
        }
      }
    }
  }

  /** Tasks with distinct names are each found under their own name. */
  lemma TaskListOfDistinctLookup(ts: seq<Task>)
    requires forall i, j :: 0 <= i < j < |ts| ==> ts[i].name != ts[j].name
    ensures |TaskListOf(ts)| == |ts|
    ensures forall t :: t in ts ==> Lookup(TaskListOf(ts), t.name) == Some(t)
  {
    TaskListOfDistinct(ts);
    var r := TaskListOf(ts);
    assert UniqueKeys(r);
    forall t | t in ts ensures Lookup(r, t.name) == Some(t) {
      var i :| 0 <= i < |ts| && ts[i] == t;
      LookupAt(r, i);
    }
  }

  /** Two tasks under one name make a one-slot list holding the later of them. */
  lemma TaskListOfSameName(a: Task, b: Task)
    requires a.name == b.name
    ensures TaskListOf([a, b]) == [Entry(b.name, b)]
  {
    assert [a, b][..1] == [a];
    assert [a][..0] == [];
    assert Put([], a.name, a) == [Entry(a.name, a)];
    assert HasKey([Entry(a.name, a)], b.name);
  }

  /** `$array[$key] = $task`: an existing slot is overwritten in place, a new key is appended. */
  function Put(s: seq<Entry>, key: string, task: Task): (r: seq<Entry>)
    ensures Lookup(r, key) == Some(task)
    ensures HasKey(s, key) ==> exists i :: 0 <= i < |s| && s[i].key == key && r == s[i := Entry(key, task)]
    ensures !HasKey(s, key) ==> r == s + [Entry(key, task)]
  {
    match IndexOf(s, key)
    case None =>
      assert (s + [Entry(key, task)])[|s|] == Entry(key, task);
      s + [Entry(key, task)]
    case Some(i) =>
      var r := s[i := Entry(key, task)];
      assert r[i] == Entry(key, task);
      assert forall j :: 0 <= j < i ==> r[j] == s[j];
      r
  }
}
