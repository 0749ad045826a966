// The execution-mode orchestrator: the six ordering modes, the constructor's
// mode check and `sort`, which runs the mode's pre-pass over the tasks and
// then PHP's `uasort` with the mode's boolean comparator.
//
// `uasort` is modelled as a stable insertion sort: each task moves left past
// every task already placed that the comparator says belongs after it. For a
// comparator that is a strict weak order on the given tasks this is the
// order every stable sort produces.

module ExecutionMode {
  import opened Wrappers
  import opened Tasks
  import Php
  import Uasort

  datatype Mode = RoundRobin | Deadline | Batch | Fifo | Idle | Normal

  /** The mode constants, in the order of `EXECUTION_MODES`. */
  function ModeName(m: Mode): string
  {
    match m
    case RoundRobin => "round_robin"
    case Deadline => "deadline"
    case Batch => "batch"
    case Fifo => "first_in_first_out"
    case Idle => "idle"
    case Normal => "normal"
  }

  const ExecutionModes: seq<string> := ["round_robin", "deadline", "batch", "first_in_first_out", "idle", "normal"]

  /** The mode the constructor uses when none is given. */
  const DefaultMode: Mode := Fifo

  function InvalidModeMessage(mode: string): string
  {
    "The given mode \"" + mode + "\" is not a valid one, allowed ones are: \"round_robin, deadline, batch, first_in_first_out, idle, normal\""
  }

  /** The constructor: accepts exactly the six mode names, and `getMode` gives the name back. */
  function NewOrchestrator(mode: string): (r: Result<Mode>)
    ensures r.Ok? <==> mode in ExecutionModes
    ensures r.Ok? ==> GetMode(r.value) == mode
    ensures r.Err? ==> r.error == InvalidArgument(InvalidModeMessage(mode))
  {
    if mode == "round_robin" then Ok(RoundRobin)
    else if mode == "deadline" then Ok(Deadline)
    else if mode == "batch" then Ok(Batch)
    else if mode == "first_in_first_out" then Ok(Fifo)
    else if mode == "idle" then Ok(Idle)
    else if mode == "normal" then Ok(Normal)
    else Err(InvalidArgument(InvalidModeMessage(mode)))
  }

  function GetMode(m: Mode): string
  {
    ModeName(m)
  }

  /** `$options['execution_mode'] ?? 'first_in_first_out'`: the mode a transport asks for. */
  function ModeOption(options: map<string, Php.Value>): string
  {
    if "execution_mode" !in options then ModeName(DefaultMode)
    else match options["execution_mode"]
      case Null => ModeName(DefaultMode)
      case Str(s) => s
      case Int(i) => Php.IntToString(i)
  }

  /** Every mode survives being named and parsed back, and only its own name parses to it. */
  lemma ModeNameRoundTrip(m: Mode, name: string)
    ensures NewOrchestrator(GetMode(m)) == Ok(m)
    ensures NewOrchestrator(name) == Ok(m) ==> name == GetMode(m)
  {
  }

  /**
   * The comparator handed to `uasort`: true when `a` is placed after `b`.
   * A deadline comparison with a missing absolute deadline throws instead;
   * `Sort` reports that case, so here it is simply false.
   */
  predicate After(mode: Mode, a: Task, b: Task)
  {
    match mode
    case Fifo => a.priority >= 0 && a.priority < b.priority
    case RoundRobin =>
      Php.LessEq(a.maxDuration, a.computationTime) && Php.Less(a.computationTime, b.computationTime)
    case Deadline =>
      a.absoluteDeadline.Some? && b.absoluteDeadline.Some? && a.absoluteDeadline.value < b.absoluteDeadline.value
    case Batch => a.priority < b.priority
    case Idle => a.priority <= 19 && a.priority < b.priority
    case Normal => if a.priority > 0 || b.priority > 0 then false else Php.Less(b.nice, a.nice)
  }

  // ---- the sort as a specification ----

  /** The comparator of a mode, as the closure `uasort` receives it, lifted to array slots. */
  function Comparator(mode: Mode): (Entry, Entry) -> bool
  {
    (a: Entry, b: Entry) => After(mode, a.task, b.task)
  }

  /** Batch mode lowers a priority by one (`--$priority`). */
  function Decremented(t: Task): Task
  {
    t.(priority := t.priority - 1)
  }

  /**
   * Deadline mode's rewrite. `(arrival + relative)->diff(arrival)` is the
   * relative deadline with its sign inverted, so the stored absolute deadline
   * is `-relative`. Tasks lacking a relative deadline or an arrival time keep theirs.
   */
  function DeadlineRewritten(t: Task): Task
  {
    if t.relativeDeadline.None? || t.arrivalTime.None? then t
    else t.(absoluteDeadline := Some(-t.relativeDeadline.value))
  }

  /** The per-task pre-pass of a mode, before ordering. */
  function Prepare(mode: Mode, t: Task): Task
  {
    match mode
    case Batch => Decremented(t)
    case Deadline => DeadlineRewritten(t)
    case _ => t
  }

  function Prepared(mode: Mode, s: seq<Entry>): (r: seq<Entry>)
    ensures |r| == |s|
    ensures forall i :: 0 <= i < |s| ==> r[i] == Entry(s[i].key, Prepare(mode, s[i].task))
  {
    if s == [] then [] else Prepared(mode, s[..|s| - 1]) + [Entry(s[|s| - 1].key, Prepare(mode, s[|s| - 1].task))]
  }

  /** The deadline comparator adds a null interval to a date: a TypeError, raised once two tasks are compared. */
  predicate DeadlineTypeError(mode: Mode, p: seq<Entry>)
  {
    mode == Deadline && |p| >= 2 && exists i :: 0 <= i < |p| && p[i].task.absoluteDeadline.None?
  }

  /** What `sort` returns for a mode and a name-keyed task array. */
  function SortSpec(mode: Mode, s: seq<Entry>): Result<seq<Entry>>
  {
    var p := Prepared(mode, s);
    if DeadlineTypeError(mode, p) then Err(TypeError) else Ok(Uasort.InsertionSort(Comparator(mode), p))
  }

  // ---- the sort as PHP runs it: pre-pass loops, then uasort, over an array ----

  /** `array_walk` lowering every priority by one, in place. */
  method DecrementAll(a: array<Entry>)
    modifies a
    ensures a[..] == Prepared(Batch, old(a[..]))
  {
    var i := 0;
    while i < a.Length
      invariant 0 <= i <= a.Length
      invariant forall k :: 0 <= k < i ==> a[k] == Entry(old(a[k]).key, Decremented(old(a[k]).task))
      invariant forall k :: i <= k < a.Length ==> a[k] == old(a[k])
    {
      var t := a[i].task;
      a[i] := Entry(a[i].key, t.(priority := t.priority - 1));
      i := i + 1;
    }
  }

  /** The `foreach` that rewrites absolute deadlines, in place. */
  method RewriteDeadlines(a: array<Entry>)
    modifies a
    ensures a[..] == Prepared(Deadline, old(a[..]))
  {
    var i := 0;
    while i < a.Length
      invariant 0 <= i <= a.Length
      invariant forall k :: 0 <= k < i ==> a[k] == Entry(old(a[k]).key, DeadlineRewritten(old(a[k]).task))
      invariant forall k :: i <= k < a.Length ==> a[k] == old(a[k])
    {
      var t := a[i].task;
      if t.relativeDeadline.Some? && t.arrivalTime.Some? {
        var arrival := t.arrivalTime.value;
        var absoluteDate := arrival + t.relativeDeadline.value;
        a[i] := Entry(a[i].key, t.(absoluteDeadline := Some(arrival - absoluteDate)));
      }
      i := i + 1;
    }
  }

  /** The mode's pre-pass over the array, in place. */
  method Prepass(a: array<Entry>, mode: Mode)
    modifies a
    ensures a[..] == Prepared(mode, old(a[..]))
  {
    match mode {
      case Batch => DecrementAll(a);
      case Deadline => RewriteDeadlines(a);
      case _ =>
        assert a[..] == Prepared(mode, a[..]);
    }
  }

  /** `sort($tasks)`: the mode's pre-pass, then `uasort` with its comparator. */
  /**
   * `prepared` is the array as the pre-pass left it. The pre-pass changes the
   * task objects the caller shares, so the caller holds these tasks even when
   * the sort then throws.
   */
  method Sort(mode: Mode, tasks: seq<Entry>) returns (r: Result<seq<Entry>>, prepared: seq<Entry>)
    ensures r == SortSpec(mode, tasks)
    ensures prepared == Prepared(mode, tasks)
  {
    var a := new Entry[|tasks|](i requires 0 <= i < |tasks| => tasks[i]);
    assert a[..] == tasks;
    Prepass(a, mode);
    prepared := a[..];
    if mode == Deadline && a.Length >= 2 && exists i :: 0 <= i < a.Length && a[i].task.absoluteDeadline.None? {
      assert DeadlineTypeError(mode, prepared);
      r := Err(TypeError);
      return;
    }
    assert !DeadlineTypeError(mode, prepared);
    Uasort.SortInPlace(a, Comparator(mode));
    r := Ok(a[..]);
  }

  // ---- what the order is: a permutation that keeps every key ----

  function KeyOf(e: Entry): string
  {
    e.key
  }

  lemma KeysAsMap(s: seq<Entry>)
    ensures Keys(s) == Uasort.Map(KeyOf, s)
  {
  }

  lemma {:induction false} PreparedKeys(mode: Mode, s: seq<Entry>)
    ensures Keys(Prepared(mode, s)) == Keys(s)
  {
  }

  /** What `sort` returns is a rearrangement of the pre-passed input: the same entries, as often. */
  lemma SortPermutes(mode: Mode, s: seq<Entry>)
    ensures SortSpec(mode, s).Ok? ==>
      multiset(SortSpec(mode, s).value) == multiset(Prepared(mode, s)) && |SortSpec(mode, s).value| == |s|
  {
    Uasort.SortPermutes(Comparator(mode), Prepared(mode, s));
  }

  /** Every key of the input is in the output as often as before, and no other. */
  lemma SortKeepsKeys(mode: Mode, s: seq<Entry>)
    ensures SortSpec(mode, s).Ok? ==> multiset(Keys(SortSpec(mode, s).value)) == multiset(Keys(s))
  {
    var p := Prepared(mode, s);
    Uasort.SortMapPermutes(Comparator(mode), KeyOf, p);
    KeysAsMap(p);
    KeysAsMap(Uasort.InsertionSort(Comparator(mode), p));
    PreparedKeys(mode, s);
  }

  /** Each task of the output is an input task under its original key, changed only by the pre-pass. */
  lemma SortKeepsTasksUnderTheirKeys(mode: Mode, s: seq<Entry>, e: Entry)
    requires SortSpec(mode, s).Ok? && e in SortSpec(mode, s).value
    ensures exists i :: 0 <= i < |s| && e == Entry(s[i].key, Prepare(mode, s[i].task))
  {
    var p := Prepared(mode, s);
    SortPermutes(mode, s);
    assert e in multiset(SortSpec(mode, s).value);
    assert e in multiset(p);
    var i :| 0 <= i < |p| && p[i] == e;
  }

  /** The modes without a pre-pass never throw and return exactly the input's entries, rearranged. */
  lemma SortWithoutPrepass(mode: Mode, s: seq<Entry>)
    requires mode !in {Batch, Deadline}
    ensures SortSpec(mode, s).Ok? && multiset(SortSpec(mode, s).value) == multiset(s)
  {
    PreparedIdentity(mode, s);
    SortPermutes(mode, s);
  }

  // ---- the order each mode produces ----

  function PriorityOf(e: Entry): int
  {
    e.task.priority
  }

  function AbsoluteDeadlineOf(e: Entry): int
  {
    if e.task.absoluteDeadline.Some? then e.task.absoluteDeadline.value else 0
  }

  function NiceRank(e: Entry): int
  {
    if e.task.nice.Some? then -e.task.nice.value else 0
  }

  /** Batch mode lowers every priority by exactly one and keeps everything else. */
  lemma BatchLowersEveryPriority(s: seq<Entry>, e: Entry)
    requires e in SortSpec(Batch, s).value
    ensures exists i :: 0 <= i < |s| && e.key == s[i].key && e.task == s[i].task.(priority := s[i].task.priority - 1)
  {
    SortKeepsTasksUnderTheirKeys(Batch, s, e);
    var i :| 0 <= i < |s| && e == Entry(s[i].key, Prepare(Batch, s[i].task));
    assert Prepare(Batch, s[i].task) == s[i].task.(priority := s[i].task.priority - 1);
  }

  /** Batch mode puts a higher (lowered) priority first, and never throws. */
  lemma BatchOrder(s: seq<Entry>)
    ensures SortSpec(Batch, s).Ok?
    ensures Uasort.Descending(SortSpec(Batch, s).value, PriorityOf)
  {
    var p := Prepared(Batch, s);
    assert SortSpec(Batch, s) == Ok(Uasort.InsertionSort(Comparator(Batch), p));
    ComparesPriorities(Batch, p);
    Uasort.SortDescending(Comparator(Batch), PriorityOf, p);
  }

  /** The priority comparators compare by priority wherever their guard holds. */
  lemma ComparesPriorities(mode: Mode, p: seq<Entry>)
    requires mode == Batch || (mode == Fifo && forall i :: 0 <= i < |p| ==> p[i].task.priority >= 0)
      || (mode == Idle && forall i :: 0 <= i < |p| ==> p[i].task.priority <= 19)
    ensures Uasort.ComparesKeys(Comparator(mode), PriorityOf, p)
  {
    forall a, b | a in p && b in p
      ensures Comparator(mode)(a, b) <==> PriorityOf(a) < PriorityOf(b)
    {
      var i :| 0 <= i < |p| && p[i] == a;
    }
  }

  lemma ComparesDeadlines(p: seq<Entry>)
    requires forall i :: 0 <= i < |p| ==> p[i].task.absoluteDeadline.Some?
    ensures Uasort.ComparesKeys(Comparator(Deadline), AbsoluteDeadlineOf, p)
  {
    forall a, b | a in p && b in p
      ensures Comparator(Deadline)(a, b) <==> AbsoluteDeadlineOf(a) < AbsoluteDeadlineOf(b)
    {
      var i :| 0 <= i < |p| && p[i] == a;
      var j :| 0 <= j < |p| && p[j] == b;
    }
  }

  lemma ComparesNice(p: seq<Entry>)
    requires forall i :: 0 <= i < |p| ==> p[i].task.priority <= 0 && p[i].task.nice.Some?
    ensures Uasort.ComparesKeys(Comparator(Normal), NiceRank, p)
  {
    forall a, b | a in p && b in p
      ensures Comparator(Normal)(a, b) <==> NiceRank(a) < NiceRank(b)
    {
      var i :| 0 <= i < |p| && p[i] == a;
      var j :| 0 <= j < |p| && p[j] == b;
    }
  }

  /** With no negative priority, first-in-first-out mode puts a higher priority first. */
  lemma FifoOrder(s: seq<Entry>)
    requires forall i :: 0 <= i < |s| ==> s[i].task.priority >= 0
    ensures SortSpec(Fifo, s).Ok?
    ensures Uasort.Descending(SortSpec(Fifo, s).value, PriorityOf)
  {
    PreparedIdentity(Fifo, s);
    assert SortSpec(Fifo, s) == Ok(Uasort.InsertionSort(Comparator(Fifo), s));
    ComparesPriorities(Fifo, s);
    Uasort.SortDescending(Comparator(Fifo), PriorityOf, s);
  }

  /** With every priority at most 19, idle mode puts a higher priority first. */
  lemma IdleOrder(s: seq<Entry>)
    requires forall i :: 0 <= i < |s| ==> s[i].task.priority <= 19
    ensures SortSpec(Idle, s).Ok?
    ensures Uasort.Descending(SortSpec(Idle, s).value, PriorityOf)
  {
    PreparedIdentity(Idle, s);
    assert SortSpec(Idle, s) == Ok(Uasort.InsertionSort(Comparator(Idle), s));
    ComparesPriorities(Idle, s);
    Uasort.SortDescending(Comparator(Idle), PriorityOf, s);
  }

  /** When every task has an absolute deadline after the rewrite, deadline mode puts the later one first. */
  lemma DeadlineOrder(s: seq<Entry>)
    requires forall i :: 0 <= i < |s| ==> DeadlineRewritten(s[i].task).absoluteDeadline.Some?
    ensures SortSpec(Deadline, s).Ok?
    ensures Uasort.Descending(SortSpec(Deadline, s).value, AbsoluteDeadlineOf)
  {
    var p := Prepared(Deadline, s);
    forall i | 0 <= i < |p|
      ensures p[i].task.absoluteDeadline.Some?
    {
      assert p[i].task == DeadlineRewritten(s[i].task);
    }
    assert !DeadlineTypeError(Deadline, p);
    assert SortSpec(Deadline, s) == Ok(Uasort.InsertionSort(Comparator(Deadline), p));
    ComparesDeadlines(p);
    Uasort.SortDescending(Comparator(Deadline), AbsoluteDeadlineOf, p);
  }

  /** A deadline sort of two or more tasks throws once some task still lacks an absolute deadline. */
  lemma DeadlineMissing(s: seq<Entry>, k: nat)
    requires |s| >= 2 && k < |s| && DeadlineRewritten(s[k].task).absoluteDeadline.None?
    ensures SortSpec(Deadline, s) == Err(TypeError)
  {
    assert Prepared(Deadline, s)[k].task.absoluteDeadline.None?;
  }

  /** With no positive priority and every nice value set, normal mode puts the smaller nice value first. */
  lemma NormalOrder(s: seq<Entry>)
    requires forall i :: 0 <= i < |s| ==> s[i].task.priority <= 0 && s[i].task.nice.Some?
    ensures SortSpec(Normal, s).Ok?
    ensures Uasort.Descending(SortSpec(Normal, s).value, NiceRank)
  {
    PreparedIdentity(Normal, s);
    assert SortSpec(Normal, s) == Ok(Uasort.InsertionSort(Comparator(Normal), s));
    ComparesNice(s);
    Uasort.SortDescending(Comparator(Normal), NiceRank, s);
  }

  lemma PreparedIdentity(mode: Mode, s: seq<Entry>)
    requires mode !in {Batch, Deadline}
    ensures Prepared(mode, s) == s
  {
  }

  lemma NormalNeverFires(s: seq<Entry>)
    requires forall i :: 0 <= i < |s| ==> s[i].task.priority > 0
    ensures forall i, j :: 0 <= i < |s| && 0 <= j < |s| ==> !Comparator(Normal)(s[i], s[j])
  {
  }

  /** Normal mode leaves tasks with positive priorities where they are. */
  lemma NormalKeepsPositivePriorities(s: seq<Entry>)
    requires forall i :: 0 <= i < |s| ==> s[i].task.priority > 0
    ensures SortSpec(Normal, s) == Ok(s)
  {
    PreparedIdentity(Normal, s);
    NormalNeverFires(s);
    Uasort.SortStable(Comparator(Normal), s);
  }

  // ---- the orders the orchestrator's tests expect ----

  function WithPriority(name: string, priority: int): Entry
  {
    Entry(name, Named(name, "* * * * *").(priority := priority))
  }

  /** `app=100, foo=200, bar=75` in first-in-first-out mode becomes `foo, app, bar`. */
  lemma FifoExample()
    ensures SortSpec(Fifo, [WithPriority("app", 100), WithPriority("foo", 200), WithPriority("bar", 75)])
      == Ok([WithPriority("foo", 200), WithPriority("app", 100), WithPriority("bar", 75)])
  {
    var app, foo, bar := WithPriority("app", 100), WithPriority("foo", 200), WithPriority("bar", 75);
    var s := [app, foo, bar];
    var cmp := Comparator(Fifo);
    assert Prepared(Fifo, s) == s;
    assert s[..2] == [app, foo] && [app, foo][..1] == [app] && [app][..0] == [];
    assert Uasort.InsertionSort(cmp, [app]) == [app];
    assert Uasort.Insert(cmp, [app], foo) == [foo, app];
    assert Uasort.InsertionSort(cmp, [app, foo]) == [foo, app];
    assert Uasort.Insert(cmp, [foo, app], bar) == [foo, app, bar];
  }

  /** In the default mode `app=2, foo=1` stays as it is. */
  lemma DefaultModeExample()
    ensures SortSpec(DefaultMode, [WithPriority("app", 2), WithPriority("foo", 1)])
      == Ok([WithPriority("app", 2), WithPriority("foo", 1)])
  {
    var app, foo := WithPriority("app", 2), WithPriority("foo", 1);
    var s := [app, foo];
    assert Prepared(Fifo, s) == s;
    assert s[..1] == [app] && [app][..0] == [];
    assert Uasort.InsertionSort(Comparator(Fifo), [app]) == [app];
  }

  /** Round-robin: `foo` (computation time 10 of at most 10) and `bar` (12) become `bar, foo`. */
  lemma RoundRobinExample()
    ensures var foo := Entry("foo", Named("foo", "* * * * *").(computationTime := Some(10), maxDuration := Some(10)));
            var bar := Entry("bar", Named("bar", "* * * * *").(computationTime := Some(12)));
            SortSpec(RoundRobin, [foo, bar]) == Ok([bar, foo])
  {
    var foo := Entry("foo", Named("foo", "* * * * *").(computationTime := Some(10), maxDuration := Some(10)));
    var bar := Entry("bar", Named("bar", "* * * * *").(computationTime := Some(12)));
    var s := [foo, bar];
    assert Prepared(RoundRobin, s) == s;
    assert s[..1] == [foo] && [foo][..0] == [];
    var cmp := Comparator(RoundRobin);
    assert Uasort.InsertionSort(cmp, [foo]) == [foo];
    assert cmp(foo, bar);
    assert Uasort.Insert(cmp, [foo], bar) == [bar, foo];
  }

  /** Deadline: `foo` due in two days and `bar` in three become `bar, foo`. */
  lemma DeadlineExample()
    ensures var foo := Entry("foo", Named("foo", "* * * * *").(absoluteDeadline := Some(2 * 86400)));
            var bar := Entry("bar", Named("bar", "* * * * *").(absoluteDeadline := Some(3 * 86400)));
            SortSpec(Deadline, [foo, bar]) == Ok([bar, foo])
  {
    var foo := Entry("foo", Named("foo", "* * * * *").(absoluteDeadline := Some(2 * 86400)));
    var bar := Entry("bar", Named("bar", "* * * * *").(absoluteDeadline := Some(3 * 86400)));
    var s := [foo, bar];
    assert Prepared(Deadline, s) == s;
    assert !DeadlineTypeError(Deadline, s);
    assert s[..1] == [foo] && [foo][..0] == [];
    var cmp := Comparator(Deadline);
    assert Uasort.InsertionSort(cmp, [foo]) == [foo];
    assert cmp(foo, bar);
    assert Uasort.Insert(cmp, [foo], bar) == [bar, foo];
  }

  /** Idle: `app=-20, foo=-10` becomes `foo, app`. */
  lemma IdleExample()
    ensures SortSpec(Idle, [WithPriority("app", -20), WithPriority("foo", -10)])
      == Ok([WithPriority("foo", -10), WithPriority("app", -20)])
  {
    var app, foo := WithPriority("app", -20), WithPriority("foo", -10);
    var s := [app, foo];
    assert Prepared(Idle, s) == s;
    assert s[..1] == [app] && [app][..0] == [];
    var cmp := Comparator(Idle);
    assert Uasort.InsertionSort(cmp, [app]) == [app];
    assert cmp(app, foo);
    assert Uasort.Insert(cmp, [app], foo) == [foo, app];
  }
}
