// The filesystem transport: one JSON file per task, named after the task,
// in a single directory. The directory is modelled as a map from file names
// to the task each file decodes to.

module Filesystem {
  import opened Wrappers
  import opened Tasks
  import Php
  import ExecutionMode

  const Extension: string := ".json"

  /** The file `sprintf('%s/%s.json', $path, $name)` names inside the directory. */
  function FileName(name: string): string
  {
    name + Extension
  }

  /** The task name `list()` and `clear()` recover from a file name, as written: `strtr($file, ['.json' => ''])`. */
  function ListedNameAsWritten(file: string): string
  {
    Php.Strtr(file, Extension, "")
  }

  /** The task name a file name stands for: the name without its trailing extension. */
  function ListedName(file: string): (name: string)
    requires |file| >= |Extension|
    ensures |name| == |file| - |Extension|
  {
    file[..|file| - |Extension|]
  }

  lemma ListedNameRoundTrip(name: string)
    ensures ListedName(FileName(name)) == name
  {
  }

  /** A task called `a.json` is stored as `a.json.json`, which `strtr` turns back into `a`, not `a.json`. */
  lemma ListedNameAsWrittenLosesInnerExtension()
    ensures ListedNameAsWritten(FileName("a.json")) == "a"
    ensures ListedName(FileName("a.json")) == "a.json"
  {
    var f := FileName("a.json");
    assert f == "a.json.json";
    assert Php.Strtr(f[6..], Extension, "") == "";
    assert f[1..][..5] == Extension;
    assert Php.Strtr(f[1..], Extension, "") == "" + Php.Strtr(f[6..], Extension, "");
    assert Php.Strtr(f, Extension, "") == ['a'] + Php.Strtr(f[1..], Extension, "");
  }

  /** A name in which `.json` does not occur. */
  predicate PlainName(name: string)
  {
    !Php.Contains(name, Extension)
  }

  /** For a name without `.json` in it, `strtr` as written does remove only the trailing extension. */
  lemma {:induction false} ListedNameAsWrittenOfPlainName(name: string)
    requires PlainName(name)
    ensures ListedNameAsWritten(FileName(name)) == name
    decreases |name|
  {
    var f := FileName(name);
    if name == [] {
      assert f == Extension && f[..|Extension|] == Extension;
      assert f[|Extension|..] == [];
    } else {
      NoExtensionAtStart(name);
      var tail := name[1..];
      assert PlainName(tail) by {
        forall j: nat | j <= |tail| && Php.OccursAt(tail, Extension, j)
          ensures false
        {
          assert name[j + 1..j + 1 + |Extension|] == tail[j..j + |Extension|];
          assert Php.OccursAt(name, Extension, j + 1);
        }
      }
      ListedNameAsWrittenOfPlainName(tail);
      assert f[1..] == FileName(tail);
      assert ListedNameAsWritten(f) == [name[0]] + ListedNameAsWritten(FileName(tail));
    }
  }

  /** The file name of a non-empty plain name does not start with the extension. */
  lemma NoExtensionAtStart(name: string)
    requires PlainName(name) && name != []
    ensures FileName(name)[..|Extension|] != Extension
  {
    var f := FileName(name);
    if |name| >= |Extension| {
      assert !Php.OccursAt(name, Extension, 0);
      assert f[..|Extension|] == name[0..|Extension|];
    } else {
      assert f[..|Extension|][|name|] == '.';
      assert Extension[|name|] != '.';
    }
  }

  function DoesNotExistMessage(name: string): string
  {
    "The \"" + name + "\" task does not exist"
  }

  function AlreadyScheduledMessage(name: string): string
  {
    "The \"" + name + "\" task has already been scheduled"
  }

  function AlreadyInStateMessage(name: string, target: TaskState): string
  {
    if target == Paused then "The task \"" + name + "\" is already paused"
    else "The task \"" + name + "\" is already enabled"
  }

  /** Every file is named after the task it holds. */
  ghost predicate NamedFiles(files: map<string, Task>)
  {
    forall f :: f in files ==> f == FileName(files[f].name)
  }

  /** No stored task has `.json` anywhere in its name. */
  ghost predicate PlainNames(files: map<string, Task>)
  {
    forall f :: f in files ==> PlainName(files[f].name)
  }

  /** The file `get` reads for the directory entry `f` when `list()` walks it. */
  predicate Readable(files: map<string, Task>, f: string)
  {
    FileName(ListedNameAsWritten(f)) in files
  }

  function Read(files: map<string, Task>, f: string): Task
    requires Readable(files, f)
  {
    files[FileName(ListedNameAsWritten(f))]
  }

  /** Some file of the directory stands, as `list()` reads it, for a task that has no file: its `get` throws. */
  predicate ListingFails(files: map<string, Task>)
  {
    exists f {:trigger Readable(files, f)} :: f in files && !Readable(files, f)
  }

  /** The files `clear()` removes, as written: `<strtr(f)>.json` for each file `f` it finds. */
  function Removed(found: set<string>): set<string>
  {
    set f | f in found :: FileName(ListedNameAsWritten(f))
  }

  /** The directory `clear()` leaves behind. */
  function ClearSpec(files: map<string, Task>): map<string, Task>
  {
    files - Removed(files.Keys)
  }

  /** The outcome of an operation and the directory it leaves behind. */
  datatype Written = Written(outcome: Outcome, files: map<string, Task>)

  /** `create(task)`: refused when the task's file exists, otherwise the file is written. */
  function CreateSpec(files: map<string, Task>, task: Task): Written
  {
    if FileName(task.name) in files then Written(Fail(InvalidArgument(AlreadyScheduledMessage(task.name))), files)
    else Written(Outcome.Done, files[FileName(task.name) := task])
  }

  /** `update(name, task)`: the old file is removed, then `task` is created under its own name. */
  function UpdateSpec(files: map<string, Task>, name: string, task: Task): Written
  {
    if FileName(name) !in files then Written(Fail(InvalidArgument(DoesNotExistMessage(name))), files)
    else CreateSpec(files - {FileName(name)}, task)
  }

  /** `pause(name)` / `resume(name)`: the stored task is rewritten with `target` unless it is missing or already there. */
  function SetStateSpec(files: map<string, Task>, name: string, target: TaskState): Written
  {
    if FileName(name) !in files then Written(Fail(InvalidArgument(DoesNotExistMessage(name))), files)
    else
      var t := files[FileName(name)];
      if t.state == target then Written(Fail(Logic(AlreadyInStateMessage(name, target))), files)
      else UpdateSpec(files, name, t.(state := target))
  }

  class FilesystemTransport {
    /** The directory the task files live in. */
    const path: string
    const options: map<string, Php.Value>
    const mode: ExecutionMode.Mode
    /** The directory's task files. */
    var files: map<string, Task>

    ghost predicate Valid()
      reads this
    {
      NamedFiles(files)
    }

    constructor (path: string, options: map<string, Php.Value>, mode: ExecutionMode.Mode, files: map<string, Task>)
      requires ExecutionMode.NewOrchestrator(ExecutionMode.ModeOption(options)) == Ok(mode)
      requires NamedFiles(files)
      ensures this.path == path && this.options == options && this.mode == mode && this.files == files && Valid()
    {
      this.path := path;
      this.options := options;
      this.mode := mode;
      this.files := files;
    }

    function FileExists(name: string): bool
      reads this
    {
      FileName(name) in files
    }

    /** `get(name)`: the task decoded from its file, or an `InvalidArgumentException` when there is none. */
    function Get(name: string): (r: Result<Task>)
      reads this
      requires Valid()
      ensures r.Ok? <==> FileExists(name)
      ensures r.Ok? ==> r.value.name == name && files[FileName(name)] == r.value
      ensures r.Err? ==> r.error == InvalidArgument(DoesNotExistMessage(name))
    {
      if !FileExists(name) then Err(InvalidArgument(DoesNotExistMessage(name)))
      else
        var t := files[FileName(name)];
        assert FileName(t.name) == FileName(name);
        assert t.name == ListedName(FileName(t.name));
        Ok(t)
    }

    function GetOptions(): map<string, Php.Value>
      reads this
    {
      options
    }

    /**
     * `list()`: each task file found, in the order the directory is walked,
     * read back through `get` under the name `strtr` makes of the file name,
     * and the tasks read gathered into a task list keyed by name.
     * The first such `get` that finds no file throws.
     */
    method List() returns (r: Result<seq<Entry>>)
      requires Valid()
      ensures r.Err? <==> ListingFails(files)
      ensures r.Err? ==> exists f {:trigger Readable(files, f)} :: f in files && !Readable(files, f) && r.error == InvalidArgument(DoesNotExistMessage(ListedNameAsWritten(f)))
      ensures r.Ok? ==> ListedTaskList(files, r.value)
      ensures PlainNames(files) ==>
        && r.Ok?
        && |r.value| == |files|
        && forall f :: f in files ==> Lookup(r.value, files[f].name) == Some(files[f])
    {
      var directory := files;
      var remaining := directory.Keys;
      var done: set<string> := {};
      ghost var own: seq<Task> := [];
      var tasks: seq<Task> := [];
      while remaining != {}
        invariant Listing(directory, remaining, done, own) && ReadBack(directory, own, tasks)
        decreases remaining
      {
        var f :| f in remaining;
        ListedStep(directory, remaining, done, own, f);
        var got := Get(ListedNameAsWritten(f));
        if got.Err? {
          ListingFailure(directory, f);
          return Err(got.error);
        }
        ReadBackAdd(directory, own, tasks, directory[f]);
        tasks := tasks + [got.value];
        own := own + [directory[f]];
        done := done + {f};
        remaining := remaining - {f};
      }
      ListingDoneTaskList(directory, done, own, tasks);
      if PlainNames(directory) {
        ListingDonePlainTaskList(directory, done, own, tasks);
      }
      r := Ok(TaskListOf(tasks));
    }

    method Create(task: Task) returns (outcome: Outcome)
      requires Valid()
      modifies this
      ensures Written(outcome, files) == CreateSpec(old(files), task)
      ensures Valid()
    {
      if FileExists(task.name) {
        return Fail(InvalidArgument(AlreadyScheduledMessage(task.name)));
      }
      files := files[FileName(task.name) := task];
      outcome := Outcome.Done;
    }

    method Update(name: string, task: Task) returns (outcome: Outcome)
      requires Valid()
      modifies this
      ensures Written(outcome, files) == UpdateSpec(old(files), name, task)
      ensures Valid()
    {
      if !FileExists(name) {
        return Fail(InvalidArgument(DoesNotExistMessage(name)));
      }
      files := files - {FileName(name)};
      outcome := Create(task);
    }

    method Pause(name: string) returns (outcome: Outcome)
      requires Valid()
      modifies this
      ensures Written(outcome, files) == SetStateSpec(old(files), name, Paused)
      ensures Valid()
    {
      outcome := SetState(name, Paused);
    }

    method Resume(name: string) returns (outcome: Outcome)
      requires Valid()
      modifies this
      ensures Written(outcome, files) == SetStateSpec(old(files), name, Enabled)
      ensures Valid()
    {
      outcome := SetState(name, Enabled);
    }

    method SetState(name: string, target: TaskState) returns (outcome: Outcome)
      requires Valid()
      modifies this
      ensures Written(outcome, files) == SetStateSpec(old(files), name, target)
      ensures Valid()
    {
      if !FileExists(name) {
        return Fail(InvalidArgument(DoesNotExistMessage(name)));
      }
      var t := Get(name).value;
      if t.state == target {
        return Fail(Logic(AlreadyInStateMessage(name, target)));
      }
      outcome := Update(name, t.(state := target));
    }

    /** `delete(name)`: the file goes if it is there; removing a missing file is not an error. */
    method Delete(name: string)
      requires Valid()
      modifies this
      ensures files == old(files) - {FileName(name)}
      ensures Valid()
    {
      files := files - {FileName(name)};
    }

    /**
     * `clear()`: for each task file found, the file named after what `strtr`
     * makes of its name is removed; removing a missing file is not an error.
     */
    method Clear()
      requires Valid()
      modifies this
      ensures files == ClearSpec(old(files)) && Valid()
      ensures PlainNames(old(files)) ==> files == map[]
    {
      ghost var before := files;
      var remaining := files.Keys;
      while remaining != {}
        invariant Valid() && remaining <= before.Keys
        invariant files == before - Removed(before.Keys - remaining)
        decreases remaining
      {
        var f :| f in remaining;
        RemovedStep(before.Keys - remaining, f);
        assert before.Keys - (remaining - {f}) == (before.Keys - remaining) + {f};
        files := files - {FileName(ListedNameAsWritten(f))};
        remaining := remaining - {f};
      }
      assert before.Keys - remaining == before.Keys;
      PlainClearEmpties(before);
    }
  }

  /** The constructor: the directory given, or the system's temporary one, and the mode the options ask for. */
  method New(path: Option<string>, tempDir: string, options: map<string, Php.Value>, existing: map<string, Task>)
    returns (r: Result<FilesystemTransport>)
    requires NamedFiles(existing)
    ensures r.Err? <==> ExecutionMode.NewOrchestrator(ExecutionMode.ModeOption(options)).Err?
    ensures r.Err? ==> r.error == ExecutionMode.NewOrchestrator(ExecutionMode.ModeOption(options)).error
    ensures r.Ok? ==>
              && fresh(r.value) && r.value.Valid() && r.value.files == existing
              && r.value.path == (if path.Some? then path.value else tempDir)
              && r.value.GetOptions() == options
  {
    match ExecutionMode.NewOrchestrator(ExecutionMode.ModeOption(options)) {
      case Err(e) => r := Err(e);
      case Ok(mode) =>
        var t := new FilesystemTransport(if path.Some? then path.value else tempDir, options, mode, existing);
        r := Ok(t);
    }
  }

  /** `remaining` holds the files not yet listed; `r` holds the tasks of the others. */
  ghost predicate Listing(files: map<string, Task>, remaining: set<string>, done: set<string>, r: seq<Task>)
  {
    remaining + done == files.Keys && remaining !! done && Listed(files, done, r)
  }

  /** `r` holds the tasks of the files in `done`, each once. */
  ghost predicate Listed(files: map<string, Task>, done: set<string>, r: seq<Task>)
  {
    && done <= files.Keys
    && |r| == |done|
    && (forall i :: 0 <= i < |r| ==> FileName(r[i].name) in done && files[FileName(r[i].name)] == r[i])
    && (forall f :: f in done ==> files[f] in r)
    && (forall i, j :: 0 <= i < j < |r| ==> r[i].name != r[j].name)
  }

  lemma ListedStep(files: map<string, Task>, remaining: set<string>, done: set<string>, r: seq<Task>, f: string)
    requires NamedFiles(files) && Listing(files, remaining, done, r) && f in remaining
    ensures Listing(files, remaining - {f}, done + {f}, r + [files[f]])
    ensures f == FileName(files[f].name)
  {
    ListedAdd(files, done, r, f);
  }

  lemma ListedAdd(files: map<string, Task>, done: set<string>, r: seq<Task>, f: string)
    requires NamedFiles(files) && Listed(files, done, r) && f in files && f !in done
    ensures Listed(files, done + {f}, r + [files[f]])
  {
    var t := files[f];
    var r' := r + [t];
    assert |done + {f}| == |done| + 1;
    forall i | 0 <= i < |r| ensures r[i].name != t.name {
      assert FileName(r[i].name) in done;
    }
    forall g | g in done + {f} ensures files[g] in r' {
      if g in done {
        assert files[g] in r;
      } else {
        assert r'[|r|] == t;
      }
    }
  }

  lemma ListedAll(files: map<string, Task>, done: set<string>, r: seq<Task>)
    requires Listing(files, {}, done, r)
    ensures |r| == |files|
    ensures forall t :: t in r <==> exists f :: f in files && files[f] == t
    ensures forall i, j :: 0 <= i < j < |r| ==> r[i].name != r[j].name
  {
    forall t | t in r ensures exists f :: f in files && files[f] == t {
      var i :| 0 <= i < |r| && r[i] == t;
      assert FileName(r[i].name) in files;
    }
  }

  /** `got` holds, for each listed task, what `get` reads for the name `strtr` makes of its file name. */
  ghost predicate ReadBack(files: map<string, Task>, listed: seq<Task>, got: seq<Task>)
  {
    && |got| == |listed|
    && forall i {:trigger got[i]} :: 0 <= i < |got| ==>
         Readable(files, FileName(listed[i].name)) && got[i] == Read(files, FileName(listed[i].name))
  }

  lemma ReadBackAt(files: map<string, Task>, listed: seq<Task>, got: seq<Task>, i: nat)
    requires ReadBack(files, listed, got) && i < |got|
    ensures Readable(files, FileName(listed[i].name)) && got[i] == Read(files, FileName(listed[i].name))
  {
  }

  lemma ReadBackAdd(files: map<string, Task>, listed: seq<Task>, got: seq<Task>, t: Task)
    requires ReadBack(files, listed, got) && Readable(files, FileName(t.name))
    ensures ReadBack(files, listed + [t], got + [Read(files, FileName(t.name))])
  {
    var got' := got + [Read(files, FileName(t.name))];
    forall i | 0 <= i < |got'|
      ensures Readable(files, FileName((listed + [t])[i].name)) && got'[i] == Read(files, FileName((listed + [t])[i].name))
    {
      if i < |got| {
        assert got'[i] == got[i] && (listed + [t])[i] == listed[i];
      }
    }
  }

  /**
   * When every file was listed, each file was read back through the name
   * `strtr` makes of it; with plain names, each read is the file's own task.
   */
  lemma ReadBackAll(files: map<string, Task>, listed: seq<Task>, got: seq<Task>)
    requires NamedFiles(files) && ReadBack(files, listed, got)
    requires forall i :: 0 <= i < |listed| ==> FileName(listed[i].name) in files && files[FileName(listed[i].name)] == listed[i]
    requires forall f :: f in files ==> files[f] in listed
    ensures !ListingFails(files)
    ensures forall t :: t in got <==> exists f {:trigger Read(files, f)} :: f in files && Readable(files, f) && Read(files, f) == t
  {
    forall t | t in got ensures exists f {:trigger Read(files, f)} :: f in files && Readable(files, f) && Read(files, f) == t {
      var i :| 0 <= i < |got| && got[i] == t;
      ReadBackAt(files, listed, got, i);
      var f := FileName(listed[i].name);
      assert f in files && Readable(files, f) && Read(files, f) == t;
    }
    forall f {:trigger Readable(files, f)} | f in files ensures Readable(files, f) && Read(files, f) in got {
      var i :| 0 <= i < |listed| && listed[i] == files[f];
      assert f == FileName(listed[i].name);
      ReadBackAt(files, listed, got, i);
    }
  }

  /** A file that does not read back makes the listing fail, which cannot happen with plain names. */
  lemma ListingFailure(files: map<string, Task>, f: string)
    requires NamedFiles(files) && f in files && !Readable(files, f)
    ensures ListingFails(files) && !PlainNames(files)
  {
    PlainFileReadable(files, f);
  }

  /** What a completed walk returns: every file read back through the name `strtr` makes of it. */
  lemma ListingDone(files: map<string, Task>, done: set<string>, listed: seq<Task>, got: seq<Task>)
    requires NamedFiles(files) && Listing(files, {}, done, listed) && ReadBack(files, listed, got)
    ensures !ListingFails(files) && |got| == |files|
    ensures forall t :: t in got <==> exists f {:trigger Read(files, f)} :: f in files && Readable(files, f) && Read(files, f) == t
  {
    assert forall i :: 0 <= i < |listed| ==> FileName(listed[i].name) in files && files[FileName(listed[i].name)] == listed[i];
    ReadBackAll(files, listed, got);
  }

  /** With plain names, a completed walk returns each file's own task, no name twice. */
  lemma ListingDonePlain(files: map<string, Task>, done: set<string>, listed: seq<Task>, got: seq<Task>)
    requires NamedFiles(files) && Listing(files, {}, done, listed) && ReadBack(files, listed, got) && PlainNames(files)
    ensures forall t :: t in got <==> exists f :: f in files && files[f] == t
    ensures forall i, j :: 0 <= i < j < |got| ==> got[i].name != got[j].name
  {
    ListedAll(files, done, listed);
    ReadBackPlain(files, listed, got);
  }

  /**
   * A task list as a completed `list()` returns it: each name once, each task
   * one that `get` read for some file, and the name of what `get` read for
   * every file present.
   */
  ghost predicate ListedTaskList(files: map<string, Task>, r: seq<Entry>)
  {
    && UniqueKeys(r) && KeyedByName(r)
    && (forall e :: e in r ==> exists f {:trigger Read(files, f)} :: f in files && Readable(files, f) && Read(files, f) == e.task)
    && (forall f {:trigger Readable(files, f)} :: f in files ==> Readable(files, f) && HasKey(r, Read(files, f).name))
  }

  /** The task list of what a completed walk read back. */
  lemma ListingDoneTaskList(files: map<string, Task>, done: set<string>, listed: seq<Task>, got: seq<Task>)
    requires NamedFiles(files) && Listing(files, {}, done, listed) && ReadBack(files, listed, got)
    ensures !ListingFails(files) && ListedTaskList(files, TaskListOf(got))
  {
    ListingDone(files, done, listed, got);
    TaskListOfKeyed(got);
    var r := TaskListOf(got);
    forall f {:trigger Readable(files, f)} | f in files ensures Readable(files, f) && HasKey(r, Read(files, f).name) {
      assert Read(files, f) in got;
    }
  }

  /** With plain names, the task list of a completed walk holds every stored task under its name, one slot per file. */
  lemma ListingDonePlainTaskList(files: map<string, Task>, done: set<string>, listed: seq<Task>, got: seq<Task>)
    requires NamedFiles(files) && Listing(files, {}, done, listed) && ReadBack(files, listed, got) && PlainNames(files)
    ensures |TaskListOf(got)| == |files|
    ensures forall f :: f in files ==> Lookup(TaskListOf(got), files[f].name) == Some(files[f])
  {
    ListingDone(files, done, listed, got);
    ListingDonePlain(files, done, listed, got);
    TaskListOfDistinctLookup(got);
  }

  /** A file whose task has a plain name is read back, through `strtr`, as that task. */
  lemma PlainFileReadable(files: map<string, Task>, f: string)
    requires NamedFiles(files) && f in files
    ensures PlainName(files[f].name) ==> Readable(files, f) && Read(files, f) == files[f]
  {
    if PlainName(files[f].name) {
      ListedNameAsWrittenOfPlainName(files[f].name);
    }
  }

  /** With plain names, what `get` reads back for each listed task is that task. */
  lemma ReadBackPlain(files: map<string, Task>, listed: seq<Task>, got: seq<Task>)
    requires ReadBack(files, listed, got) && PlainNames(files)
    requires forall i :: 0 <= i < |listed| ==> FileName(listed[i].name) in files && files[FileName(listed[i].name)] == listed[i]
    ensures got == listed
  {
    forall i | 0 <= i < |got| ensures got[i] == listed[i] {
      ReadBackAt(files, listed, got, i);
      var k := FileName(listed[i].name);
      assert files[k] == listed[i] && PlainName(files[k].name);
      ListedNameAsWrittenOfPlainName(listed[i].name);
    }
  }

  lemma RemovedStep(found: set<string>, f: string)
    ensures Removed(found + {f}) == Removed(found) + {FileName(ListedNameAsWritten(f))}
  {
    assert f in found + {f};
  }

  /** With plain names, `clear()` removes every file it finds. */
  lemma PlainClearEmpties(files: map<string, Task>)
    requires NamedFiles(files)
    ensures PlainNames(files) ==> ClearSpec(files) == map[]
  {
    if PlainNames(files) {
      forall f | f in files ensures f in Removed(files.Keys) {
        ListedNameAsWrittenOfPlainName(files[f].name);
      }
      assert ClearSpec(files).Keys == {};
    }
  }

  /** A task named `a.json` stored alone: `list()` asks `get` for `a`, which has no file, and throws. */
  lemma ListFailsOnInnerExtension(t: Task)
    requires t.name == "a.json"
    ensures ListingFails(map[FileName(t.name) := t])
  {
    ListedNameAsWrittenLosesInnerExtension();
    assert FileName("a") != FileName(t.name);
    assert !Readable(map[FileName(t.name) := t], FileName(t.name));
  }

  /**
   * The tasks `a` and `a.json` stored side by side: `get` reads the task `a`
   * for both files, so `list()` succeeds with a one-slot task list for the
   * two files.
   */
  lemma ListReadsOneTaskTwice(a: Task, b: Task, r: seq<Entry>)
    requires a.name == "a" && b.name == "a.json"
    requires ListedTaskList(map[FileName(a.name) := a, FileName(b.name) := b], r)
    ensures |map[FileName(a.name) := a, FileName(b.name) := b]| == 2
    ensures !ListingFails(map[FileName(a.name) := a, FileName(b.name) := b])
    ensures r == [Entry("a", a)]
  {
    var files := map[FileName(a.name) := a, FileName(b.name) := b];
    assert |r| >= 2 ==> r[0].key != r[1].key;
    ListedNameAsWrittenLosesInnerExtension();
    assert PlainName("a") by {
      assert forall j: nat :: j <= 1 ==> !Php.OccursAt("a", Extension, j);
    }
    ListedNameAsWrittenOfPlainName("a");
    assert FileName(a.name) != FileName(b.name);
    assert files.Keys == {FileName(a.name), FileName(b.name)};
    assert Readable(files, FileName(a.name)) && Read(files, FileName(a.name)) == a;
    assert Readable(files, FileName(b.name)) && Read(files, FileName(b.name)) == a;
    assert forall i :: 0 <= i < |r| ==> r[i].task == a && r[i].key == "a" by {
      forall i | 0 <= i < |r| ensures r[i].task == a && r[i].key == "a" {
        assert r[i] in r;
      }
    }
    assert HasKey(r, "a");
  }

  /** A task named `a.json` stored alone: `clear()` removes `a.json` and leaves `a.json.json` behind. */
  lemma ClearLeavesInnerExtension(t: Task)
    requires t.name == "a.json"
    ensures ClearSpec(map[FileName(t.name) := t]) == map[FileName(t.name) := t]
  {
    ListedNameAsWrittenLosesInnerExtension();
    var files := map[FileName(t.name) := t];
    assert Removed(files.Keys) == {FileName("a")} by {
      RemovedStep({}, FileName(t.name));
    }
    assert FileName("a") != FileName(t.name);
  }

  /** Clearing with the corrected reading of file names removes every task file. */
  lemma ClearIntendedEmpties(files: map<string, Task>)
    requires NamedFiles(files)
    ensures files - (set f | f in files && |f| >= |Extension| :: FileName(ListedName(f))) == map[]
  {
    var removed := set f | f in files && |f| >= |Extension| :: FileName(ListedName(f));
    forall f | f in files ensures f in removed {
      ListedNameRoundTrip(files[f].name);
    }
    assert (files - removed).Keys == {};
  }

  /** Distinct task names give distinct file names. */
  lemma FileNameInjective(a: string, b: string)
    ensures FileName(a) == FileName(b) ==> a == b
  {
    ListedNameRoundTrip(a);
    ListedNameRoundTrip(b);
  }

  // ---- what the operations promise ----

  /** A created task can be read back, and an existing name is refused without touching the directory. */
  lemma CreateThenGet(files: map<string, Task>, task: Task)
    ensures FileName(task.name) in files ==>
      CreateSpec(files, task) == Written(Fail(InvalidArgument(AlreadyScheduledMessage(task.name))), files)
    ensures FileName(task.name) !in files ==>
      && CreateSpec(files, task).outcome == Outcome.Done
      && CreateSpec(files, task).files[FileName(task.name)] == task
      && CreateSpec(files, task).files.Keys == files.Keys + {FileName(task.name)}
  {
  }

  /** Updating a task under its own name replaces exactly its file. */
  lemma UpdateInPlace(files: map<string, Task>, name: string, task: Task)
    requires FileName(name) in files && task.name == name
    ensures UpdateSpec(files, name, task) == Written(Outcome.Done, files[FileName(name) := task])
  {
    assert (files - {FileName(name)})[FileName(name) := task] == files[FileName(name) := task];
  }

  /**
   * Renaming a task onto a name that is already stored fails after the old
   * file was removed: the task under `name` is lost.
   */
  lemma UpdateOntoExistingNameLosesTask(files: map<string, Task>, name: string, task: Task)
    requires FileName(name) in files && task.name != name && FileName(task.name) in files
    ensures UpdateSpec(files, name, task).outcome == Fail(InvalidArgument(AlreadyScheduledMessage(task.name)))
    ensures UpdateSpec(files, name, task).files == files - {FileName(name)}
    ensures FileName(name) !in UpdateSpec(files, name, task).files
  {
    FileNameInjective(name, task.name);
  }

  /** Pausing a task twice is refused the second time, and the directory stays as the first pause left it. */
  lemma PauseTwiceRefused(files: map<string, Task>, name: string)
    requires NamedFiles(files) && SetStateSpec(files, name, Paused).outcome == Outcome.Done
    ensures var once := SetStateSpec(files, name, Paused).files;
      SetStateSpec(once, name, Paused) == Written(Fail(Logic(AlreadyInStateMessage(name, Paused))), once)
  {
    var t := files[FileName(name)];
    assert t.name == ListedName(FileName(t.name));
    UpdateInPlace(files, name, t.(state := Paused));
  }

  /** Resuming an enabled task after pausing it gives the directory back as it was. */
  lemma PauseResumeRoundTrip(files: map<string, Task>, name: string)
    requires NamedFiles(files) && FileName(name) in files && files[FileName(name)].state == Enabled
    ensures SetStateSpec(files, name, Paused).outcome == Outcome.Done
    ensures SetStateSpec(SetStateSpec(files, name, Paused).files, name, Enabled) == Written(Outcome.Done, files)
  {
    var t := files[FileName(name)];
    assert t.name == ListedName(FileName(t.name));
    UpdateInPlace(files, name, t.(state := Paused));
    var once := files[FileName(name) := t.(state := Paused)];
    UpdateInPlace(once, name, t);
    assert once[FileName(name) := t] == files;
  }

  /** After `delete(name)` the task can no longer be read, and no other file changed. */
  lemma DeleteThenGet(files: map<string, Task>, name: string, other: string)
    requires other != name
    ensures FileName(name) !in files - {FileName(name)}
    ensures FileName(other) in files ==>
      FileName(other) in files - {FileName(name)} && (files - {FileName(name)})[FileName(other)] == files[FileName(other)]
  {
    FileNameInjective(name, other);
  }
}
