# Scheduler component, modelled in Dafny

This project models the core of the Symfony Scheduler component: a cron-style
task scheduler. Tasks are records with a name, a cron expression, a lifecycle
state (`enabled`, `paused`, `disabled`, `undefined`) and scheduling data
(priority, nice value, deadlines, durations). The project covers:

- **Ordering.** The execution-mode orchestrator (six `uasort` comparators and
  their pre-passes), the batch schedule policy and the schedule-policy
  orchestrator. `uasort` is modelled as a stable insertion sort, both as a
  function on sequences and as an in-place method on an array.
- **Stores.** The in-memory transport (a name-keyed task array) and the
  filesystem transport (a directory modelled as a map from file name to
  task). Also the round-robin transport, whose every store operation throws,
  and the failover, round-robin and filesystem transport factories.
- **The scheduler.** `schedule`, `unschedule`, `update`, `pause`, `resume`,
  `getDueTasks`, `getTasks` and `reboot`, over an in-memory transport.
- **The worker.** `execute` with its nested loops, the state check, runner
  selection, the lock, try/catch/finally, `break 2`/`break 3`, and the
  recursive re-invocation. Also `stop`, `restart`, `isRunning` and
  `getFailedTasks`. The subscribers that stop or observe it are modelled: task
  limit, time limit, task execution and task logger. So is the execution
  tracker.
- **Event bookkeeping.** The task event list with its typed views, the
  `TaskQueued` and `TaskExecuted` test constraints, and the task builder's
  first-match dispatch.

Each imperative source class is a Dafny `class`. Each of its methods is proved
equal to a specification function of the old state (`State() ==
XSpec(env, old(State()))`). The properties the code and its tests promise are
lemmas about those functions.

The world outside the code is passed in as parameters:

- cron evaluation: parsing an expression (`factory`, which may throw) and the due test (`isDue(expression, now, timezone)`);
- the clock and the stopwatch durations;
- lock acquisition;
- runners (`supports` and `run`);
- the due-task fetch;
- the event dispatcher's other listeners (a stop hook evaluated on the event
  log after each dispatch);
- the other builders and factories.

Dates are integers (seconds). Intervals are integer second counts.

Worker events carry snapshots: the task as it was at dispatch. The transport a
scheduler holds is a separate object from the scheduler itself.

Where the tests or documentation and the code disagree, the model follows the code:

- **Deadline mode.** `(arrival + relative)->diff(arrival)` yields an inverted
  interval. The absolute deadline the code stores is therefore the negated
  relative one. The comparator then puts the *later* stored deadline first,
  as `ExecutionModeOrchestratorTest` expects.
- **Time-limit tests.** The time-limit subscriber's tests call an
  `onWorkerRunning` handler that does not exist. The model follows the
  subscriber as written: `onWorkerStarted` and `onWorkerStopped`.
- **Time limit never arms.** The worker only ever dispatches
  `WorkerStartedEvent` while it is not running. The time-limit subscriber
  therefore never arms. A null end time is `<=` every time in PHP, so
  `onWorkerStopped` always stops the worker. `Listeners.TimeLimitNeverArmed`
  proves this.
- **File names with an inner `.json`.** `list()` and `clear()` strip every
  `.json` from a file name, not just the trailing one. The transport is
  modelled as written; the corrected reading is stated beside it (see
  Findings).
- **Nice values.** `setNice` refuses values outside -20..19 and, without
  strict types, coerces a decimal string such as a DSN's `nice=10`.

## Model

| member | source | states |
|---|---|---|
| Tasks.IndexOf | src/Symfony/Component/Scheduler/Transport/InMemoryTransport.php:53 | the first position holding a key, none exactly when the key is absent |
| Tasks.Lookup | src/Symfony/Component/Scheduler/Transport/InMemoryTransport.php:77 | `$array[$key]` finds a task exactly when the key is present, and it is a stored slot |
| Tasks.Remove | src/Symfony/Component/Scheduler/Transport/InMemoryTransport.php:72 | `unset` leaves no slot under the key and keeps exactly the other slots |
| Tasks.RemoveSnoc | src/Symfony/Component/Scheduler/Transport/InMemoryTransport.php:72 | `unset` keeps a last slot exactly when it does not hold the key, and treats the slots before it alone |
| Tasks.RemoveAppend | src/Symfony/Component/Scheduler/Transport/InMemoryTransport.php:72 | `unset` keeps the surviving slots in their order: removing from two parts joined is joining the two removals |
| Tasks.LookupAt | src/Symfony/Component/Scheduler/Transport/InMemoryTransport.php:77 | with each key once, a lookup of a slot's key finds that slot's task |
| Tasks.Put | src/Symfony/Component/Scheduler/Transport/InMemoryTransport.php:61 | assignment overwrites an existing key's slot in place, or appends a new key at the end; the key then finds the task |
| Tasks.PutByName | src/Symfony/Component/Scheduler/Task/TaskListInterface.php:22 | adding a task under its own name keeps a list name-keyed, loses no name and brings in only that task |
| Tasks.PutAt | src/Symfony/Component/Scheduler/Task/TaskListInterface.php:22 | overwriting the slot of the task's name keeps the keys and brings in only that task |
| Tasks.PutAtEnd | src/Symfony/Component/Scheduler/Task/TaskListInterface.php:22 | appending a task under a new name keeps the list name-keyed and loses no name |
| Tasks.TaskListOf | src/Symfony/Component/Scheduler/Task/TaskListInterface.php:22 | a task list built from tasks has at most one slot per task |
| Tasks.TaskListOfKeyed | src/Symfony/Component/Scheduler/Task/TaskListInterface.php:22 | a task list has each name once, each task under its own name, every given task's name, and no other task |
| Tasks.TaskListOfDistinct | src/Symfony/Component/Scheduler/Task/TaskListInterface.php:22 | tasks with distinct names get one slot each, in the order given |
| Tasks.TaskListOfDistinctLookup | src/Symfony/Component/Scheduler/Task/TaskListInterface.php:22 | tasks with distinct names are each found under their own name |
| Tasks.TaskListOfSameName | src/Symfony/Component/Scheduler/Task/TaskListInterface.php:22 | two tasks under one name leave a single slot, holding the later task |
| Tasks.SetNice | src/Symfony/Component/Scheduler/Tests/Task/NullTaskTest.php:41-56 | a nice value in -20..19 or none is set with nothing else changed; any other is the InvalidArgumentException `The nice value is not valid` |
| Tasks.SetNiceRefusesOutOfRange | src/Symfony/Component/Scheduler/Tests/Task/NullTaskTest.php:50-55 | 20, -25 and 200 are refused |
| Uasort.SortInPlace | src/Symfony/Component/Scheduler/ExecutionModeOrchestrator.php:81-83 | the in-place sort of an array leaves it as the insertion sort of its old contents |
| Uasort.InsertInPlace | src/Symfony/Component/Scheduler/ExecutionModeOrchestrator.php:81-83 | one step of the in-place sort inserts `a[i]` into the placed prefix and leaves the rest untouched |
| Uasort.SortPermutes | src/Symfony/Component/Scheduler/ExecutionModeOrchestrator.php:81-85 | the sorted sequence is a permutation of the input (same multiset, same length) |
| Uasort.SortMapPermutes | src/Symfony/Component/Scheduler/ExecutionModeOrchestrator.php:81-85 | every view of the elements (for example their keys) is permuted the same way |
| Uasort.SortDescending | src/Symfony/Component/Scheduler/ExecutionModeOrchestrator.php:140-142 | a comparator that compares by a key yields a result that is non-increasing in that key |
| Uasort.SortStable | src/Symfony/Component/Scheduler/ExecutionModeOrchestrator.php:158-164 | a comparator that never fires leaves the order unchanged |
| ExecutionMode.NewOrchestrator | src/Symfony/Component/Scheduler/ExecutionModeOrchestrator.php:40-47 | the constructor accepts exactly the six mode names, and `getMode` gives the name back; anything else is an InvalidArgumentException with the listed modes |
| ExecutionMode.ModeNameRoundTrip | src/Symfony/Component/Scheduler/ExecutionModeOrchestrator.php:23-47 | every mode round-trips through its name, and only its own name parses to it |
| ExecutionMode.Prepared | src/Symfony/Component/Scheduler/ExecutionModeOrchestrator.php:113-138 | the pre-pass changes each task by the mode's own rule and keeps length and keys |
| ExecutionMode.DecrementAll | src/Symfony/Component/Scheduler/ExecutionModeOrchestrator.php:135-138 | the in-place `array_walk` lowers each priority by one |
| ExecutionMode.RewriteDeadlines | src/Symfony/Component/Scheduler/ExecutionModeOrchestrator.php:113-122 | the in-place `foreach` rewrites the absolute deadline of exactly the tasks with both a relative deadline and an arrival time |
| ExecutionMode.Prepass | src/Symfony/Component/Scheduler/ExecutionModeOrchestrator.php:111-145 | the in-place pre-pass of each mode |
| ExecutionMode.Sort | src/Symfony/Component/Scheduler/ExecutionModeOrchestrator.php:52-72 | `sort` dispatches on the mode and returns the specified order, or a TypeError for a deadline sort missing a deadline |
| ExecutionMode.SortPermutes | src/Symfony/Component/Scheduler/ExecutionModeOrchestrator.php:79-160 | for every mode, a sort that returns gives a permutation of the pre-passed input |
| ExecutionMode.SortKeepsKeys | src/Symfony/Component/Scheduler/ExecutionModeOrchestrator.php:79-160 | every input key is in the output as often as in the input, and no others |
| ExecutionMode.SortKeepsTasksUnderTheirKeys | src/Symfony/Component/Scheduler/ExecutionModeOrchestrator.php:79-160 | each output slot is an input task under its original key, changed only by the pre-pass |
| ExecutionMode.SortWithoutPrepass | src/Symfony/Component/Scheduler/ExecutionModeOrchestrator.php:79-167 | the four modes without a pre-pass never throw and return exactly the input entries, rearranged |
| ExecutionMode.PreparedIdentity | src/Symfony/Component/Scheduler/ExecutionModeOrchestrator.php:58-71 | modes other than batch and deadline change no task before ordering |
| ExecutionMode.BatchLowersEveryPriority | src/Symfony/Component/Scheduler/ExecutionModeOrchestrator.php:133-145 | batch mode lowers every priority by exactly one, under the same key, and changes nothing else |
| ExecutionMode.BatchOrder | src/Symfony/Component/Scheduler/ExecutionModeOrchestrator.php:140-142 | batch mode never throws and leaves priorities non-increasing |
| ExecutionMode.FifoOrder | src/Symfony/Component/Scheduler/ExecutionModeOrchestrator.php:79-86 | with no negative priority, first-in-first-out mode leaves priorities non-increasing |
| ExecutionMode.IdleOrder | src/Symfony/Component/Scheduler/ExecutionModeOrchestrator.php:147-154 | with every priority at most 19, idle mode leaves priorities non-increasing |
| ExecutionMode.DeadlineOrder | src/Symfony/Component/Scheduler/ExecutionModeOrchestrator.php:111-131 | once every task has an absolute deadline after the rewrite, deadline mode puts the later one first |
| ExecutionMode.DeadlineMissing | src/Symfony/Component/Scheduler/ExecutionModeOrchestrator.php:124-128 | sorting two or more tasks when one lacks an absolute deadline is a TypeError (`add(null)`) |
| ExecutionMode.NormalOrder | src/Symfony/Component/Scheduler/ExecutionModeOrchestrator.php:156-167 | with no positive priority and every nice set, normal mode puts the larger nice value after |
| ExecutionMode.NormalNeverFires | src/Symfony/Component/Scheduler/ExecutionModeOrchestrator.php:159-161 | the normal comparator never fires on a pair where a priority is positive |
| ExecutionMode.NormalKeepsPositivePriorities | src/Symfony/Component/Scheduler/ExecutionModeOrchestrator.php:156-167 | normal mode leaves tasks with positive priorities where they were |
| ExecutionMode.FifoExample | src/Symfony/Component/Scheduler/Tests/ExecutionModeOrchestratorTest.php:44-59 | `app=100, foo=200, bar=75` becomes `foo, app, bar` |
| ExecutionMode.DefaultModeExample | src/Symfony/Component/Scheduler/Tests/ExecutionModeOrchestratorTest.php:30-42 | in the default mode `app=2, foo=1` stays in that order |
| ExecutionMode.RoundRobinExample | src/Symfony/Component/Scheduler/Tests/ExecutionModeOrchestratorTest.php:61-74 | `foo(10/10), bar(12)` becomes `bar, foo` |
| ExecutionMode.DeadlineExample | src/Symfony/Component/Scheduler/Tests/ExecutionModeOrchestratorTest.php:76-88 | `foo P2D, bar P3D` becomes `bar, foo` |
| ExecutionMode.IdleExample | src/Symfony/Component/Scheduler/Tests/ExecutionModeOrchestratorTest.php:104-117 | `app=-20, foo=-10` becomes `foo, app` |
| BatchPolicy.Sort | src/Symfony/Component/Scheduler/SchedulePolicy/BatchPolicy.php:28-40 | the in-place decrement loop then the sort give the policy's specified order |
| BatchPolicy.SameAsBatchMode | src/Symfony/Component/Scheduler/SchedulePolicy/BatchPolicy.php:30-37 | the policy sorts exactly as the orchestrator's batch mode does |
| BatchPolicy.SortLowersEveryPriority | src/Symfony/Component/Scheduler/SchedulePolicy/BatchPolicy.php:30-39 | same count, same keys, each task's priority lowered by exactly one |
| BatchPolicy.SortOrder | src/Symfony/Component/Scheduler/SchedulePolicy/BatchPolicy.php:35-37 | a lower new priority is placed after a higher one |
| SchedulePolicyOrchestrator.Sort | src/Symfony/Component/Scheduler/SchedulePolicy/SchedulePolicyOrchestrator.php:34-53 | no policies is a RuntimeException even for no tasks; no tasks gives no tasks; otherwise the first supporting policy sorts, and an unsupported name is an InvalidArgumentException |
| SchedulePolicyOrchestrator.LaterPoliciesIgnored | src/Symfony/Component/Scheduler/SchedulePolicy/SchedulePolicyOrchestrator.php:44-50 | policies after the first supporting one are never consulted |
| SchedulePolicyOrchestrator.BatchOnly | src/Symfony/Component/Scheduler/Tests/SchedulePolicy/SchedulePolicyOrchestratorTest.php:47-73 | with the batch policy alone, `batch` sorts as that policy does and any other name is rejected |
| FirstMatch.First | src/Symfony/Component/Scheduler/SchedulePolicy/SchedulePolicyOrchestrator.php:44-50 | the position of the first supporting element, none exactly when no element supports |
| TaskBuilder.Create | src/Symfony/Component/Scheduler/Task/TaskBuilder.php:40-51 | the first builder that supports the type builds the task, and what its `build` throws propagates; otherwise, including with no builders, it is the InvalidArgumentException naming the type |
| TaskBuilder.LaterBuildersIgnored | src/Symfony/Component/Scheduler/Task/TaskBuilder.php:47 | builders after the first supporting one are never consulted |
| TaskBuilder.BundledBuilders | src/Symfony/Component/Scheduler/Tests/Task/TaskBuilderTest.php:60-91 | with the shell, command and http builders, each builds its own type and every other type is rejected |
| InMemory.InMemoryTransport.constructor | src/Symfony/Component/Scheduler/Transport/InMemoryTransport.php:35-39 | an empty store holding the options as given |
| InMemory.New | src/Symfony/Component/Scheduler/Transport/InMemoryTransport.php:35-39 | construction fails exactly when the requested execution mode is unknown; otherwise the options are kept as given |
| InMemory.InMemoryTransport.Get | src/Symfony/Component/Scheduler/Transport/InMemoryTransport.php:41-44 | the stored task under the name; a missing name is a TypeError of the non-nullable return |
| InMemory.InMemoryTransport.List | src/Symfony/Component/Scheduler/Transport/InMemoryTransport.php:46-49 | the stored array itself, in its stored (last sorted) order, each task under its own name, each name once |
| InMemory.InMemoryTransport.Create | src/Symfony/Component/Scheduler/Transport/InMemoryTransport.php:51-63 | the outcome and new store are those of the create specification, and the store invariant is kept |
| InMemory.InMemoryTransport.Update | src/Symfony/Component/Scheduler/Transport/InMemoryTransport.php:65-68 | the write goes to a fresh list, so the store is unchanged |
| InMemory.InMemoryTransport.Delete | src/Symfony/Component/Scheduler/Transport/InMemoryTransport.php:70-73 | the key is unset and the invariant kept |
| InMemory.InMemoryTransport.Pause | src/Symfony/Component/Scheduler/Transport/InMemoryTransport.php:75-84 | the store becomes the pause specification of the old one |
| InMemory.InMemoryTransport.Resume | src/Symfony/Component/Scheduler/Transport/InMemoryTransport.php:86-95 | the store becomes the resume specification of the old one |
| InMemory.InMemoryTransport.Clear | src/Symfony/Component/Scheduler/Transport/InMemoryTransport.php:97-100 | the store is empty |
| InMemory.CreateDuplicateRefused | src/Symfony/Component/Scheduler/Transport/InMemoryTransport.php:53-55 | a stored name is refused with AlreadyScheduledTaskException and the store is unchanged |
| InMemory.CreateLooksUpStored | src/Symfony/Component/Scheduler/Transport/InMemoryTransport.php:57-62 | after a successful create the task's name finds the task as stored: the `nice` option applied, then the mode's pre-pass |
| InMemory.CreateAddsTask | src/Symfony/Component/Scheduler/Transport/InMemoryTransport.php:57-62 | after a successful create the keys are the old keys plus the task's name, with the task (nice applied, pre-passed) stored under it |
| InMemory.CreateDone | src/Symfony/Component/Scheduler/Transport/InMemoryTransport.php:51-63 | a successful create saw a new name and, when `nice` is set, an integer (or integer string) option in the valid nice range that the task now carries; its store is the sorted extended array |
| InMemory.CreateAppliesNice | src/Symfony/Component/Scheduler/Transport/InMemoryTransport.php:57-59 | a `nice` option that reads as an integer is assigned when in -20..19 and otherwise refused with InvalidArgumentException `The nice value is not valid` |
| InMemory.CreateCoercesNiceString | src/Symfony/Component/Scheduler/Tests/Transport/InMemoryTransportFactoryTest.php:51 | a `nice` option given as the decimal string of an integer (as a DSN query gives it) acts exactly as that integer |
| InMemory.CreateRefusesNonNumericNice | src/Symfony/Component/Scheduler/Task/TaskInterface.php:105 | a `nice` string that is not an integer string is a TypeError of the `int` parameter |
| InMemory.CreateSortFailureKeepsPrepass | src/Symfony/Component/Scheduler/Transport/InMemoryTransport.php:61-62 | when the sort throws, the error is the deadline mode's TypeError and the store keeps the extended array with the pre-pass rewrites already applied |
| InMemory.PreparedKeepsValid | src/Symfony/Component/Scheduler/ExecutionModeOrchestrator.php:113-122 | the pre-pass alone keeps every task under its own name and every name once |
| InMemory.CreateKeepsValid | src/Symfony/Component/Scheduler/Transport/InMemoryTransport.php:61-62 | create keeps every name once and every task under its own name |
| InMemory.KeyedByNameSorted | src/Symfony/Component/Scheduler/Transport/InMemoryTransport.php:62 | sorting keeps every task under its own name |
| InMemory.SortedContains | src/Symfony/Component/Scheduler/Transport/InMemoryTransport.php:62 | every input slot, pre-passed, is in the sorted store |
| InMemory.DeleteMissing | src/Symfony/Component/Scheduler/Transport/InMemoryTransport.php:70-73 | deleting a missing name changes nothing |
| InMemory.DeleteRemovesOnlyThatName | src/Symfony/Component/Scheduler/Transport/InMemoryTransport.php:70-73 | the name is gone and every other name finds the same task |
| InMemory.RemoveKeepsValid | src/Symfony/Component/Scheduler/Transport/InMemoryTransport.php:72 | delete keeps the store invariant |
| InMemory.PauseEffect | src/Symfony/Component/Scheduler/Transport/InMemoryTransport.php:75-84 | a missing or already paused task is left alone; otherwise it becomes paused, and other names and the key order are unchanged |
| InMemory.ResumeEffect | src/Symfony/Component/Scheduler/Transport/InMemoryTransport.php:86-95 | a missing or already enabled task is left alone; otherwise it becomes enabled, and other names and the key order are unchanged |
| InMemory.SetStateKeepsValid | src/Symfony/Component/Scheduler/Transport/InMemoryTransport.php:75-95 | pause and resume keep the store invariant |
| Filesystem.ListedName | src/Symfony/Component/Scheduler/Transport/FilesystemTransport.php:59 | the name a task file stands for, its trailing `.json` removed (the corrected reading) |
| Filesystem.ListedNameRoundTrip | src/Symfony/Component/Scheduler/Transport/FilesystemTransport.php:31-59 | the corrected reading recovers every task name from its file name |
| Filesystem.ListedNameAsWrittenLosesInnerExtension | src/Symfony/Component/Scheduler/Transport/FilesystemTransport.php:59 | `strtr` as written turns the file of a task named `a.json` back into `a` |
| Filesystem.ListedNameAsWrittenOfPlainName | src/Symfony/Component/Scheduler/Transport/FilesystemTransport.php:31-59 | `strtr` as written recovers every task name that does not contain `.json` |
| Filesystem.NoExtensionAtStart | src/Symfony/Component/Scheduler/Transport/FilesystemTransport.php:31 | the file of a non-empty plain name does not start with `.json` |
| Filesystem.FileNameInjective | src/Symfony/Component/Scheduler/Transport/FilesystemTransport.php:31 | distinct task names give distinct file names |
| Filesystem.FilesystemTransport.constructor | src/Symfony/Component/Scheduler/Transport/FilesystemTransport.php:39-46 | the transport holds its directory, options and mode |
| Filesystem.New | src/Symfony/Component/Scheduler/Transport/FilesystemTransport.php:39-46 | the directory given or the temporary one; construction fails exactly when the mode option is unknown |
| Filesystem.FilesystemTransport.Get | src/Symfony/Component/Scheduler/Transport/FilesystemTransport.php:68-75 | the task in the file of that name, or the InvalidArgumentException `The "<n>" task does not exist` |
| Filesystem.FilesystemTransport.List | src/Symfony/Component/Scheduler/Transport/FilesystemTransport.php:51-63 | with `strtr` as written: fails with `The "<n>" task does not exist` exactly when some file does not read back through the name `strtr` makes of it; otherwise a task list keyed by name, each name once, holding only tasks `get` read for some file and the name of what `get` read for every file; with plain names it never fails and holds one slot per file, each stored task under its own name |
| Filesystem.FilesystemTransport.Create | src/Symfony/Component/Scheduler/Transport/FilesystemTransport.php:80-88 | the directory after create is the create specification's |
| Filesystem.FilesystemTransport.Update | src/Symfony/Component/Scheduler/Transport/FilesystemTransport.php:93-101 | the directory after update is the update specification's: the old file removed, then create |
| Filesystem.FilesystemTransport.Pause | src/Symfony/Component/Scheduler/Transport/FilesystemTransport.php:106-119 | the directory after pause is the state specification's with target `paused` |
| Filesystem.FilesystemTransport.Resume | src/Symfony/Component/Scheduler/Transport/FilesystemTransport.php:124-137 | the directory after resume is the state specification's with target `enabled` |
| Filesystem.FilesystemTransport.SetState | src/Symfony/Component/Scheduler/Transport/FilesystemTransport.php:106-137 | the shared body of pause and resume |
| Filesystem.FilesystemTransport.Delete | src/Symfony/Component/Scheduler/Transport/FilesystemTransport.php:142-145 | the file goes if present; a missing file is not an error |
| Filesystem.FilesystemTransport.Clear | src/Symfony/Component/Scheduler/Transport/FilesystemTransport.php:150-158 | with `strtr` as written: removes exactly the files named by each found file's stripped name; with plain names no task file remains |
| Filesystem.ListedAll | src/Symfony/Component/Scheduler/Transport/FilesystemTransport.php:51-63 | a completed directory walk visits every file's task once |
| Filesystem.ListedStep | src/Symfony/Component/Scheduler/Transport/FilesystemTransport.php:58-60 | one step of the walk reads the file of the name the file stands for |
| Filesystem.ReadBackAll | src/Symfony/Component/Scheduler/Transport/FilesystemTransport.php:58-60 | when every file reads back, the read tasks are exactly what `get` returns per file, one per file |
| Filesystem.ListingFailure | src/Symfony/Component/Scheduler/Transport/FilesystemTransport.php:58-60 | a file that does not read back makes the listing fail, and then some name contains `.json` |
| Filesystem.ListingDone | src/Symfony/Component/Scheduler/Transport/FilesystemTransport.php:51-63 | a completed walk returns one task per file, each what `get` reads for one file |
| Filesystem.ListingDonePlain | src/Symfony/Component/Scheduler/Transport/FilesystemTransport.php:51-63 | with plain names a completed walk returns exactly the stored tasks, no name twice |
| Filesystem.ListingDoneTaskList | src/Symfony/Component/Scheduler/Transport/FilesystemTransport.php:51-63 | the task list of what a completed walk read is keyed by name, holds only read tasks and the name of every file's read |
| Filesystem.ListingDonePlainTaskList | src/Symfony/Component/Scheduler/Transport/FilesystemTransport.php:51-63 | with plain names that task list has one slot per file, and every stored task is found under its name |
| Filesystem.PlainFileReadable | src/Symfony/Component/Scheduler/Transport/FilesystemTransport.php:59 | the file of a plain-named task reads back as that task |
| Filesystem.ReadBackPlain | src/Symfony/Component/Scheduler/Transport/FilesystemTransport.php:58-60 | with plain names what `get` reads back is the listed sequence itself |
| Filesystem.RemovedStep | src/Symfony/Component/Scheduler/Transport/FilesystemTransport.php:154-156 | one more found file adds the file of its stripped name to what `clear()` removes |
| Filesystem.PlainClearEmpties | src/Symfony/Component/Scheduler/Transport/FilesystemTransport.php:150-158 | with plain names `clear()` leaves no file |
| Filesystem.ListFailsOnInnerExtension | src/Symfony/Component/Scheduler/Transport/FilesystemTransport.php:59 | a directory holding only the task `a.json` makes `list()` throw |
| Filesystem.ListReadsOneTaskTwice | src/Symfony/Component/Scheduler/Transport/FilesystemTransport.php:59-62 | with the tasks `a` and `a.json` stored, both files read back as `a`, `list()` succeeds, and its task list is the single slot `a` for the two files |
| Filesystem.ClearLeavesInnerExtension | src/Symfony/Component/Scheduler/Transport/FilesystemTransport.php:155 | a directory holding only the task `a.json` is left unchanged by `clear()` |
| Filesystem.ClearIntendedEmpties | src/Symfony/Component/Scheduler/Transport/FilesystemTransport.php:150-158 | removing by the corrected reading of file names leaves no task file |
| Filesystem.CreateThenGet | src/Symfony/Component/Scheduler/Transport/FilesystemTransport.php:80-88 | an existing name is refused without touching the directory; otherwise `get` reads the task back |
| Filesystem.UpdateInPlace | src/Symfony/Component/Scheduler/Tests/Transport/FilesystemTransportTest.php:131-152 | updating a task under its own name replaces exactly its file |
| Filesystem.UpdateOntoExistingNameLosesTask | src/Symfony/Component/Scheduler/Transport/FilesystemTransport.php:99-100 | renaming onto an existing name removes the old file and then refuses the create, so the old task is lost |
| Filesystem.PauseTwiceRefused | src/Symfony/Component/Scheduler/Tests/Transport/FilesystemTransportTest.php:170-190 | a second pause is the LogicException `…is already paused` and leaves the directory as the first pause did |
| Filesystem.PauseResumeRoundTrip | src/Symfony/Component/Scheduler/Tests/Transport/FilesystemTransportTest.php:236-257 | resuming a task just paused gives back the directory it started from |
| Filesystem.DeleteThenGet | src/Symfony/Component/Scheduler/Transport/FilesystemTransport.php:142-145 | after delete the file is gone and every other file is unchanged |
| RoundRobin.New | src/Symfony/Component/Scheduler/Transport/RoundRobinTransport.php:25-41 | the options are `{quantum: 2}` overridden key by key by the given ones |
| RoundRobin.QuantumDefault | src/Symfony/Component/Scheduler/Transport/RoundRobinTransport.php:25-41 | no options give `{quantum: 2}`; an explicit quantum is kept |
| RoundRobin.Execute | src/Symfony/Component/Scheduler/Transport/RoundRobinTransport.php:131-138 | every store operation throws TransportException: `No transport found` exactly when there are no transports, the all-failed message otherwise |
| RoundRobin.ExecuteIgnoresOperation | src/Symfony/Component/Scheduler/Transport/RoundRobinTransport.php:46-121 | which operation is requested makes no difference, so no inner transport is touched |
| Php.Explode | src/Symfony/Component/Scheduler/Transport/FailoverTransportFactory.php:40 | `explode` gives at least one piece |
| Php.ImplodeExplode | src/Symfony/Component/Scheduler/Transport/FailoverTransportFactory.php:40 | gluing the pieces back with the separator gives the original string |
| Php.ExplodePiecesAreFree | src/Symfony/Component/Scheduler/Transport/RoundRobinTransportFactory.php:45 | no piece contains the separator |
| Php.ExplodeWithoutSeparator | src/Symfony/Component/Scheduler/Transport/FailoverTransportFactory.php:40 | a string without the separator is a single piece |
| Php.FindFrom | src/Symfony/Component/Scheduler/Transport/FailoverTransportFactory.php:40 | the first occurrence at or after a position, none exactly when there is none |
| Php.LessIsStrict | src/Symfony/Component/Scheduler/ExecutionModeOrchestrator.php:98 | PHP's loose `<` on nullable numbers is irreflexive and asymmetric; `<=` is `<`, equality, or (with a null) equal truthiness |
| Php.NullComparisons | src/Symfony/Component/Scheduler/EventListener/StopWorkerOnTimeLimitSubscriber.php:48 | null is `<=` every number and below every non-zero one |
| Php.NatToString | src/Symfony/Component/Scheduler/Test/Constraint/TaskQueued.php:37 | the decimal rendering is a non-empty string of digits |
| Php.IntToString | src/Symfony/Component/Scheduler/Test/Constraint/TaskQueued.php:37 | an integer renders with a leading minus exactly when negative |
| Php.NatToStringRoundTrip | src/Symfony/Component/Scheduler/Test/Constraint/TaskQueued.php:37 | reading the digits back gives the number |
| Php.IntArgument | src/Symfony/Component/Scheduler/Task/TaskInterface.php:105 | an `int` parameter takes an integer, null as unset, and a decimal integer string by coercion; any other string is a TypeError |
| Php.IntArgumentOfRendering | src/Symfony/Component/Scheduler/Tests/Transport/InMemoryTransportFactoryTest.php:51 | the decimal rendering of every integer coerces back to that integer |
| TransportFactories.WalkPart | src/Symfony/Component/Scheduler/Transport/FailoverTransportFactory.php:44-50 | the loop over factories for one part makes the specified calls |
| TransportFactories.Walk | src/Symfony/Component/Scheduler/Transport/FailoverTransportFactory.php:43-51 | the `array_walk` over the parts makes the specified calls and stops at the first exception |
| TransportFactories.CreateFailover | src/Symfony/Component/Scheduler/Transport/FailoverTransportFactory.php:37-54 | the DSN's first option is split on ` \|\| `, the calls are those of the walk, and the transport is built with an empty array |
| TransportFactories.CreateRoundRobin | src/Symfony/Component/Scheduler/Transport/RoundRobinTransportFactory.php:38-59 | an empty first option is the LogicException before any call; otherwise it is split on ` && ` and walked, and the transport gets an empty array with default options |
| TransportFactories.CreateFilesystem | src/Symfony/Component/Scheduler/Transport/FilesystemTransportFactory.php:27-35 | the directory is the DSN's `path` option (or the temporary one), and the options are the merged final options |
| TransportFactories.SupportExamples | src/Symfony/Component/Scheduler/Tests/Transport/FilesystemTransportFactoryTest.php:27-37 | each factory accepts its own schemes and refuses `test://` |
| TransportFactories.PartCallsSupported | src/Symfony/Component/Scheduler/Transport/FailoverTransportFactory.php:44-50 | only a factory that supports the part is asked to create from it |
| TransportFactories.PartCallsComplete | src/Symfony/Component/Scheduler/Transport/FailoverTransportFactory.php:44-50 | when nothing throws, every supporting factory is asked for the part |
| TransportFactories.WalkCallsSupported | src/Symfony/Component/Scheduler/Transport/RoundRobinTransportFactory.php:48-56 | every call is for a part, to a factory that supports it |
| TransportFactories.WalkCallsComplete | src/Symfony/Component/Scheduler/Transport/RoundRobinTransportFactory.php:48-56 | a walk that completes asks every supporting factory for every part |
| TransportFactories.Created | src/Symfony/Component/Scheduler/Transport/RoundRobinTransportFactory.php:54 | one transport per `createTransport` call, each identified by the factory that built it, in call order |
| TransportFactories.CreatedByTheWalk | src/Symfony/Component/Scheduler/Transport/RoundRobinTransportFactory.php:48-56 | every transport the walk creates comes from a factory supporting one of the parts, and a completed walk creates one from each factory supporting a part |
| TransportFactories.IntendedFailoverKeepsCreated | src/Symfony/Component/Scheduler/Transport/FailoverTransportFactory.php:42-53 | with the array captured by reference, a completed walk gives a failover transport holding one transport per call, including each supporting factory's |
| TransportFactories.IntendedRoundRobinKeepsCreated | src/Symfony/Component/Scheduler/Transport/RoundRobinTransportFactory.php:47-58 | with the array captured by reference, a completed walk gives a round-robin transport holding each supporting factory's transport, whose operations then fail with the all-failed message instead of `No transport found` |
| TransportFactories.SinglePart | src/Symfony/Component/Scheduler/Transport/FailoverTransportFactory.php:39-40 | a DSN option without separator is one part |
| TransportFactories.FinalOptionsPrecedence | src/Symfony/Component/Scheduler/Transport/FilesystemTransportFactory.php:29-34 | caller options win on a clash; the DSN's host and `path` fill in `execution_mode` and `path` otherwise |
| TransportFactories.FilesystemModeFromHost | src/Symfony/Component/Scheduler/Transport/FilesystemTransportFactory.php:29-34 | without a caller mode, the transport is created exactly when the DSN host names a mode |
| Tracker.Started | src/Symfony/Component/Scheduler/Task/TaskExecutionTracker.php:33-40 | a tracked task starts `task_execution.<name>`; an untracked one changes nothing |
| Tracker.End | src/Symfony/Component/Scheduler/Task/TaskExecutionTracker.php:45-57 | ending only stops entries, and either leaves the task alone or sets its computation time to the duration |
| Tracker.TaskExecutionTracker.constructor | src/Symfony/Component/Scheduler/Task/TaskExecutionTracker.php:25-28 | no stopwatch entry is running |
| Tracker.TaskExecutionTracker.StartTracking | src/Symfony/Component/Scheduler/Task/TaskExecutionTracker.php:33-40 | the running entries become those of `Started` |
| Tracker.TaskExecutionTracker.EndTracking | src/Symfony/Component/Scheduler/Task/TaskExecutionTracker.php:45-57 | the entries and the task become those of `End` |
| Tracker.StartThenEnd | src/Symfony/Component/Scheduler/Task/TaskExecutionTracker.php:39-56 | start then end of a tracked task records the duration and leaves its entry stopped |
| Tracker.UntrackedUntouched | src/Symfony/Component/Scheduler/Task/TaskExecutionTracker.php:35-49 | an untracked task is never touched |
| Tracker.EndWithoutStart | src/Symfony/Component/Scheduler/Task/TaskExecutionTracker.php:51-53 | ending an entry never started changes nothing |
| Tracker.EntriesAreDistinct | src/Symfony/Component/Scheduler/Task/TaskExecutionTracker.php:39 | two tasks share an entry exactly when they share a name |
| Events.Filter | src/Symfony/Component/Scheduler/Event/TaskEventList.php:36-41 | a view holds events of the list, at their own positions, that pass the filter |
| Events.FilterComplete | src/Symfony/Component/Scheduler/Event/TaskEventList.php:36-62 | every event passing the filter is in the view, at its position |
| Events.FilterOrdered | src/Symfony/Component/Scheduler/Event/TaskEventList.php:36-62 | a view keeps the list order |
| Events.FilterAppend | src/Symfony/Component/Scheduler/Event/TaskEventList.php:26-29 | appending an event extends each view by that event exactly when it passes |
| Events.FilterMonotone | src/Symfony/Component/Scheduler/Event/TaskEventList.php:64-69 | a stricter filter gives a view no longer than a looser one |
| Events.TaskEventList.constructor | src/Symfony/Component/Scheduler/Event/TaskEventList.php:24 | a new list is empty |
| Events.TaskEventList.AddEvent | src/Symfony/Component/Scheduler/Event/TaskEventList.php:26-29 | the event is appended at the end and the earlier events are unchanged |
| Events.AddEventViews | src/Symfony/Component/Scheduler/Event/TaskEventList.php:26-77 | `count` grows by one, and each view grows by the new event exactly when it belongs there |
| Events.QueuedAreScheduled | src/Symfony/Component/Scheduler/Event/TaskEventList.php:64-69 | the queued view is part of the scheduled view |
| Events.ViewsPartition | src/Symfony/Component/Scheduler/Event/TaskEventList.php:36-77 | the four typed views' lengths add up to the list's length, so every event is in exactly one of them |
| Constraints.Describe | src/Symfony/Component/Scheduler/Test/Constraint/TaskQueued.php:35-38 | the description starts with the count, then ` have been ` when the count exceeds 1 and ` has been ` otherwise |
| Constraints.DescribeStartsWithCount | src/Symfony/Component/Scheduler/Test/Constraint/TaskExecuted.php:36-39 | the count can be read back from the description's leading digits |
| Constraints.TaskQueued.constructor | src/Symfony/Component/Scheduler/Test/Constraint/TaskQueued.php:27-30 | the constraint holds its expected count |
| Constraints.TaskQueued.CountQueuedTasks | src/Symfony/Component/Scheduler/Test/Constraint/TaskQueued.php:50-62 | the loop counts exactly the list's queued view (Scheduled events of queued tasks; Executed events never count) |
| Constraints.TaskQueued.Matches | src/Symfony/Component/Scheduler/Test/Constraint/TaskQueued.php:45-48 | matches exactly when the expected count equals the queued count |
| Constraints.ExecutedCount | src/Symfony/Component/Scheduler/Test/Constraint/TaskExecuted.php:51-63 | an engine `Error` (a method called on a non-object) exactly when some event is an Unscheduled one (its task is a string); otherwise the number of events that count, at most the list's length |
| Constraints.ExecutedEventsCounted | src/Symfony/Component/Scheduler/Test/Constraint/TaskExecuted.php:55-60 | every TaskExecutedEvent counts, and the count never exceeds the list's length |
| Constraints.ScheduledCountedWhenIncomplete | src/Symfony/Component/Scheduler/Test/Constraint/TaskExecuted.php:55 | a Scheduled event counts exactly when its task's execution state is `incomplete` |
| Constraints.TaskExecuted.constructor | src/Symfony/Component/Scheduler/Test/Constraint/TaskExecuted.php:28-31 | the constraint holds its expected count |
| Constraints.TaskExecuted.CountExecutedTasks | src/Symfony/Component/Scheduler/Test/Constraint/TaskExecuted.php:51-63 | the loop computes `ExecutedCount` of the list |
| Constraints.TaskExecuted.Matches | src/Symfony/Component/Scheduler/Test/Constraint/TaskExecuted.php:46-49 | the count's engine `Error` propagates; otherwise matches exactly when the expected count equals the count |
| Scheduler.Names | src/Symfony/Component/Scheduler/Scheduler.php:146-148 | the names of the tasks, in order |
| Scheduler.RebootTasks | src/Symfony/Component/Scheduler/Scheduler.php:140-142 | exactly the stored tasks whose expression is the reboot macro (their order: RebootTasksAppend, RebootTasksSingle) |
| Scheduler.DueTasks | src/Symfony/Component/Scheduler/Scheduler.php:110-117 | when no evaluation throws, exactly the stored entries due at `now` in their own timezone |
| Scheduler.DueFailure | src/Symfony/Component/Scheduler/Scheduler.php:115 | a task's evaluation throws the cron factory's exception first, and the engine `Error` of calling `getName()` on the null timezone only after a parsed expression |
| Scheduler.DueTasksError | src/Symfony/Component/Scheduler/Scheduler.php:110-117 | the filter throws exactly when some stored task's evaluation throws, and then the exception of the first such task |
| Scheduler.DueTasksAppend | src/Symfony/Component/Scheduler/Scheduler.php:112-116 | the filter of a concatenation is the filter of each part, in order, the first part's exception winning |
| Scheduler.DueTasksSingle | src/Symfony/Component/Scheduler/Scheduler.php:112-116 | one entry is kept exactly when due, dropped when not, and its exception otherwise |
| Scheduler.DueTasksValidExpressions | src/Symfony/Component/Scheduler/Scheduler.php:115 | with every expression parsed, the filter throws exactly when some task has no timezone, and then with the engine `Error` of a call on null |
| Scheduler.RebootTasksAppend | src/Symfony/Component/Scheduler/Scheduler.php:140-142 | the reboot filter of a concatenation is the filter of each part, in order |
| Scheduler.RebootTasksSingle | src/Symfony/Component/Scheduler/Scheduler.php:140-142 | one entry is kept exactly when its expression is the reboot macro |
| Scheduler.Scheduler.constructor | src/Symfony/Component/Scheduler/Scheduler.php:44-51 | no event and no message yet, over a valid store |
| Scheduler.Scheduler.Stamped | src/Symfony/Component/Scheduler/Scheduler.php:58-61 | the task gets `scheduledAt` and the scheduler's timezone and keeps its name and queue flag |
| Scheduler.Scheduler.Dispatch | src/Symfony/Component/Scheduler/Scheduler.php:153-160 | the event is logged only when a dispatcher is set |
| Scheduler.Scheduler.Schedule | src/Symfony/Component/Scheduler/Scheduler.php:56-72 | with a bus, a queued task goes to the bus and is never stored; otherwise it is created, and the Scheduled event follows only a create that did not throw, carrying the task as `create` stored it |
| Scheduler.Scheduler.Unschedule | src/Symfony/Component/Scheduler/Scheduler.php:77-81 | the name is deleted and then Unscheduled(name) is dispatched |
| Scheduler.Scheduler.Update | src/Symfony/Component/Scheduler/Scheduler.php:86-89 | delegated to the store's update, which leaves the store as it was |
| Scheduler.Scheduler.Pause | src/Symfony/Component/Scheduler/Scheduler.php:94-97 | the store is paused under that name, nothing else changes |
| Scheduler.Scheduler.Resume | src/Symfony/Component/Scheduler/Scheduler.php:102-105 | the store is resumed under that name, nothing else changes |
| Scheduler.Scheduler.GetTasks | src/Symfony/Component/Scheduler/Scheduler.php:130-133 | the store's array itself, in its sorted order, each task under its own name, each name once |
| Scheduler.Scheduler.GetDueTasks | src/Symfony/Component/Scheduler/Scheduler.php:110-117 | the in-order due filter of the store: it throws exactly when some evaluation throws (the first one's exception, cron factory before timezone), and otherwise holds exactly the entries due at `now` |
| Scheduler.Scheduler.Reboot | src/Symfony/Component/Scheduler/Scheduler.php:138-151 | clear, then create each reboot task in turn through the transport's create (nice validation and pre-pass included); SchedulerRebooted is dispatched once at the end, and only if no create threw |
| Scheduler.CreateAllKeys | src/Symfony/Component/Scheduler/Scheduler.php:146-148 | creating the tasks one by one adds exactly their names, each once |
| Scheduler.RebootKeepsRebootTasks | src/Symfony/Component/Scheduler/Scheduler.php:138-151 | after reboot a name is stored exactly when it was stored before with the reboot macro as its expression |
| Scheduler.KeysOfRebootTasks | src/Symfony/Component/Scheduler/Scheduler.php:140-148 | both directions of the reboot membership, from the key multiset |
| Scheduler.UnscheduleRemoves | src/Symfony/Component/Scheduler/Tests/SchedulerTest.php:108-118 | after unschedule the name is absent and every other name finds the same task |
| Worker.DispatchSpec | src/Symfony/Component/Scheduler/Worker/Worker.php:239-246 | dispatching logs the event when a dispatcher is set, a stop once requested stays requested, and nothing else changes |
| Worker.Stamped | src/Symfony/Component/Scheduler/Worker/Worker.php:198-199 | the task keeps name, state and tracking, with arrival and start time read from the clock |
| Worker.CheckTaskState | src/Symfony/Component/Scheduler/Worker/Worker.php:181-194 | `undefined` is the LogicException, `paused` and `disabled` give false, every other state true |
| Worker.TaskStep | src/Symfony/Component/Scheduler/Worker/Worker.php:95-100 | the state check comes before any runner: undefined aborts, paused and disabled are skipped, only the others reach the runners |
| Worker.RunnersSpec | src/Symfony/Component/Scheduler/Worker/Worker.php:102-129 | the loop over the runners fetches nothing |
| Worker.TasksSpec | src/Symfony/Component/Scheduler/Worker/Worker.php:95-134 | a halted pass left the worker stopped, an aborted one is the undefined-state error, and nothing is fetched |
| Worker.RunSpec | src/Symfony/Component/Scheduler/Worker/Worker.php:90-141 | a stopped run has the stop flag set; a run that raises, raises the undefined-state error or an error some fetch returned |
| Worker.ExecuteSpec | src/Symfony/Component/Scheduler/Worker/Worker.php:80-142 | no runners is `UndefinedRunnerException('No runner found')` before any event; other raises are as for the run |
| Worker.RestartSpec | src/Symfony/Component/Scheduler/Worker/Worker.php:147-155 | not running, no failed tasks, stopped only if a listener stops it on the Restarted event |
| Worker.Worker.constructor | src/Symfony/Component/Scheduler/Worker/Worker.php:66-75 | a worker starts not running, not stopped, with no failed tasks |
| Worker.Worker.Stop | src/Symfony/Component/Scheduler/Worker/Worker.php:160-163 | the stop flag is set and nothing else changes |
| Worker.Worker.Restart | src/Symfony/Component/Scheduler/Worker/Worker.php:147-155 | the worker state becomes `RestartSpec` of the old one |
| Worker.Worker.Dispatch | src/Symfony/Component/Scheduler/Worker/Worker.php:100 | the worker state becomes `DispatchSpec` of the old one |
| Worker.Worker.HandleTask | src/Symfony/Component/Scheduler/Worker/Worker.php:196-209 | the handle step (stamps, start tracking, run, end tracking, Executed event) of the specification |
| Worker.Worker.Finish | src/Symfony/Component/Scheduler/Worker/Worker.php:203-208 | once `run` has returned: the tracking entry is ended with the measured duration, the end and last-execution times are stamped and TaskExecuted is dispatched, as the specification's finishing step says |
| Worker.Worker.Try | src/Symfony/Component/Scheduler/Worker/Worker.php:110-119 | the try/catch step of the specification |
| Worker.Worker.Lock | src/Symfony/Component/Scheduler/Worker/Worker.php:107-111 | the single-run event and the lock acquisition of the specification |
| Worker.Worker.Attempt | src/Symfony/Component/Scheduler/Worker/Worker.php:107-124 | lock, try if acquired and idle, then always release |
| Worker.Worker.Runners | src/Symfony/Component/Scheduler/Worker/Worker.php:102-129 | the runner loop gives the runners specification, leaving it once the worker is stopped |
| Worker.Worker.RunTasks | src/Symfony/Component/Scheduler/Worker/Worker.php:95-134 | the task loop gives the tasks specification |
| Worker.Worker.Run | src/Symfony/Component/Scheduler/Worker/Worker.php:90-141 | the `while` loop, with its fetch and its re-invocation, gives the run specification |
| Worker.Worker.Execute | src/Symfony/Component/Scheduler/Worker/Worker.php:80-142 | `execute` gives the execute specification |
| Worker.InitialSettled | src/Symfony/Component/Scheduler/Worker/Worker.php:66-75 | a new worker is settled: not running, no unsupported run, every Started event idle |
| Worker.DispatchKeepsLogs | src/Symfony/Component/Scheduler/Worker/Worker.php:88 | dispatching keeps the run log and the idle-start log invariants |
| Worker.HandleTaskKeepsLogs | src/Symfony/Component/Scheduler/Worker/Worker.php:196-209 | handling a task with a supporting runner keeps the log invariants |
| Worker.TryKeepsLogs | src/Symfony/Component/Scheduler/Worker/Worker.php:110-119 | a try keeps the log invariants |
| Worker.AttemptKeepsSettled | src/Symfony/Component/Scheduler/Worker/Worker.php:107-124 | an attempt keeps the worker settled |
| Worker.RunnersKeepSettled | src/Symfony/Component/Scheduler/Worker/Worker.php:102-105 | a runner whose `support` is false is never run, and after the loop the worker is not running |
| Worker.TasksKeepSettled | src/Symfony/Component/Scheduler/Worker/Worker.php:95-134 | a pass keeps the worker settled |
| Worker.RunKeepsSettled | src/Symfony/Component/Scheduler/Worker/Worker.php:90-141 | a run keeps the worker settled |
| Worker.ExecuteKeepsSettled | src/Symfony/Component/Scheduler/Worker/Worker.php:80-142 | execute keeps the worker settled: every run was by a supporting runner |
| Worker.StoppedBeforeExecute | src/Symfony/Component/Scheduler/Worker/Worker.php:88-141 | when stopped before `execute`, only Started and Stopped are dispatched, nothing is fetched and nothing runs |
| Worker.UndefinedTaskRaises | src/Symfony/Component/Scheduler/Worker/Worker.php:96-98 | an undefined task met first raises the LogicException before any runner runs |
| Worker.InactiveTasksUntouched | src/Symfony/Component/Scheduler/Worker/Worker.php:186-191 | a pass over paused and disabled tasks changes nothing |
| Worker.AttemptLocking | src/Symfony/Component/Scheduler/Worker/Worker.php:108-124 | the runner runs exactly when the lock was acquired and the worker idle; afterwards the lock is released and the worker not running |
| Worker.TryFailure | src/Symfony/Component/Scheduler/Worker/Worker.php:116-119 | when `run` throws: exactly one failed task with the message as reason, a Failed event, end tracking skipped |
| Worker.TrySuccess | src/Symfony/Component/Scheduler/Worker/Worker.php:196-209 | when `run` returns: no failure, the entry ended with the measured duration, an Executed event |
| Worker.StopEndsRunners | src/Symfony/Component/Scheduler/Worker/Worker.php:126-128 | once an attempt stops the worker, no later runner is tried |
| Worker.StopEndsPass | src/Symfony/Component/Scheduler/Worker/Worker.php:131-133 | once a task leaves the worker stopped, no later task is tried in the pass |
| WorkerScenarios.ExecutedWithRunner | src/Symfony/Component/Scheduler/Tests/Worker/WorkerTest.php:91-122 | one supporting runner runs the due task once, records no failure, and the limit of one stops the worker |
| WorkerScenarios.NoSupportingRunner | src/Symfony/Component/Scheduler/Tests/Worker/WorkerTest.php:49-69 | with no supporting runner, nothing runs and the events are Started, Running, Stopped |
| WorkerScenarios.SingleRunTaskRunsOnce | src/Symfony/Component/Scheduler/Tests/Worker/WorkerTest.php:124-151 | a single-run task is run by the first of two runners only, and SingleRunTaskExecuted is dispatched |
| WorkerScenarios.FailedTaskRecorded | src/Symfony/Component/Scheduler/Tests/Worker/WorkerTest.php:153-181 | a throwing runner gives one failed task `failed.failed` with the exception's message, and `execute` does not throw |
| Listeners.NonIdle | src/Symfony/Component/Scheduler/EventListener/StopWorkerOnTaskLimitSubscriber.php:38 | the number of non-idle WorkerRunning events in the log, at most its length |
| Listeners.StopWorkerOnTaskLimitSubscriber.constructor | src/Symfony/Component/Scheduler/EventListener/StopWorkerOnTaskLimitSubscriber.php:26-34 | the counter starts at 0 |
| Listeners.StopWorkerOnTaskLimitSubscriber.OnWorkerRunning | src/Symfony/Component/Scheduler/EventListener/StopWorkerOnTaskLimitSubscriber.php:36-45 | an idle event changes nothing; a non-idle one adds one to the counter and stops the worker once it reaches the maximum |
| Listeners.TaskLimitStopsIsTheSubscriber | src/Symfony/Component/Scheduler/EventListener/StopWorkerOnTaskLimitSubscriber.php:36-45 | the stop hook on the event log stops exactly when the subscriber's counter would |
| Listeners.TaskLimitSubscribedEvents | src/Symfony/Component/Scheduler/EventListener/StopWorkerOnTaskLimitSubscriber.php:50-55 | only WorkerRunning is subscribed |
| Listeners.StopWorkerOnTimeLimitSubscriber.constructor | src/Symfony/Component/Scheduler/EventListener/StopWorkerOnTimeLimitSubscriber.php:27-35 | no end time yet |
| Listeners.StopWorkerOnTimeLimitSubscriber.OnWorkerStarted | src/Symfony/Component/Scheduler/EventListener/StopWorkerOnTimeLimitSubscriber.php:37-44 | the end time becomes `now + limit` exactly when the worker is running; the worker is not touched |
| Listeners.StopWorkerOnTimeLimitSubscriber.OnWorkerStopped | src/Symfony/Component/Scheduler/EventListener/StopWorkerOnTimeLimitSubscriber.php:46-54 | the worker is stopped exactly when the end time is `<=` now in PHP's comparison |
| Listeners.TimeLimitSubscribedEvents | src/Symfony/Component/Scheduler/EventListener/StopWorkerOnTimeLimitSubscriber.php:59-65 | only WorkerStarted and WorkerStopped are subscribed |
| Listeners.TimeLimitNeverArmed | src/Symfony/Component/Scheduler/EventListener/StopWorkerOnTimeLimitSubscriber.php:39-43 | over the worker's own event logs the end time stays null, so the stop test holds at every WorkerStopped |
| Listeners.TimeLimitElapsed | src/Symfony/Component/Scheduler/EventListener/StopWorkerOnTimeLimitSubscriber.php:48 | an armed end time is reached exactly when the limit has elapsed |
| Listeners.TaskExecutionSubscriber.constructor | src/Symfony/Component/Scheduler/EventListener/TaskExecutionSubscriber.php:28-31 | the subscriber holds the scheduler |
| Listeners.TaskExecutionSubscriber.OnSingleRunTaskExecuted | src/Symfony/Component/Scheduler/EventListener/TaskExecutionSubscriber.php:33-38 | the task is unscheduled by its name: deleted, then the Unscheduled event |
| Listeners.TaskExecutionSubscriber.OnTaskExecuted | src/Symfony/Component/Scheduler/EventListener/TaskExecutionSubscriber.php:40-45 | `update(name, task)` with the same task, which leaves the in-memory store unchanged |
| Listeners.TaskExecutionSubscribedEvents | src/Symfony/Component/Scheduler/EventListener/TaskExecutionSubscriber.php:50-56 | exactly SingleRunTaskExecuted and TaskExecuted are subscribed |
| Listeners.TaskLoggerSubscriber.constructor | src/Symfony/Component/Scheduler/EventListener/TaskLoggerSubscriber.php:31-34 | the subscriber starts with a new, empty event list |
| Listeners.TaskLoggerSubscriber.OnTask | src/Symfony/Component/Scheduler/EventListener/TaskLoggerSubscriber.php:36-39 | the event is appended to the list exactly once |
| Listeners.LoggerSubscribedEvents | src/Symfony/Component/Scheduler/EventListener/TaskLoggerSubscriber.php:49-57 | every task event kind, and no other, is subscribed to `onTask` at priority -255 |

## Left out

- Cron evaluation is the parameters `factory` (parsing, which may throw) and `isDue(expression, now, timezone)`, since it is a foreign library.
- The clock is the same, and so are the stopwatch durations, `sleep` and the sleep duration. The same goes for the lock store and lock factory (an `acquire` oracle), the runners (`supports` and `run`) and the builders' `build`.
- The scheduler's clock-synchronization check (`Scheduler.php:162-175`) is left out, because it is float and wall-clock arithmetic. `now` is an input.
- Serialization of tasks to and from files is identity: a file holds the task itself.
- Dispatching an event never throws, and listeners other than the ones modelled are one stop hook on the worker's event log.
- Worker events hold snapshots of tasks, and the scheduler's transport is a separate object. Aliasing between an event's task and the stored task is not modelled, except that the Scheduled event of `schedule` carries the task that `create` stored.
- Worker.RunSpec: the re-invocation after a complete pass is bounded by a `fuel` count, so runs that need more passes than the fuel end in `OutOfFuel`.
- The failover transport itself, the remaining transport factories and the event classes are left out. Only what the modelled operations need is kept.
- `FailedTask.php` is not part of this model. A failed task is listed under the task's name followed by `.failed`, as the worker's test expects. A Failed event's own execution state is taken as unset.
- `ExpressionFactory` is not part of this model. The reboot macro is the string `@reboot`.
- `TaskList` and `AbstractTask` are not part of this model. A task list is a name-keyed sequence, built by adding each task under its own name (`TaskListInterface.php:22`), and tasks are immutable records.
- Floating point and 64-bit integers are not modelled. Computation times and maximum durations are `?float` in PHP (`TaskInterface.php:71`, `TaskInterface.php:99-101`) and come from the stopwatch's float durations; here they are integers. Dafny's integers are unbounded, so PHP's overflow of an `int` to a float is not modelled either, for example `--$priority` at `PHP_INT_MIN` in the batch pre-pass (`ExecutionModeOrchestrator.php:136-137`). Neither changes a property proved here.
- Scheduler.Scheduler.Schedule: the scheduler is modelled over an in-memory transport only.
- TaskBuilder.Create: the type is passed in directly; a missing or non-string `options['type']` is not modelled.
- TransportFactories.CreateFailover: a missing first DSN option is read as the empty string (`explode` of null).
- Listeners.TaskExecutionSubscriber.OnTaskExecuted: that each handler makes exactly one scheduler call is shown only by its body, not by a trace of calls.
- Uasort.SortInPlace: PHP's `uasort` is modelled as a stable insertion sort. With comparators that are not total orders, PHP's own algorithm may order ties differently.
- ExecutionMode.NormalOrder: nice values are integers; PHP's loose comparison with a null nice is modelled, but the ordering lemma assumes every nice is set.
- Filesystem.FilesystemTransport.List: files in the directory that are not task files are not modelled, and a `get` that finds a different task under the stripped name is read as that task.
- Php.IntArgument: only optionally signed decimal digit strings are coerced; whitespace, leading-numeric strings (accepted with a warning), float strings and float values are not modelled.
- Tasks.ValidNice: `AbstractTask` is not part of this model; the range -20..19 is the POSIX nice range, consistent with the values the task tests refuse.
- PHP 8 semantics are assumed throughout: adding a null interval is a `TypeError`, as is passing a non-numeric string to an `int` parameter, and a method called on null is an `Error`. The model keeps those two exception classes apart.
- Worker.ExecuteSpec: the runners are an `iterable`, modelled as an array; an empty Traversable, for which `empty()` is false (so no UndefinedRunnerException is thrown), is not modelled.
- Worker.Worker.Execute: the same: iterable runners are modelled as arrays, and an empty Traversable is not modelled.
- SchedulePolicyOrchestrator.Sort: the policies are an `iterable`, modelled as an array; an empty Traversable of policies, for which `empty()` is false (so the sort falls through to `The policy "<p>" cannot be used`), is not modelled.
- RoundRobin.Execute: the transports are an `iterable`, modelled as an array; an empty Traversable, for which `empty()` is false (so the all-failed message is thrown), is not modelled.
- Events.Filter: only the four task events (scheduled, unscheduled, executed, failed) are modelled.

## Findings

| source | as written | input that shows it | evidently intended | confidence | as-written member | corrected member |
|---|---|---|---|---|---|---|
| src/Symfony/Component/Scheduler/Transport/FilesystemTransport.php:59 | `strtr($file, ['.json' => ''])` removes every `.json` from a file name | a task named `a.json` is stored as `a.json.json`, which reads back as the name `a` | only the trailing `.json` is removed, so the name `a.json` comes back | not executed | Filesystem.ListFailsOnInnerExtension | Filesystem.ListedNameRoundTrip |
| src/Symfony/Component/Scheduler/Transport/FilesystemTransport.php:155 | `clear()` removes the file of `strtr($file, ['.json' => ''])` | a task named `a.json` is stored as `a.json.json`; `clear()` removes `a.json` and `a.json.json` stays | every task file is removed | not executed | Filesystem.ClearLeavesInnerExtension | Filesystem.ClearIntendedEmpties |
| src/Symfony/Component/Scheduler/Transport/RoundRobinTransportFactory.php:48 | the closure captures `$transports` by value (`use ($transports, …)`), so `$transports[] = …` appends to a copy and the transport is built with an empty array | a DSN option `fs://a && fs://b` with a filesystem factory: two transports are created and both are dropped; every operation of the result throws `No transport found` | `use (&$transports, …)`: the round-robin transport holds every transport the walk created | not executed | TransportFactories.CreateRoundRobin | TransportFactories.IntendedRoundRobinKeepsCreated |
| src/Symfony/Component/Scheduler/Transport/FailoverTransportFactory.php:43 | the same by-value capture of `$transports` | a DSN option `fs://a \|\| fs://b` with a filesystem factory: the failover transport is built with no transports | `use (&$transports, …)`: the failover transport holds every transport the walk created | not executed | TransportFactories.CreateFailover | TransportFactories.IntendedFailoverKeepsCreated |
