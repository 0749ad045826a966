// The `batch` schedule policy and the orchestrator that picks a policy by
// name. Policies other than `batch` are not part of this model: their
// `support` and `sort` are parameters.

module BatchPolicy {
  import opened Tasks
  import ExecutionMode
  import Uasort

  const Policy: string := "batch"

  /** `support(p)`: this policy answers to the name `batch` only. */
  predicate Support(policy: string)
  {
    Policy == policy
  }

  /** What `sort` returns: every priority lowered by one, then higher priorities first. */
  function SortSpec(tasks: seq<Entry>): seq<Entry>
  {
    Uasort.InsertionSort(ExecutionMode.Comparator(ExecutionMode.Batch), ExecutionMode.Prepared(ExecutionMode.Batch, tasks))
  }

  /** `sort`: `array_walk` lowering every priority, then `uasort`. */
  method Sort(tasks: seq<Entry>) returns (r: seq<Entry>)
    ensures r == SortSpec(tasks)
  {
    var a := new Entry[|tasks|](i requires 0 <= i < |tasks| => tasks[i]);
    assert a[..] == tasks;
    var i := 0;
    while i < a.Length
      invariant 0 <= i <= a.Length
      invariant forall k :: 0 <= k < i ==> a[k] == Entry(tasks[k].key, tasks[k].task.(priority := tasks[k].task.priority - 1))
      invariant forall k :: i <= k < a.Length ==> a[k] == tasks[k]
    {
      var t := a[i].task;
      var priority := t.priority;
      priority := priority - 1;
      a[i] := Entry(a[i].key, t.(priority := priority));
      i := i + 1;
    }
    assert a[..] == ExecutionMode.Prepared(ExecutionMode.Batch, tasks);
    Uasort.SortInPlace(a, ExecutionMode.Comparator(ExecutionMode.Batch));
    r := a[..];
  }

  /** The policy sorts exactly as the orchestrator's batch mode does. */
  lemma SameAsBatchMode(tasks: seq<Entry>)
    ensures ExecutionMode.SortSpec(ExecutionMode.Batch, tasks) == Wrappers.Ok(SortSpec(tasks))
  {
  }

  /** The same number of tasks, under the same keys, every priority lowered by exactly one. */
  lemma SortLowersEveryPriority(tasks: seq<Entry>)
    ensures |SortSpec(tasks)| == |tasks|
    ensures multiset(Keys(SortSpec(tasks))) == multiset(Keys(tasks))
    ensures forall e :: e in SortSpec(tasks) ==>
      exists i :: 0 <= i < |tasks| && e.key == tasks[i].key && e.task == tasks[i].task.(priority := tasks[i].task.priority - 1)
  {
    SameAsBatchMode(tasks);
    ExecutionMode.SortPermutes(ExecutionMode.Batch, tasks);
    ExecutionMode.SortKeepsKeys(ExecutionMode.Batch, tasks);
    forall e | e in SortSpec(tasks)
      ensures exists i :: 0 <= i < |tasks| && e.key == tasks[i].key && e.task == tasks[i].task.(priority := tasks[i].task.priority - 1)
    {
      ExecutionMode.BatchLowersEveryPriority(tasks, e);
    }
  }

  /** A task with a lower new priority is placed after one with a higher new priority. */
  lemma SortOrder(tasks: seq<Entry>)
    ensures Uasort.Descending(SortSpec(tasks), ExecutionMode.PriorityOf)
  {
    ExecutionMode.BatchOrder(tasks);
  }
}

module SchedulePolicyOrchestrator {
  import opened Wrappers
  import opened Tasks
  import BatchPolicy
  import FirstMatch

  /** A registered policy: the batch policy, or another one known by its position. */
  datatype Policy = Batch | Other(id: nat)

  /** The `support` and `sort` of the policies other than `batch`. */
  datatype Others = Others(support: (nat, string) -> bool, sort: (nat, seq<Entry>) -> seq<Entry>)

  predicate Supports(others: Others, p: Policy, name: string)
  {
    match p
    case Batch => BatchPolicy.Support(name)
    case Other(id) => others.support(id, name)
  }

  function PolicySort(others: Others, p: Policy, tasks: seq<Entry>): seq<Entry>
  {
    match p
    case Batch => BatchPolicy.SortSpec(tasks)
    case Other(id) => others.sort(id, tasks)
  }

  function Supporting(others: Others, name: string): Policy -> bool
  {
    (p: Policy) => Supports(others, p, name)
  }

  const NoPolicyMessage: string := "The tasks cannot be sorted as no policies have been defined"

  function UnusablePolicyMessage(name: string): string
  {
    "The policy \"" + name + "\" cannot be used"
  }

  /**
   * `sort(policy, tasks)`: no policies is an error even for no tasks; no tasks
   * gives no tasks; otherwise the first policy supporting the name sorts, and
   * if none does the name is rejected.
   */
  function Sort(others: Others, policies: seq<Policy>, name: string, tasks: seq<Entry>): (r: Result<seq<Entry>>)
    ensures policies == [] ==> r == Err(Runtime(NoPolicyMessage))
    ensures policies != [] && tasks == [] ==> r == Ok([])
    ensures policies != [] && tasks != [] ==>
      (r.Ok? <==> exists i :: 0 <= i < |policies| && Supports(others, policies[i], name))
    ensures policies != [] && tasks != [] && r.Ok? ==>
      exists i :: 0 <= i < |policies| && Supports(others, policies[i], name)
        && (forall j :: 0 <= j < i ==> !Supports(others, policies[j], name))
        && r.value == PolicySort(others, policies[i], tasks)
    ensures r.Err? && policies != [] ==> r.error == InvalidArgument(UnusablePolicyMessage(name))
  {
    if policies == [] then Err(Runtime(NoPolicyMessage))
    else if tasks == [] then Ok([])
    else match FirstMatch.First(policies, Supporting(others, name))
      case Some(i) => Ok(PolicySort(others, policies[i], tasks))
      case None => Err(InvalidArgument(UnusablePolicyMessage(name)))
  }

  /** Policies registered after the first supporting one are never consulted: adding more changes nothing. */
  lemma LaterPoliciesIgnored(others: Others, policies: seq<Policy>, more: seq<Policy>, name: string, tasks: seq<Entry>)
    requires Sort(others, policies, name, tasks).Ok?
    ensures Sort(others, policies + more, name, tasks) == Sort(others, policies, name, tasks)
  {
    if policies != [] && tasks != [] {
      FirstMatch.FirstIgnoresLater(policies, more, Supporting(others, name));
    }
  }

  /** With only the batch policy, `batch` sorts as the batch policy does and any other name is rejected. */
  lemma BatchOnly(others: Others, name: string, tasks: seq<Entry>)
    requires tasks != []
    ensures name == "batch" ==> Sort(others, [Batch], name, tasks) == Ok(BatchPolicy.SortSpec(tasks))
    ensures name != "batch" ==> Sort(others, [Batch], name, tasks) == Err(InvalidArgument(UnusablePolicyMessage(name)))
  {
    if name != "batch" {
      assert !Supports(others, [Batch][0], name);
    }
  }
}
