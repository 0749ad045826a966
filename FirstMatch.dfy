// First-match dispatch, the pattern shared by the schedule-policy
// orchestrator and the task builder: walk a list in order and hand the work
// to the first element that supports it.

module FirstMatch {
  import opened Wrappers

  /** The position of the first element satisfying `supports`, if any. */
  function First<T>(xs: seq<T>, supports: T -> bool): (r: Option<nat>)
    ensures r.Some? ==> r.value < |xs| && supports(xs[r.value])
    ensures r.Some? ==> forall j :: 0 <= j < r.value ==> !supports(xs[j])
    ensures r.None? <==> forall j :: 0 <= j < |xs| ==> !supports(xs[j])
    decreases |xs|
  {
    if xs == [] then None
    else if supports(xs[0]) then Some(0)
    else match First(xs[1..], supports)
      case None => None
      case Some(k) => Some(k + 1)
  }

  /** The elements after the first supporting one play no part: a longer list gives the same answer. */
  lemma {:induction false} FirstIgnoresLater<T>(xs: seq<T>, more: seq<T>, supports: T -> bool)
    requires First(xs, supports).Some?
    ensures First(xs + more, supports) == First(xs, supports)
    decreases |xs|
  {
    if !supports(xs[0]) {
      assert (xs + more)[1..] == xs[1..] + more;
      FirstIgnoresLater(xs[1..], more, supports);
    }
  }
}
