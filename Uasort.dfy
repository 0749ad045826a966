// PHP's `uasort` with a boolean comparator, as a stable insertion sort: each
// element moves left past every element already placed that the comparator
// says belongs after it. For a comparator that is a strict weak order on the
// given elements this is the order every stable sort produces.

module Uasort {

  /** Insert `x` behind a placed prefix. */
  function Insert<T>(after: (T, T) -> bool, placed: seq<T>, x: T): seq<T>
    decreases |placed|
  {
    if placed == [] then [x]
    else if after(placed[|placed| - 1], x) then
      Insert(after, placed[..|placed| - 1], x) + [placed[|placed| - 1]]
    else placed + [x]
  }

  /** The order `uasort` leaves the elements in. */
  function InsertionSort<T>(after: (T, T) -> bool, s: seq<T>): seq<T>
    decreases |s|
  {
    if s == [] then [] else Insert(after, InsertionSort(after, s[..|s| - 1]), s[|s| - 1])
  }

  /** `uasort`, in place. */
  method SortInPlace<T>(a: array<T>, after: (T, T) -> bool)
    modifies a
    ensures a[..] == InsertionSort(after, old(a[..]))
  {
    ghost var input := a[..];
    var n := a.Length;
    if n == 0 {
      return;
    }
    var i := 1;
    assert input[..1] == [input[0]];
    assert InsertionSort(after, input[..1]) == Insert(after, [], input[0]);
    while i < n
      invariant 1 <= i <= n
      invariant a[..i] == InsertionSort(after, input[..i])
      invariant a[i..] == input[i..]
    {
      assert input[..i + 1] == input[..i] + [input[i]];
      InsertInPlace(a, i, after);
      i := i + 1;
    }
    assert input[..n] == input;
  }

  /** One step of the sort: `a[i]` moves left into the placed prefix `a[..i]`. */
  method InsertInPlace<T>(a: array<T>, i: nat, after: (T, T) -> bool)
    requires i < a.Length
    modifies a
    ensures a[..i + 1] == Insert(after, old(a[..i]), old(a[i]))
    ensures a[i + 1..] == old(a[i + 1..])
  {
    ghost var placed := a[..i];
    var x := a[i];
    var j := i;
    assert placed[..j] == placed && placed[j..] == [];
    while j > 0 && after(a[j - 1], x)
      invariant 0 <= j <= i
      invariant forall k :: 0 <= k < j ==> a[k] == placed[k]
      invariant forall k :: j < k <= i ==> a[k] == placed[k - 1]
      invariant a[i + 1..] == old(a[i + 1..])
      invariant Insert(after, placed, x) == Insert(after, placed[..j], x) + placed[j..]
    {
      InsertStep(after, placed, x, j);
      a[j] := a[j - 1];
      j := j - 1;
    }
    a[j] := x;
    InsertStop(after, placed, x, j);
    Assemble(a[..i + 1], placed, x, j);
  }

  lemma Assemble<T>(r: seq<T>, placed: seq<T>, x: T, j: nat)
    requires |r| == |placed| + 1 && j <= |placed|
    requires forall k :: 0 <= k < j ==> r[k] == placed[k]
    requires r[j] == x
    requires forall k :: j < k <= |placed| ==> r[k] == placed[k - 1]
    ensures r == placed[..j] + [x] + placed[j..]
  {
  }

  lemma InsertStep<T>(after: (T, T) -> bool, placed: seq<T>, x: T, j: nat)
    requires 0 < j <= |placed|
    requires after(placed[j - 1], x)
    requires Insert(after, placed, x) == Insert(after, placed[..j], x) + placed[j..]
    ensures Insert(after, placed, x) == Insert(after, placed[..j - 1], x) + placed[j - 1..]
  {
    var pre := placed[..j];
    var y := placed[j - 1];
    var front := Insert(after, placed[..j - 1], x);
    assert pre[..|pre| - 1] == placed[..j - 1] && pre[|pre| - 1] == y;
    InsertLast(after, pre, x);
    assert placed[j - 1..] == [y] + placed[j..];
    Regroup(Insert(after, placed, x), Insert(after, pre, x), front, y, placed[j..], placed[j - 1..]);
  }

  lemma InsertLast<T>(after: (T, T) -> bool, pre: seq<T>, x: T)
    requires |pre| > 0 && after(pre[|pre| - 1], x)
    ensures Insert(after, pre, x) == Insert(after, pre[..|pre| - 1], x) + [pre[|pre| - 1]]
  {
  }

  lemma Regroup<T>(whole: seq<T>, left: seq<T>, front: seq<T>, y: T, rest: seq<T>, tail: seq<T>)
    requires whole == left + rest && left == front + [y] && tail == [y] + rest
    ensures whole == front + tail
  {
    assert (front + [y]) + rest == front + ([y] + rest);
  }

  lemma InsertStop<T>(after: (T, T) -> bool, placed: seq<T>, x: T, j: nat)
    requires j <= |placed|
    requires j == 0 || !after(placed[j - 1], x)
    ensures Insert(after, placed[..j], x) == placed[..j] + [x]
  {
  }

  // ---- the sort only rearranges ----

  function Map<T, U>(f: T -> U, s: seq<T>): (r: seq<U>)
    ensures |r| == |s| && forall i :: 0 <= i < |s| ==> r[i] == f(s[i])
  {
    if s == [] then [] else Map(f, s[..|s| - 1]) + [f(s[|s| - 1])]
  }

  lemma MapAppend<T, U>(f: T -> U, a: seq<T>, b: seq<T>)
    ensures Map(f, a + b) == Map(f, a) + Map(f, b)
  {
  }

  lemma {:induction false} InsertPermutes<T>(after: (T, T) -> bool, placed: seq<T>, x: T)
    ensures multiset(Insert(after, placed, x)) == multiset(placed) + multiset{x}
    decreases |placed|
  {
    if placed != [] {
      var init, last := placed[..|placed| - 1], placed[|placed| - 1];
      assert placed == init + [last];
      if after(last, x) {
        InsertPermutes(after, init, x);
      }
    }
  }

  lemma {:induction false} InsertMapPermutes<T, U>(after: (T, T) -> bool, f: T -> U, placed: seq<T>, x: T)
    ensures multiset(Map(f, Insert(after, placed, x))) == multiset(Map(f, placed)) + multiset{f(x)}
    decreases |placed|
  {
    if placed == [] {
      assert Insert(after, placed, x) == [x];
      assert Map(f, [x]) == [f(x)];
    } else {
      var init, last := placed[..|placed| - 1], placed[|placed| - 1];
      assert placed == init + [last];
      assert multiset(Map(f, placed)) == multiset(Map(f, init)) + multiset{f(last)} by {
        MapAppend(f, init, [last]);
      }
      if after(last, x) {
        var ins := Insert(after, init, x);
        assert Insert(after, placed, x) == ins + [last];
        calc {
          multiset(Map(f, Insert(after, placed, x)));
          multiset(Map(f, ins + [last]));
          { MapAppend(f, ins, [last]); }
          multiset(Map(f, ins)) + multiset{f(last)};
          { InsertMapPermutes(after, f, init, x); }
          multiset(Map(f, init)) + multiset{f(x)} + multiset{f(last)};
          multiset(Map(f, placed)) + multiset{f(x)};
        }
      } else {
        assert Insert(after, placed, x) == placed + [x];
        assert multiset(Map(f, placed + [x])) == multiset(Map(f, placed)) + multiset{f(x)} by {
          MapAppend(f, placed, [x]);
        }
      }
    }
  }

  /** The sorted sequence holds the same elements, as often as the input does. */
  lemma {:induction false} SortPermutes<T>(after: (T, T) -> bool, s: seq<T>)
    ensures multiset(InsertionSort(after, s)) == multiset(s)
    ensures |InsertionSort(after, s)| == |s|
    decreases |s|
  {
    if s != [] {
      var init, last := s[..|s| - 1], s[|s| - 1];
      assert s == init + [last];
      SortPermutes(after, init);
      InsertPermutes(after, InsertionSort(after, init), last);
    }
    assert |multiset(InsertionSort(after, s))| == |InsertionSort(after, s)|;
  }

  /** Any view `f` of the elements (for example their keys) is rearranged the same way. */
  lemma {:induction false} SortMapPermutes<T, U>(after: (T, T) -> bool, f: T -> U, s: seq<T>)
    ensures multiset(Map(f, InsertionSort(after, s))) == multiset(Map(f, s))
    decreases |s|
  {
    if s != [] {
      var init, last := s[..|s| - 1], s[|s| - 1];
      assert s == init + [last];
      MapAppend(f, init, [last]);
      SortMapPermutes(after, f, init);
      InsertMapPermutes(after, f, InsertionSort(after, init), last);
    }
  }

  // ---- the sort orders by a key when the comparator compares keys ----

  /** Non-increasing by `key`. */
  ghost predicate Descending<T>(s: seq<T>, key: T -> int)
  {
    forall i, j :: 0 <= i < j < |s| ==> key(s[i]) >= key(s[j])
  }

  /** On the elements of `s`, `after(a, b)` holds exactly when `a`'s key is below `b`'s. */
  ghost predicate ComparesKeys<T>(after: (T, T) -> bool, key: T -> int, s: seq<T>)
  {
    forall a, b :: a in s && b in s ==> (after(a, b) <==> key(a) < key(b))
  }

  lemma InsertMember<T>(after: (T, T) -> bool, placed: seq<T>, x: T, e: T)
    ensures e in Insert(after, placed, x) <==> e in placed || e == x
  {
    InsertPermutes(after, placed, x);
    assert e in Insert(after, placed, x) <==> e in multiset(Insert(after, placed, x));
    assert e in placed <==> e in multiset(placed);
  }

  lemma DescendingAppend<T>(s: seq<T>, y: T, key: T -> int)
    requires Descending(s, key)
    requires forall i :: 0 <= i < |s| ==> key(s[i]) >= key(y)
    ensures Descending(s + [y], key)
  {
  }

  lemma InsertBound<T>(after: (T, T) -> bool, key: T -> int, placed: seq<T>, x: T, bound: int)
    requires forall i :: 0 <= i < |placed| ==> key(placed[i]) >= bound
    requires key(x) >= bound
    ensures forall i :: 0 <= i < |Insert(after, placed, x)| ==> key(Insert(after, placed, x)[i]) >= bound
  {
    var ins := Insert(after, placed, x);
    forall i | 0 <= i < |ins| ensures key(ins[i]) >= bound {
      InsertMember(after, placed, x, ins[i]);
      if ins[i] != x {
        assert ins[i] in placed;
      }
    }
  }

  lemma {:induction false} InsertDescending<T>(after: (T, T) -> bool, key: T -> int, placed: seq<T>, x: T)
    requires Descending(placed, key)
    requires ComparesKeys(after, key, placed + [x])
    ensures Descending(Insert(after, placed, x), key)
    decreases |placed|
  {
    if placed != [] {
      var init, last := placed[..|placed| - 1], placed[|placed| - 1];
      assert last in placed + [x] && x in placed + [x];
      if after(last, x) {
        forall a, b | a in init + [x] && b in init + [x] ensures after(a, b) <==> key(a) < key(b) {
          assert a in placed + [x] && b in placed + [x];
        }
        InsertDescending(after, key, init, x);
        InsertBound(after, key, init, x, key(last));
        DescendingAppend(Insert(after, init, x), last, key);
      } else {
        DescendingAppend(placed, x, key);
      }
    }
  }

  /**
   * When the comparator compares keys (and so is a strict weak order), the
   * sort leaves the elements in non-increasing key order.
   */
  lemma {:induction false} SortDescending<T>(after: (T, T) -> bool, key: T -> int, s: seq<T>)
    requires ComparesKeys(after, key, s)
    ensures Descending(InsertionSort(after, s), key)
    decreases |s|
  {
    if s != [] {
      var init, last := s[..|s| - 1], s[|s| - 1];
      assert s == init + [last];
      forall a, b | a in init && b in init ensures after(a, b) <==> key(a) < key(b) {
        assert a in s && b in s;
      }
      SortDescending(after, key, init);
      var sorted := InsertionSort(after, init);
      SortPermutes(after, init);
      forall a, b | a in sorted + [last] && b in sorted + [last] ensures after(a, b) <==> key(a) < key(b) {
        assert a in multiset(sorted) ==> a in init;
        assert b in multiset(sorted) ==> b in init;
        assert a in s && b in s;
      }
      InsertDescending(after, key, sorted, last);
    }
  }

  /** A comparator that never fires leaves the order as it was. */
  lemma {:induction false} SortStable<T>(after: (T, T) -> bool, s: seq<T>)
    requires forall i, j :: 0 <= i < |s| && 0 <= j < |s| ==> !after(s[i], s[j])
    ensures InsertionSort(after, s) == s
    decreases |s|
  {
    if s != [] {
      var init, last := s[..|s| - 1], s[|s| - 1];
      SortStable(after, init);
      assert s == init + [last];
      if init != [] {
        assert !after(init[|init| - 1], last) by {
          assert init[|init| - 1] == s[|s| - 2];
        }
      }
    }
  }
}
