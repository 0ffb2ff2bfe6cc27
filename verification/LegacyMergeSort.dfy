/**
 The merge sort that `java.util.Arrays` runs when `java.util.Arrays.useLegacyMergeSort` is set,
 which the application does before anything else. Every `Stream.sorted(comparator)` ends there.

 It only ever asks whether `compare(a, b)` is positive, so it also gives a meaningful order for
 comparators that break the `Comparator` contract: `SortOrders` says which one.
 */
module LegacyMergeSort {
  import opened Sequences

  const INSERTION_SORT_THRESHOLD: nat := 7

  /** One outer round of the insertion sort: `x` is swapped down past every greater element. */
  function Insert<T>(x: T, sorted: seq<T>, compare: (T, T) -> int): (r: seq<T>)
    ensures |r| == |sorted| + 1
  {
    var n := |sorted|;
    if n == 0 || compare(sorted[n - 1], x) <= 0 then sorted + [x]
    else Insert(x, sorted[..n - 1], compare) + [sorted[n - 1]]
  }

  function InsertionSort<T>(s: seq<T>, compare: (T, T) -> int): (r: seq<T>)
    ensures |r| == |s|
  {
    var n := |s|;
    if n == 0 then [] else Insert(s[n - 1], InsertionSort(s[..n - 1], compare), compare)
  }

  function Merge<T>(left: seq<T>, right: seq<T>, compare: (T, T) -> int): (r: seq<T>)
    ensures |r| == |left| + |right|
    decreases |left| + |right|
  {
    if |left| == 0 then right
    else if |right| == 0 || compare(left[0], right[0]) <= 0 then [left[0]] + Merge(left[1..], right, compare)
    else [right[0]] + Merge(left, right[1..], compare)
  }

  /** Sorted halves that are already in order are copied, not merged. */
  function Join<T>(left: seq<T>, right: seq<T>, compare: (T, T) -> int): (r: seq<T>)
    requires |left| != 0 && |right| != 0
    ensures |r| == |left| + |right|
  {
    if compare(left[|left| - 1], right[0]) <= 0 then left + right else Merge(left, right, compare)
  }

  /** Lists below the threshold are insertion sorted, longer ones are halved. */
  function Sort<T>(s: seq<T>, compare: (T, T) -> int): (r: seq<T>)
    ensures |r| == |s|
    decreases |s|
  {
    if |s| < INSERTION_SORT_THRESHOLD then InsertionSort(s, compare)
    else
      var mid := |s| / 2;
      Join(Sort(s[..mid], compare), Sort(s[mid..], compare), compare)
  }

  // ----- permutation

  lemma {:induction false} InsertPermutes<T>(x: T, sorted: seq<T>, compare: (T, T) -> int)
    ensures multiset(Insert(x, sorted, compare)) == multiset(sorted) + multiset{x}
  {
    var n := |sorted|;
    if n != 0 && compare(sorted[n - 1], x) > 0 {
      InsertPermutes(x, sorted[..n - 1], compare);
      assert sorted == sorted[..n - 1] + [sorted[n - 1]];
    }
  }

  lemma {:induction false} InsertionSortPermutes<T>(s: seq<T>, compare: (T, T) -> int)
    ensures multiset(InsertionSort(s, compare)) == multiset(s)
  {
    var n := |s|;
    if n != 0 {
      InsertionSortPermutes(s[..n - 1], compare);
      InsertPermutes(s[n - 1], InsertionSort(s[..n - 1], compare), compare);
      assert s == s[..n - 1] + [s[n - 1]];
    }
  }

  lemma {:induction false} MergePermutes<T>(left: seq<T>, right: seq<T>, compare: (T, T) -> int)
    ensures multiset(Merge(left, right, compare)) == multiset(left) + multiset(right)
    decreases |left| + |right|
  {
    if |left| != 0 {
      if |right| == 0 || compare(left[0], right[0]) <= 0 {
        MergePermutes(left[1..], right, compare);
        assert left == [left[0]] + left[1..];
      } else {
        MergePermutes(left, right[1..], compare);
        assert right == [right[0]] + right[1..];
      }
    }
  }

  /** Whatever the comparator answers, the result is a permutation of the input. */
  lemma {:induction false} SortPermutes<T>(s: seq<T>, compare: (T, T) -> int)
    ensures multiset(Sort(s, compare)) == multiset(s)
    decreases |s|
  {
    if |s| < INSERTION_SORT_THRESHOLD {
      InsertionSortPermutes(s, compare);
    } else {
      var mid := |s| / 2;
      SortPermutes(s[..mid], compare);
      SortPermutes(s[mid..], compare);
      MergePermutes(Sort(s[..mid], compare), Sort(s[mid..], compare), compare);
      assert s == s[..mid] + s[mid..];
    }
  }

  // ----- order

  /** The order `le` is transitive on the elements of `all`, and `compare` decides it soundly there. */
  ghost predicate Decides<T>(compare: (T, T) -> int, le: (T, T) -> bool, all: seq<T>) {
    && (forall a, b | a in all && b in all :: if compare(a, b) <= 0 then le(a, b) else le(b, a))
    && (forall a, b, c | a in all && b in all && c in all && le(a, b) && le(b, c) :: le(a, c))
  }

  ghost predicate SortedBy<T>(s: seq<T>, le: (T, T) -> bool) {
    forall i, j :: 0 <= i < j < |s| ==> le(s[i], s[j])
  }

  ghost predicate Within<T>(s: seq<T>, all: seq<T>) {
    forall x | x in s :: x in all
  }

  lemma PermutationWithin<T>(a: seq<T>, b: seq<T>, all: seq<T>)
    requires multiset(a) == multiset(b) && Within(b, all)
    ensures Within(a, all)
  {
    forall x | x in a ensures x in all {
      assert x in multiset(a);
      assert x in b;
    }
  }

  /** Adding an element after a sorted run keeps it sorted when the last element is below it. */
  lemma SortedSnoc<T>(s: seq<T>, x: T, compare: (T, T) -> int, le: (T, T) -> bool, all: seq<T>)
    requires Decides(compare, le, all) && Within(s, all) && x in all
    requires SortedBy(s, le)
    requires |s| == 0 || le(s[|s| - 1], x)
    ensures SortedBy(s + [x], le)
  {
    forall i | 0 <= i < |s| ensures le(s[i], x) {
      assert s[i] in all && s[|s| - 1] in all;
    }
  }

  lemma {:induction false} InsertOrders<T>(x: T, sorted: seq<T>, compare: (T, T) -> int, le: (T, T) -> bool, all: seq<T>)
    requires Decides(compare, le, all) && Within(sorted, all) && x in all
    requires SortedBy(sorted, le)
    ensures SortedBy(Insert(x, sorted, compare), le)
  {
    var n := |sorted|;
    if n == 0 {
    } else if compare(sorted[n - 1], x) <= 0 {
      SortedSnoc(sorted, x, compare, le, all);
    } else {
      var last, front := sorted[n - 1], sorted[..n - 1];
      InsertOrders(x, front, compare, le, all);
      InsertPermutes(x, front, compare);
      var r := Insert(x, front, compare);
      forall i | 0 <= i < |r| ensures le(r[i], last) {
        assert r[i] in multiset(r);
      }
    }
  }

  lemma {:induction false} InsertionSortOrders<T>(s: seq<T>, compare: (T, T) -> int, le: (T, T) -> bool, all: seq<T>)
    requires Decides(compare, le, all) && Within(s, all)
    ensures SortedBy(InsertionSort(s, compare), le)
  {
    var n := |s|;
    if n != 0 {
      var front := s[..n - 1];
      InsertionSortOrders(front, compare, le, all);
      InsertionSortPermutes(front, compare);
      assert Within(front, all);
      PermutationWithin(InsertionSort(front, compare), front, all);
      InsertOrders(s[n - 1], InsertionSort(front, compare), compare, le, all);
    }
  }

  /** A head below both heads of what is left to merge goes in front of the merge. */
  lemma ConsMerge<T>(head: T, left: seq<T>, right: seq<T>, compare: (T, T) -> int, le: (T, T) -> bool, all: seq<T>)
    requires Decides(compare, le, all) && Within(left, all) && Within(right, all) && head in all
    requires SortedBy(left, le) && SortedBy(right, le) && SortedBy(Merge(left, right, compare), le)
    requires |left| != 0 ==> le(head, left[0])
    requires |right| != 0 ==> le(head, right[0])
    ensures SortedBy([head] + Merge(left, right, compare), le)
  {
    MergePermutes(left, right, compare);
    var m := Merge(left, right, compare);
    forall i | 0 <= i < |m| ensures le(head, m[i]) {
      assert m[i] in multiset(m);
      if m[i] in left {
        var k :| 0 <= k < |left| && left[k] == m[i];
        assert left[0] in all && left[k] in all;
      } else {
        assert m[i] in right;
        var k :| 0 <= k < |right| && right[k] == m[i];
        assert right[0] in all && right[k] in all;
      }
    }
  }

  lemma {:induction false} MergeOrders<T>(left: seq<T>, right: seq<T>, compare: (T, T) -> int, le: (T, T) -> bool, all: seq<T>)
    requires Decides(compare, le, all) && Within(left, all) && Within(right, all)
    requires SortedBy(left, le) && SortedBy(right, le)
    ensures SortedBy(Merge(left, right, compare), le)
    decreases |left| + |right|
  {
    if |left| != 0 {
      if |right| == 0 || compare(left[0], right[0]) <= 0 {
        MergeOrders(left[1..], right, compare, le, all);
        ConsMerge(left[0], left[1..], right, compare, le, all);
      } else {
        assert left[0] in all && right[0] in all;
        MergeOrders(left, right[1..], compare, le, all);
        ConsMerge(right[0], left, right[1..], compare, le, all);
      }
    }
  }

  /** Two sorted runs whose border is in order are sorted when put one after the other. */
  lemma ConcatOrders<T>(left: seq<T>, right: seq<T>, compare: (T, T) -> int, le: (T, T) -> bool, all: seq<T>)
    requires Decides(compare, le, all) && Within(left, all) && Within(right, all)
    requires SortedBy(left, le) && SortedBy(right, le)
    requires |left| != 0 && |right| != 0 && le(left[|left| - 1], right[0])
    ensures SortedBy(left + right, le)
  {
    var last, first := left[|left| - 1], right[0];
    forall i, j | 0 <= i < |left| && 0 <= j < |right| ensures le(left[i], right[j]) {
      assert left[i] in all && last in all && first in all && right[j] in all;
      assert i == |left| - 1 || le(left[i], last);
      assert le(left[i], first);
      assert j == 0 || le(first, right[j]);
    }
  }

  lemma JoinOrders<T>(left: seq<T>, right: seq<T>, compare: (T, T) -> int, le: (T, T) -> bool, all: seq<T>)
    requires Decides(compare, le, all) && Within(left, all) && Within(right, all)
    requires SortedBy(left, le) && SortedBy(right, le)
    requires |left| != 0 && |right| != 0
    ensures SortedBy(Join(left, right, compare), le)
  {
    if compare(left[|left| - 1], right[0]) <= 0 {
      ConcatOrders(left, right, compare, le, all);
    } else {
      MergeOrders(left, right, compare, le, all);
    }
  }

  lemma HalvesWithin<T>(s: seq<T>, mid: nat, all: seq<T>)
    requires mid <= |s| && Within(s, all)
    ensures Within(s[..mid], all) && Within(s[mid..], all)
  {
  }

  /** What the comparator decides on a list decides every part of the sort of that list. */
  lemma {:induction false} PartOrders<T>(s: seq<T>, compare: (T, T) -> int, le: (T, T) -> bool, all: seq<T>)
    requires Decides(compare, le, all) && Within(s, all)
    ensures SortedBy(Sort(s, compare), le)
    decreases |s|
  {
    if |s| < INSERTION_SORT_THRESHOLD {
      InsertionSortOrders(s, compare, le, all);
    } else {
      var mid := |s| / 2;
      var front, back := s[..mid], s[mid..];
      var left, right := Sort(front, compare), Sort(back, compare);
      HalvesWithin(s, mid, all);
      PartOrders(front, compare, le, all);
      PartOrders(back, compare, le, all);
      assert Within(left, all) by {
        SortPermutes(front, compare);
        PermutationWithin(left, front, all);
      }
      assert Within(right, all) by {
        SortPermutes(back, compare);
        PermutationWithin(right, back, all);
      }
      JoinOrders(left, right, compare, le, all);
    }
  }

  /**
   The main result: the outcome is sorted by every transitive relation that the comparator decides
   soundly on the elements of the list. The comparator itself need not be antisymmetric,
   transitive or consistent with equality.
   */
  lemma SortOrders<T>(s: seq<T>, compare: (T, T) -> int, le: (T, T) -> bool)
    requires Decides(compare, le, s)
    ensures SortedBy(Sort(s, compare), le)
  {
    PartOrders(s, compare, le, s);
  }

  // ----- stability

  /** A list in which no element is asked to give way to a later one is left as it is. */
  lemma {:induction false} SortKeepsOrdered<T>(s: seq<T>, compare: (T, T) -> int)
    requires forall i, j :: 0 <= i < j < |s| ==> compare(s[i], s[j]) <= 0
    ensures Sort(s, compare) == s
    decreases |s|
  {
    if |s| < INSERTION_SORT_THRESHOLD {
      InsertionSortKeepsOrdered(s, compare);
    } else {
      var mid := |s| / 2;
      SortKeepsOrdered(s[..mid], compare);
      SortKeepsOrdered(s[mid..], compare);
      assert s == s[..mid] + s[mid..];
    }
  }

  lemma {:induction false} InsertionSortKeepsOrdered<T>(s: seq<T>, compare: (T, T) -> int)
    requires forall i, j :: 0 <= i < j < |s| ==> compare(s[i], s[j]) <= 0
    ensures InsertionSort(s, compare) == s
  {
    var n := |s|;
    if n != 0 {
      var front := s[..n - 1];
      InsertionSortKeepsOrdered(front, compare);
      assert n > 1 ==> compare(s[n - 2], s[n - 1]) <= 0;
      assert Insert(s[n - 1], front, compare) == front + [s[n - 1]];
    }
  }

  /** Nothing that `le` puts before one of these elements is asked to give way to another of them. */
  ghost predicate IsClass<T>(tied: T -> bool, compare: (T, T) -> int, le: (T, T) -> bool, all: seq<T>) {
    && (forall x, y | x in all && y in all && tied(x) && tied(y) :: compare(x, y) <= 0)
    && (forall a, x, y | a in all && x in all && y in all && tied(x) && tied(y) && le(a, x) :: compare(a, y) <= 0)
  }

  lemma PassesNoTie<T>(x: T, last: T, front: seq<T>, tied: T -> bool)
    requires !tied(x) || !tied(last)
    ensures front + Select([x], tied) + Select([last], tied) == front + Select([last], tied) + Select([x], tied)
  {
    SelectCons(x, [], tied);
    SelectCons(last, [], tied);
    assert [x] + [] == [x] && [last] + [] == [last];
  }

  lemma {:induction false} InsertIsStable<T>(x: T, sorted: seq<T>, compare: (T, T) -> int, tied: T -> bool)
    requires forall y | y in sorted && tied(x) && tied(y) :: compare(y, x) <= 0
    ensures Select(Insert(x, sorted, compare), tied) == Select(sorted, tied) + Select([x], tied)
  {
    var n := |sorted|;
    if n == 0 || compare(sorted[n - 1], x) <= 0 {
      SelectConcat(sorted, [x], tied);
    } else {
      var front, last := sorted[..n - 1], [sorted[n - 1]];
      assert sorted[n - 1] in sorted;
      InsertIsStable(x, front, compare, tied);
      SelectConcat(Insert(x, front, compare), last, tied);
      assert sorted == front + last;
      SelectConcat(front, last, tied);
      PassesNoTie(x, sorted[n - 1], Select(front, tied), tied);
    }
  }

  lemma {:induction false} InsertionSortIsStable<T>(s: seq<T>, compare: (T, T) -> int, tied: T -> bool)
    requires forall x, y | x in s && y in s && tied(x) && tied(y) :: compare(x, y) <= 0
    ensures Select(InsertionSort(s, compare), tied) == Select(s, tied)
  {
    var n := |s|;
    if n != 0 {
      var front := s[..n - 1];
      InsertionSortIsStable(front, compare, tied);
      InsertionSortPermutes(front, compare);
      PermutationWithin(InsertionSort(front, compare), front, s);
      InsertIsStable(s[n - 1], InsertionSort(front, compare), compare, tied);
      assert s == front + [s[n - 1]];
      SelectConcat(front, [s[n - 1]], tied);
    }
  }

  /** An element that is merged before a whole run is tied to none of the run. */
  lemma OvertakesNoTie<T>(left: seq<T>, x: T, compare: (T, T) -> int, le: (T, T) -> bool, all: seq<T>, tied: T -> bool)
    requires IsClass(tied, compare, le, all) && Within(left, all) && x in all && SortedBy(left, le)
    requires |left| != 0 && compare(left[0], x) > 0 && tied(x)
    ensures Select(left, tied) == []
  {
    forall y | y in left ensures !tied(y) {
      var k :| 0 <= k < |left| && left[k] == y;
      assert left[0] in left && y in all;
      if k > 0 {
        assert le(left[0], left[k]);
      }
    }
    SelectNone(left, tied);
  }

  lemma TakeLeft<T>(x: T, left: seq<T>, merged: seq<T>, right: seq<T>, tied: T -> bool)
    requires Select(merged, tied) == Select(left, tied) + Select(right, tied)
    ensures Select([x] + merged, tied) == Select([x] + left, tied) + Select(right, tied)
  {
    SelectCons(x, merged, tied);
    SelectCons(x, left, tied);
    ConcatAssociates(if tied(x) then [x] else [], Select(left, tied), Select(right, tied));
  }

  lemma ConcatAssociates<T>(a: seq<T>, b: seq<T>, c: seq<T>)
    ensures a + (b + c) == (a + b) + c
  {
  }

  lemma TakeRight<T>(x: T, left: seq<T>, right: seq<T>, merged: seq<T>, tied: T -> bool)
    requires Select(merged, tied) == Select(left, tied) + Select(right, tied)
    requires tied(x) ==> Select(left, tied) == []
    ensures Select([x] + merged, tied) == Select(left, tied) + Select([x] + right, tied)
  {
    SelectCons(x, merged, tied);
    SelectCons(x, right, tied);
  }

  lemma {:induction false} MergeIsStable<T>(
      left: seq<T>, right: seq<T>, compare: (T, T) -> int, le: (T, T) -> bool, all: seq<T>, tied: T -> bool)
    requires IsClass(tied, compare, le, all) && Within(left, all) && Within(right, all)
    requires SortedBy(left, le)
    ensures Select(Merge(left, right, compare), tied) == Select(left, tied) + Select(right, tied)
    decreases |left| + |right|
  {
    if |left| != 0 {
      if |right| == 0 || compare(left[0], right[0]) <= 0 {
        var rest := left[1..];
        MergeIsStable(rest, right, compare, le, all, tied);
        TakeLeft(left[0], rest, Merge(rest, right, compare), right, tied);
        assert left == [left[0]] + rest;
      } else {
        var rest := right[1..];
        MergeIsStable(left, rest, compare, le, all, tied);
        assert right[0] in right;
        if tied(right[0]) {
          OvertakesNoTie(left, right[0], compare, le, all, tied);
        }
        TakeRight(right[0], left, rest, Merge(left, rest, compare), tied);
        assert right == [right[0]] + rest;
      }
    }
  }

  lemma {:induction false} PartIsStable<T>(s: seq<T>, compare: (T, T) -> int, le: (T, T) -> bool, all: seq<T>, tied: T -> bool)
    requires Decides(compare, le, all) && IsClass(tied, compare, le, all) && Within(s, all)
    ensures Select(Sort(s, compare), tied) == Select(s, tied)
    decreases |s|
  {
    if |s| < INSERTION_SORT_THRESHOLD {
      InsertionSortIsStable(s, compare, tied);
    } else {
      var mid := |s| / 2;
      var front, back := s[..mid], s[mid..];
      var left, right := Sort(front, compare), Sort(back, compare);
      HalvesWithin(s, mid, all);
      PartIsStable(front, compare, le, all, tied);
      PartIsStable(back, compare, le, all, tied);
      SortPermutes(front, compare);
      PermutationWithin(left, front, all);
      SortPermutes(back, compare);
      PermutationWithin(right, back, all);
      PartOrders(front, compare, le, all);
      MergeIsStable(left, right, compare, le, all, tied);
      SelectConcat(left, right, tied);
      assert s == front + back;
      SelectConcat(front, back, tied);
    }
  }

  /** Stability: tied elements keep the order they had in the list. */
  lemma SortIsStable<T>(s: seq<T>, compare: (T, T) -> int, le: (T, T) -> bool, tied: T -> bool)
    requires Decides(compare, le, s) && IsClass(tied, compare, le, s)
    ensures Select(Sort(s, compare), tied) == Select(s, tied)
  {
    PartIsStable(s, compare, le, s, tied);
  }

  /** Up to the threshold an element that need not give way to the last one is simply appended. */
  lemma ShortListAppends<T>(s: seq<T>, compare: (T, T) -> int)
    requires 1 < |s| < 7
    requires compare(Sort(s[..|s| - 1], compare)[|s| - 2], s[|s| - 1]) <= 0
    ensures Sort(s, compare) == Sort(s[..|s| - 1], compare) + [s[|s| - 1]]
  {
  }

  /**
   From the threshold on the halves are sorted first, and a merge can put `d` before `b` although `b` came
   first and need not give way to it: it is enough that `a` before them has to, and that `c` has to.
   */
  lemma MergeOvertakes<T>(a: T, b: T, c: T, d: T, compare: (T, T) -> int)
    requires compare(a, b) <= 0 && compare(b, c) <= 0 && compare(b, d) <= 0 && compare(d, d) <= 0
    requires compare(c, d) > 0 && compare(a, d) > 0
    ensures Sort([a, b, c, d, d, d, d], compare) == [d, d, d, d, a, b, c]
    ensures Sort([a, b, c, d], compare) == [a, b, d, c]
  {
    var left, right := [a, b, c], [d, d, d, d];
    ThreeInOrder(a, b, c, compare);
    FourEqual(d, compare);
    var s := [a, b, c, d, d, d, d];
    assert s[..3] == left && s[3..] == right;
    MergeFour(a, [b, c], d, compare);
    assert [a] + [b, c] == left;
    FourthPasses(a, b, c, d, compare);
  }

  lemma ThreeInOrder<T>(a: T, b: T, c: T, compare: (T, T) -> int)
    requires compare(a, b) <= 0 && compare(b, c) <= 0
    ensures InsertionSort([a, b, c], compare) == [a, b, c]
  {
    assert [a, b, c][..2] == [a, b] && [a, b][..1] == [a] && [a][..0] == [];
    assert InsertionSort([a], compare) == [a];
    assert InsertionSort([a, b], compare) == [a, b];
  }

  lemma FourEqual<T>(d: T, compare: (T, T) -> int)
    requires compare(d, d) <= 0
    ensures Sort([d, d, d, d], compare) == [d, d, d, d]
  {
    SortKeepsOrdered([d, d, d, d], compare);
  }

  lemma FourthPasses<T>(a: T, b: T, c: T, d: T, compare: (T, T) -> int)
    requires compare(a, b) <= 0 && compare(b, c) <= 0 && compare(b, d) <= 0 && compare(c, d) > 0
    ensures InsertionSort([a, b, c, d], compare) == [a, b, d, c]
  {
    ThreeInOrder(a, b, c, compare);
    assert [a, b, c, d][..3] == [a, b, c] && [a, b, c][..2] == [a, b];
    assert Insert(d, [a, b], compare) == [a, b, d];
  }

  lemma MergeFour<T>(a: T, rest: seq<T>, d: T, compare: (T, T) -> int)
    requires compare(a, d) > 0
    ensures Merge([a] + rest, [d, d, d, d], compare) == [d, d, d, d] + ([a] + rest)
  {
    var left := [a] + rest;
    MergeAllRight(left, [], compare);
    assert Merge(left, [], compare) == left;
    assert [d, d, d, d][1..] == [d, d, d] && [d, d, d][1..] == [d, d] && [d, d][1..] == [d] && [d][1..] == [];
    assert Merge(left, [d], compare) == [d] + left;
    assert Merge(left, [d, d], compare) == [d] + ([d] + left);
    assert Merge(left, [d, d, d], compare) == [d] + ([d] + ([d] + left));
  }

  lemma {:induction false} MergeAllRight<T>(left: seq<T>, right: seq<T>, compare: (T, T) -> int)
    requires right == []
    ensures Merge(left, right, compare) == left
  {
    if |left| != 0 {
      MergeAllRight(left[1..], right, compare);
    }
  }
}
