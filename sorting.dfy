/** `sortTodoItems`: the list is sorted with the `Less` comparator. Swift's
    `sort` is a library routine whose result is only a permutation when the
    comparator is not a strict weak ordering; the model fixes one concrete
    algorithm, an insertion sort that, like the insertion pass Swift uses on
    short runs, moves each new element left while it is `Less` than its
    predecessor. */
module Sorting {
  import opened Wrappers
  import opened TodoItems

  /** Every item has a due date. */
  ghost predicate AllDated(s: seq<TodoItem>) {
    forall i :: 0 <= i < |s| ==> s[i].dueDate.Some?
  }

  /** Every item has a due date and the due dates do not decrease. */
  ghost predicate Ordered(s: seq<TodoItem>) {
    AllDated(s) &&
    forall i, j :: 0 <= i < j < |s| ==> s[i].dueDate.value <= s[j].dueDate.value
  }

  /** No item is `Less` than the item just before it. */
  ghost predicate NoDescent(s: seq<TodoItem>) {
    forall i :: 0 < i < |s| ==> !Less(s[i], s[i - 1])
  }

  function Last(s: seq<TodoItem>): TodoItem
    requires s != []
  {
    s[|s| - 1]
  }

  /** Insert `x` behind `sorted`, moving it left while it is `Less` than the
      item just before it; it stops at the first item it is not `Less` than. */
  function InsertFromBack(sorted: seq<TodoItem>, x: TodoItem): (r: seq<TodoItem>)
    ensures |r| == |sorted| + 1 && x in r
    decreases |sorted|
  {
    if sorted == [] then [x]
    else if Less(x, Last(sorted)) then InsertFromBack(sorted[..|sorted| - 1], x) + [Last(sorted)]
    else sorted + [x]
  }

  /** The list after `sortTodoItems`: each item, from the first to the last,
      is inserted into the already sorted prefix. */
  function SortByDate(s: seq<TodoItem>): (r: seq<TodoItem>)
    ensures |r| == |s|
    decreases |s|
  {
    if s == [] then [] else InsertFromBack(SortByDate(s[..|s| - 1]), Last(s))
  }

  lemma {:induction false} InsertPermutation(sorted: seq<TodoItem>, x: TodoItem)
    ensures multiset(InsertFromBack(sorted, x)) == multiset(sorted) + multiset{x}
    ensures |InsertFromBack(sorted, x)| == |sorted| + 1
    decreases |sorted|
  {
    if sorted != [] && Less(x, Last(sorted)) {
      var init := sorted[..|sorted| - 1];
      InsertPermutation(init, x);
      assert sorted == init + [Last(sorted)];
    }
  }

  /** After sorting, the list holds the same items, each as often as before. */
  lemma {:induction false} SortPermutation(s: seq<TodoItem>)
    ensures multiset(SortByDate(s)) == multiset(s)
    ensures |SortByDate(s)| == |s|
    decreases |s|
  {
    if s != [] {
      var init := s[..|s| - 1];
      SortPermutation(init);
      InsertPermutation(SortByDate(init), Last(s));
      assert s == init + [Last(s)];
    }
  }

  /** The last item after an insertion is the inserted one or the old last one. */
  lemma {:induction false} InsertLast(sorted: seq<TodoItem>, x: TodoItem)
    ensures InsertFromBack(sorted, x) != []
    ensures Last(InsertFromBack(sorted, x)) == x ||
            (sorted != [] && Last(InsertFromBack(sorted, x)) == Last(sorted))
  {
  }

  lemma {:induction false} InsertNoDescent(sorted: seq<TodoItem>, x: TodoItem)
    requires NoDescent(sorted)
    ensures NoDescent(InsertFromBack(sorted, x))
    decreases |sorted|
  {
    if sorted != [] && Less(x, Last(sorted)) {
      var init := sorted[..|sorted| - 1];
      var r := InsertFromBack(init, x);
      InsertNoDescent(init, x);
      InsertLast(init, x);
      assert !Less(Last(sorted), Last(r));
      var r' := r + [Last(sorted)];
      forall i | 0 < i < |r'| ensures !Less(r'[i], r'[i - 1]) {
        if i < |r| {
          assert r'[i] == r[i] && r'[i - 1] == r[i - 1];
        }
      }
    }
  }

  /** The sort never leaves an item directly behind one it is `Less` than. */
  lemma {:induction false} SortNoDescent(s: seq<TodoItem>)
    ensures NoDescent(SortByDate(s))
    decreases |s|
  {
    if s != [] {
      SortNoDescent(s[..|s| - 1]);
      InsertNoDescent(SortByDate(s[..|s| - 1]), Last(s));
    }
  }

  /** A list in which no item is `Less` than its predecessor is left as it is. */
  lemma {:induction false} SortKeepsNoDescent(s: seq<TodoItem>)
    requires NoDescent(s)
    ensures SortByDate(s) == s
    decreases |s|
  {
    if s != [] {
      var init := s[..|s| - 1];
      assert NoDescent(init) by {
        forall i | 0 < i < |init| ensures !Less(init[i], init[i - 1]) {
          assert init[i] == s[i] && init[i - 1] == s[i - 1];
        }
      }
      SortKeepsNoDescent(init);
      if init != [] {
        assert Last(init) == s[|s| - 2];
      }
      assert s == init + [Last(s)];
    }
  }

  /** Sorting twice gives the same list as sorting once. */
  lemma SortIdempotent(s: seq<TodoItem>)
    ensures SortByDate(SortByDate(s)) == SortByDate(s)
  {
    SortNoDescent(s);
    SortKeepsNoDescent(SortByDate(s));
  }

  /** On dated items, "no descent" is the same as ascending order. */
  lemma {:induction false} DatedNoDescentIsOrdered(s: seq<TodoItem>)
    requires AllDated(s)
    ensures NoDescent(s) <==> Ordered(s)
  {
    if NoDescent(s) {
      forall i, j | 0 <= i < j < |s| ensures s[i].dueDate.value <= s[j].dueDate.value {
        var k := i;
        while k < j
          invariant i <= k <= j
          invariant s[i].dueDate.value <= s[k].dueDate.value
        {
          assert !Less(s[k + 1], s[k]);
          k := k + 1;
        }
      }
    }
    if Ordered(s) {
      forall i | 0 < i < |s| ensures !Less(s[i], s[i - 1]) {
        assert s[i - 1].dueDate.value <= s[i].dueDate.value;
      }
    }
  }

  lemma SortKeepsAllDated(s: seq<TodoItem>)
    requires AllDated(s)
    ensures AllDated(SortByDate(s))
  {
    var r := SortByDate(s);
    SortPermutation(s);
    forall i | 0 <= i < |r| ensures r[i].dueDate.Some? {
      assert r[i] in multiset(r);
      var j :| 0 <= j < |s| && s[j] == r[i];
    }
  }

  /** When every item has a due date, the sorted list is in ascending order. */
  lemma SortOrdersDated(s: seq<TodoItem>)
    requires AllDated(s)
    ensures Ordered(SortByDate(s))
  {
    SortKeepsAllDated(s);
    SortNoDescent(s);
    DatedNoDescentIsOrdered(SortByDate(s));
  }

  /** Sorting a list that is already in ascending order changes nothing. */
  lemma SortKeepsOrdered(s: seq<TodoItem>)
    requires Ordered(s)
    ensures SortByDate(s) == s
  {
    DatedNoDescentIsOrdered(s);
    SortKeepsNoDescent(s);
  }

  /** With an undated item between them, two dated items can stay in
      descending order: the sort promises ascending order only when every
      item is dated. */
  lemma UndatedItemBlocksOrdering()
    ensures var late, undated, early := TodoItem("late", Some(2)), TodoItem("undated", None), TodoItem("early", Some(1));
            SortByDate([late, undated, early]) == [late, undated, early]
  {
    var late, undated, early := TodoItem("late", Some(2)), TodoItem("undated", None), TodoItem("early", Some(1));
    var s := [late, undated, early];
    assert NoDescent(s) by {
      forall i | 0 < i < |s| ensures !Less(s[i], s[i - 1]) {
        assert s[i].dueDate.None? || s[i - 1].dueDate.None?;
      }
    }
    SortKeepsNoDescent(s);
  }
}
