/** A stable insertion sort driven by a JavaScript-style comparator
    (negative: first argument first; positive: second argument first).
    ECMAScript does not fix the algorithm behind `Array.prototype.sort`;
    this is the classic insertion sort that, for each new element, asks
    `cmp(earlier, new)` and moves the new element left while the answer is
    positive. */
module Sorting {

  /** Inserts `x` into `t`, scanning from the right. */
  function Insert<T>(cmp: (T, T) -> int, t: seq<T>, x: T): (r: seq<T>)
    ensures |r| == |t| + 1
    ensures multiset(r) == multiset(t) + multiset{x}
    decreases |t|
  {
    if |t| == 0 then [x]
    else if cmp(t[|t| - 1], x) <= 0 then t + [x]
    else
      assert t == t[..|t| - 1] + [t[|t| - 1]];
      Insert(cmp, t[..|t| - 1], x) + [t[|t| - 1]]
  }

  /** Sorts `s`, inserting its elements left to right. */
  function InsertionSort<T>(cmp: (T, T) -> int, s: seq<T>): (r: seq<T>)
    ensures |r| == |s|
    ensures multiset(r) == multiset(s)
    decreases |s|
  {
    if |s| == 0 then []
    else
      assert s == s[..|s| - 1] + [s[|s| - 1]];
      Insert(cmp, InsertionSort(cmp, s[..|s| - 1]), s[|s| - 1])
  }

  /** Every element compares `<= 0` against every later one. */
  ghost predicate SortedBy<T>(cmp: (T, T) -> int, s: seq<T>) {
    forall i, j :: 0 <= i < j < |s| ==> cmp(s[i], s[j]) <= 0
  }

  /** On the values satisfying `ok`, the relation `cmp(a, b) <= 0` is total
      and transitive. */
  ghost predicate TotalPreorderOn<T(!new)>(cmp: (T, T) -> int, ok: T -> bool) {
    && (forall a, b :: ok(a) && ok(b) ==> cmp(a, b) <= 0 || cmp(b, a) <= 0)
    && (forall a, b, c :: ok(a) && ok(b) && ok(c) && cmp(a, b) <= 0 && cmp(b, c) <= 0 ==> cmp(a, c) <= 0)
  }

  ghost predicate AllOk<T>(ok: T -> bool, s: seq<T>) {
    forall x :: x in s ==> ok(x)
  }

  /** The new element belongs after the last one: appending it keeps the
      order. */
  lemma AppendKeepsSorted<T(!new)>(cmp: (T, T) -> int, ok: T -> bool, t: seq<T>, x: T)
    requires TotalPreorderOn(cmp, ok)
    requires AllOk(ok, t) && ok(x)
    requires SortedBy(cmp, t)
    requires |t| > 0 && cmp(t[|t| - 1], x) <= 0
    ensures SortedBy(cmp, t + [x])
  {
    var last := t[|t| - 1];
    var r := t + [x];
    forall i, j | 0 <= i < j < |r| ensures cmp(r[i], r[j]) <= 0 {
      if j == |t| && i < |t| - 1 {
        assert r[i] == t[i] && r[j] == x;
        assert ok(t[i]) && ok(last);
        assert cmp(t[i], last) <= 0;
      }
    }
  }

  /** The new element belongs before the last one: inserting it into the
      front and putting the last element back at the end keeps the order. */
  lemma ShiftKeepsSorted<T(!new)>(cmp: (T, T) -> int, ok: T -> bool, front: seq<T>, last: T, x: T)
    requires TotalPreorderOn(cmp, ok)
    requires ok(last) && ok(x)
    requires forall k :: 0 <= k < |front| ==> cmp(front[k], last) <= 0
    requires cmp(last, x) > 0
    requires SortedBy(cmp, Insert(cmp, front, x))
    ensures SortedBy(cmp, Insert(cmp, front, x) + [last])
  {
    var ins := Insert(cmp, front, x);
    assert cmp(x, last) <= 0;
    forall k | 0 <= k < |ins| ensures cmp(ins[k], last) <= 0 {
      var y := ins[k];
      assert y in multiset(ins);
      if y != x {
        assert y in multiset(front);
        var m :| 0 <= m < |front| && front[m] == y;
      }
    }
    AppendAfterAll(cmp, ins, last);
  }

  /** Appending an element that every element precedes keeps the order. */
  lemma AppendAfterAll<T>(cmp: (T, T) -> int, s: seq<T>, y: T)
    requires SortedBy(cmp, s)
    requires forall k :: 0 <= k < |s| ==> cmp(s[k], y) <= 0
    ensures SortedBy(cmp, s + [y])
  {
    var r := s + [y];
    forall i, j | 0 <= i < j < |r| ensures cmp(r[i], r[j]) <= 0 {
      assert r[i] == s[i];
      if j < |s| {
        assert r[j] == s[j];
      }
    }
  }

  lemma {:induction false} InsertKeepsSorted<T(!new)>(cmp: (T, T) -> int, ok: T -> bool, t: seq<T>, x: T)
    requires TotalPreorderOn(cmp, ok)
    requires AllOk(ok, t) && ok(x)
    requires SortedBy(cmp, t)
    ensures SortedBy(cmp, Insert(cmp, t, x))
    decreases |t|
  {
    if |t| > 0 {
      var last := t[|t| - 1];
      if cmp(last, x) <= 0 {
        AppendKeepsSorted(cmp, ok, t, x);
      } else {
        var front := t[..|t| - 1];
        assert AllOk(ok, front) by {
          forall y | y in front ensures ok(y) {
            assert y in t;
          }
        }
        InsertKeepsSorted(cmp, ok, front, x);
        assert ok(last);
        ShiftKeepsSorted(cmp, ok, front, last, x);
      }
    }
  }

  /** On input whose values all satisfy `ok`, a total preorder, the sort
      returns a sorted sequence. */
  lemma {:induction false} InsertionSortSorted<T(!new)>(cmp: (T, T) -> int, ok: T -> bool, s: seq<T>)
    requires TotalPreorderOn(cmp, ok)
    requires AllOk(ok, s)
    ensures SortedBy(cmp, InsertionSort(cmp, s))
    decreases |s|
  {
    if |s| > 0 {
      var front := s[..|s| - 1];
      assert AllOk(ok, front) by {
        forall y | y in front ensures ok(y) {
          assert y in s;
        }
      }
      InsertionSortSorted(cmp, ok, front);
      var sorted := InsertionSort(cmp, front);
      assert AllOk(ok, sorted) by {
        forall y | y in sorted ensures ok(y) {
          assert y in multiset(sorted);
          assert y in multiset(front);
        }
      }
      InsertKeepsSorted(cmp, ok, sorted, s[|s| - 1]);
    }
  }

  /** Sorting an already sorted sequence changes nothing. */
  lemma {:induction false} InsertionSortOfSorted<T>(cmp: (T, T) -> int, s: seq<T>)
    requires SortedBy(cmp, s)
    ensures InsertionSort(cmp, s) == s
    decreases |s|
  {
    if |s| > 0 {
      var front := s[..|s| - 1];
      SortedPrefix(cmp, s);
      InsertionSortOfSorted(cmp, front);
      SortedStep(cmp, s, front);
    }
  }

  lemma SortedPrefix<T>(cmp: (T, T) -> int, s: seq<T>)
    requires |s| > 0 && SortedBy(cmp, s)
    ensures SortedBy(cmp, s[..|s| - 1])
  {
    var front := s[..|s| - 1];
    forall i, j | 0 <= i < j < |front| ensures cmp(front[i], front[j]) <= 0 {
      assert front[i] == s[i] && front[j] == s[j];
    }
  }

  lemma SortedStep<T>(cmp: (T, T) -> int, s: seq<T>, front: seq<T>)
    requires |s| > 0 && front == s[..|s| - 1]
    requires SortedBy(cmp, s)
    requires InsertionSort(cmp, front) == front
    ensures InsertionSort(cmp, s) == s
  {
    var last := s[|s| - 1];
    InsertionSortStep(cmp, s);
    SplitLast(s);
    if |front| > 0 {
      LastPairSorted(cmp, s, front);
      InsertStaysLast(cmp, front, last);
    }
  }

  lemma SplitLast<T>(s: seq<T>)
    requires |s| > 0
    ensures s[..|s| - 1] + [s[|s| - 1]] == s
  {
  }

  lemma LastPairSorted<T>(cmp: (T, T) -> int, s: seq<T>, front: seq<T>)
    requires |s| > 1 && front == s[..|s| - 1]
    requires SortedBy(cmp, s)
    ensures cmp(front[|front| - 1], s[|s| - 1]) <= 0
  {
    assert front[|front| - 1] == s[|s| - 2];
  }

  /** The sort consults the comparator only through the test `<= 0`, so two
      comparators that agree on that test over the input sort it alike. */
  lemma {:induction false} InsertAgrees<T>(cmp1: (T, T) -> int, cmp2: (T, T) -> int, t: seq<T>, x: T)
    requires forall a :: a in t ==> (cmp1(a, x) <= 0 <==> cmp2(a, x) <= 0)
    ensures Insert(cmp1, t, x) == Insert(cmp2, t, x)
    decreases |t|
  {
    if |t| > 0 {
      assert t[|t| - 1] in t;
      InsertAgrees(cmp1, cmp2, t[..|t| - 1], x);
    }
  }

  lemma {:induction false} InsertionSortAgrees<T>(cmp1: (T, T) -> int, cmp2: (T, T) -> int, s: seq<T>)
    requires forall a, b :: a in s && b in s ==> (cmp1(a, b) <= 0 <==> cmp2(a, b) <= 0)
    ensures InsertionSort(cmp1, s) == InsertionSort(cmp2, s)
    decreases |s|
  {
    if |s| > 0 {
      var front := s[..|s| - 1];
      InsertionSortAgrees(cmp1, cmp2, front);
      var sorted := InsertionSort(cmp1, front);
      forall a | a in sorted ensures cmp1(a, s[|s| - 1]) <= 0 <==> cmp2(a, s[|s| - 1]) <= 0 {
        assert a in multiset(sorted);
        assert a in multiset(front);
        assert a in s;
      }
      InsertAgrees(cmp1, cmp2, sorted, s[|s| - 1]);
    }
  }

  // ---- single steps, for tracing the sort on small inputs ----

  lemma InsertStaysLast<T>(cmp: (T, T) -> int, t: seq<T>, x: T)
    requires |t| > 0 && cmp(t[|t| - 1], x) <= 0
    ensures Insert(cmp, t, x) == t + [x]
  {
  }

  lemma InsertMovesLeft<T>(cmp: (T, T) -> int, t: seq<T>, x: T)
    requires |t| > 0 && cmp(t[|t| - 1], x) > 0
    ensures Insert(cmp, t, x) == Insert(cmp, t[..|t| - 1], x) + [t[|t| - 1]]
  {
  }

  lemma InsertionSortStep<T>(cmp: (T, T) -> int, s: seq<T>)
    requires |s| > 0
    ensures InsertionSort(cmp, s) == Insert(cmp, InsertionSort(cmp, s[..|s| - 1]), s[|s| - 1])
  {
  }
}
