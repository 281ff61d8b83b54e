/**
 * Sequence helpers shared by the SQL queries and the Kotlin collection
 * calls of the model: a stable insertion sort by a total preorder (ORDER BY,
 * sortedBy), filtering (WHERE, filter), the first match of a search loop,
 * and the code-point (SQLite BINARY collation) order on strings.
 */
module Sorting {
  import opened Common

  /** `le` is total and transitive: a sort key comparison. */
  ghost predicate TotalPreorder<T(!new)>(le: (T, T) -> bool)
  {
    (forall a, b :: le(a, b) || le(b, a))
    && (forall a, b, c :: le(a, b) && le(b, c) ==> le(a, c))
  }

  predicate Sorted<T>(xs: seq<T>, le: (T, T) -> bool)
  {
    forall i, j :: 0 <= i < j < |xs| ==> le(xs[i], xs[j])
  }

  /**
   * Inserts `x` into sorted `xs` after every element that is not strictly
   * greater, so equal keys keep their arrival order.
   */
  function Insert<T>(x: T, xs: seq<T>, le: (T, T) -> bool): (r: seq<T>)
    ensures multiset(r) == multiset(xs) + multiset{x}
    ensures |r| == |xs| + 1
  {
    if |xs| == 0 then [x]
    else if le(xs[|xs| - 1], x) then xs + [x]
    else
      assert xs == xs[..|xs| - 1] + [xs[|xs| - 1]];
      Insert(x, xs[..|xs| - 1], le) + [xs[|xs| - 1]]
  }

  /** Appending an element no smaller than every element keeps a sequence sorted. */
  lemma SortedSnoc<T>(xs: seq<T>, y: T, le: (T, T) -> bool)
    requires Sorted(xs, le)
    requires forall i :: 0 <= i < |xs| ==> le(xs[i], y)
    ensures Sorted(xs + [y], le)
  {
    var r := xs + [y];
    forall i, j | 0 <= i < j < |r|
      ensures le(r[i], r[j])
    {
      if j < |xs| {
        assert r[i] == xs[i] && r[j] == xs[j];
      } else {
        assert r[i] == xs[i] && r[j] == y;
      }
    }
  }

  /** The last element of a sorted sequence bounds every element from above. */
  lemma SortedBelowLast<T>(xs: seq<T>, le: (T, T) -> bool, i: int)
    requires Sorted(xs, le) && 0 <= i < |xs| - 1
    ensures le(xs[i], xs[|xs| - 1])
  {
  }

  lemma {:induction false} InsertSorted<T(!new)>(x: T, xs: seq<T>, le: (T, T) -> bool)
    requires TotalPreorder(le) && Sorted(xs, le)
    ensures Sorted(Insert(x, xs, le), le)
  {
    if |xs| == 0 {
    } else if le(xs[|xs| - 1], x) {
      forall i | 0 <= i < |xs|
        ensures le(xs[i], x)
      {
        if i < |xs| - 1 {
          SortedBelowLast(xs, le, i);
        }
      }
      SortedSnoc(xs, x, le);
    } else {
      var init := xs[..|xs| - 1];
      var last := xs[|xs| - 1];
      assert Sorted(init, le);
      InsertSorted(x, init, le);
      var r := Insert(x, init, le);
      assert le(x, last);
      forall y | y in multiset(r)
        ensures le(y, last)
      {
        assert y in multiset(init) + multiset{x};
        if y in multiset(init) {
          var k :| 0 <= k < |init| && init[k] == y;
          SortedBelowLast(xs, le, k);
        }
      }
      forall i | 0 <= i < |r|
        ensures le(r[i], last)
      {
        assert r[i] in multiset(r);
      }
      SortedSnoc(r, last, le);
    }
  }

  /** Insertion sort: processes the input front to back. */
  function SortBy<T>(xs: seq<T>, le: (T, T) -> bool): (r: seq<T>)
    ensures multiset(r) == multiset(xs)
    ensures |r| == |xs|
  {
    if |xs| == 0 then []
    else
      assert xs == xs[..|xs| - 1] + [xs[|xs| - 1]];
      Insert(xs[|xs| - 1], SortBy(xs[..|xs| - 1], le), le)
  }

  /** The result is ordered and is a permutation of the input. */
  lemma {:induction false} SortBySorted<T(!new)>(xs: seq<T>, le: (T, T) -> bool)
    requires TotalPreorder(le)
    ensures Sorted(SortBy(xs, le), le)
    ensures multiset(SortBy(xs, le)) == multiset(xs)
  {
    if |xs| > 0 {
      SortBySorted(xs[..|xs| - 1], le);
      InsertSorted(xs[|xs| - 1], SortBy(xs[..|xs| - 1], le), le);
    }
  }

  /** The elements that satisfy `p`, in their original order. */
  function Filter<T>(xs: seq<T>, p: T -> bool): (r: seq<T>)
    ensures forall i :: 0 <= i < |r| ==> r[i] in xs && p(r[i])
    ensures forall i :: 0 <= i < |xs| && p(xs[i]) ==> xs[i] in r
    ensures |r| <= |xs|
  {
    if |xs| == 0 then []
    else (if p(xs[0]) then [xs[0]] else []) + Filter(xs[1..], p)
  }

  /** A loop with `break` on the first match: the index of the first element satisfying `p`. */
  function FirstIndex<T>(xs: seq<T>, p: T -> bool): (r: Option<nat>)
    ensures r.Some? ==> r.value < |xs| && p(xs[r.value])
    ensures r.Some? ==> forall j :: 0 <= j < r.value ==> !p(xs[j])
    ensures r.None? ==> forall j :: 0 <= j < |xs| ==> !p(xs[j])
  {
    if |xs| == 0 then None
    else if p(xs[0]) then Some(0)
    else
      var k := FirstIndex(xs[1..], p);
      if k.None? then None else Some(k.value + 1)
  }

  /** The first match is at `i` when `i` matches and nothing before it does. */
  lemma FirstIndexIs<T>(xs: seq<T>, p: T -> bool, i: nat)
    requires i < |xs| && p(xs[i])
    requires forall j :: 0 <= j < i ==> !p(xs[j])
    ensures FirstIndex(xs, p) == Some(i)
  {
  }

  /** There is no match when no element matches. */
  lemma FirstIndexNone<T>(xs: seq<T>, p: T -> bool)
    requires forall j :: 0 <= j < |xs| ==> !p(xs[j])
    ensures FirstIndex(xs, p) == None
  {
  }

  lemma {:induction false} FilterAppend<T>(xs: seq<T>, ys: seq<T>, p: T -> bool)
    ensures Filter(xs + ys, p) == Filter(xs, p) + Filter(ys, p)
  {
    if |xs| == 0 {
      assert xs + ys == ys;
    } else {
      assert (xs + ys)[0] == xs[0];
      assert (xs + ys)[1..] == xs[1..] + ys;
      FilterAppend(xs[1..], ys, p);
    }
  }

  /** Elements whose key compares equal to `k`'s both ways. */
  function SameKey<T>(le: (T, T) -> bool, k: T): T -> bool
  {
    y => le(y, k) && le(k, y)
  }

  /** Any two elements of `s` with `k`'s key compare as no greater than each other. */
  predicate ClassOrderedOn<T>(s: seq<T>, le: (T, T) -> bool, k: T)
  {
    forall i, j :: 0 <= i < |s| && 0 <= j < |s| && SameKey(le, k)(s[i]) && SameKey(le, k)(s[j]) ==> le(s[i], s[j])
  }

  lemma ClassOrderedOnOf<T(!new)>(s: seq<T>, le: (T, T) -> bool, k: T)
    requires TotalPreorder(le)
    ensures ClassOrderedOn(s, le, k)
  {
  }

  /** The property carries over to a sequence drawn from the same elements. */
  lemma ClassOrderedOnSub<T>(a: seq<T>, b: seq<T>, le: (T, T) -> bool, k: T)
    requires ClassOrderedOn(a, le, k)
    requires forall y :: y in b ==> y in a
    ensures ClassOrderedOn(b, le, k)
  {
    forall i, j | 0 <= i < |b| && 0 <= j < |b| && SameKey(le, k)(b[i]) && SameKey(le, k)(b[j])
      ensures le(b[i], b[j])
    {
      assert b[i] in b && b[j] in b;
      var p :| 0 <= p < |a| && a[p] == b[i];
      var q :| 0 <= q < |a| && a[q] == b[j];
    }
  }

  /** Inserting puts `x` after every element with the same key. */
  lemma {:induction false} InsertStable<T>(x: T, xs: seq<T>, le: (T, T) -> bool, k: T)
    requires ClassOrderedOn(xs + [x], le, k)
    ensures Filter(Insert(x, xs, le), SameKey(le, k))
         == Filter(xs, SameKey(le, k)) + Filter([x], SameKey(le, k))
  {
    var eq := SameKey(le, k);
    if |xs| > 0 {
      var init := xs[..|xs| - 1];
      var last := xs[|xs| - 1];
      assert xs == init + [last];
      if le(last, x) {
        assert Insert(x, xs, le) == xs + [x];
        FilterAppend(xs, [x], eq);
      } else {
        assert Insert(x, xs, le) == Insert(x, init, le) + [last];
        ClassOrderedOnSub(xs + [x], init + [x], le, k);
        InsertStable(x, init, le, k);
        FilterAppend(Insert(x, init, le), [last], eq);
        FilterAppend(init, [last], eq);
        if eq(x) {
          assert (xs + [x])[|xs| - 1] == last && (xs + [x])[|xs|] == x;
          assert !eq(last);
          assert Filter([last], eq) == [];
        } else {
          assert Filter([x], eq) == [];
        }
      }
    }
  }

  lemma {:induction false} SortByStableOn<T>(xs: seq<T>, le: (T, T) -> bool, k: T)
    requires ClassOrderedOn(xs, le, k)
    ensures Filter(SortBy(xs, le), SameKey(le, k)) == Filter(xs, SameKey(le, k))
  {
    if |xs| > 0 {
      var init, last, eq := xs[..|xs| - 1], xs[|xs| - 1], SameKey(le, k);
      var sorted := SortBy(init, le);
      assert SortBy(xs, le) == Insert(last, sorted, le);
      assert xs == init + [last];
      ClassOrderedOnSub(xs, init, le, k);
      SortByStableOn(init, le, k);
      forall y | y in sorted + [last]
        ensures y in xs
      {
        assert y in multiset(sorted + [last]);
        assert multiset(sorted + [last]) == multiset(xs);
      }
      ClassOrderedOnSub(xs, sorted + [last], le, k);
      InsertStable(last, sorted, le, k);
      FilterAppend(init, [last], eq);
    }
  }

  /**
   * Stability: the elements with any one key appear in the sorted result in
   * the order they had in the input.
   */
  lemma SortByStable<T(!new)>(xs: seq<T>, le: (T, T) -> bool, k: T)
    requires TotalPreorder(le)
    ensures Filter(SortBy(xs, le), SameKey(le, k)) == Filter(xs, SameKey(le, k))
  {
    ClassOrderedOnOf(xs, le, k);
    SortByStableOn(xs, le, k);
  }

  // ---------------------------------------------------------------------
  // Strings in code-point order
  // ---------------------------------------------------------------------

  /** `a` sorts no later than `b` comparing characters by code point, a proper prefix first. */
  predicate StrLe(a: string, b: string)
    decreases |a|
  {
    |a| == 0 || (|b| > 0 && (a[0] < b[0] || (a[0] == b[0] && StrLe(a[1..], b[1..]))))
  }

  lemma {:induction false} StrLeTotal(a: string, b: string)
    ensures StrLe(a, b) || StrLe(b, a)
    decreases |a|
  {
    if |a| > 0 && |b| > 0 && a[0] == b[0] {
      StrLeTotal(a[1..], b[1..]);
    }
  }

  lemma {:induction false} StrLeTrans(a: string, b: string, c: string)
    requires StrLe(a, b) && StrLe(b, c)
    ensures StrLe(a, c)
    decreases |a|
  {
    if |a| > 0 && a[0] == b[0] && b[0] == c[0] {
      StrLeTrans(a[1..], b[1..], c[1..]);
    }
  }

  /** Equal strings compare both ways; two strings that compare both ways are equal. */
  lemma {:induction false} StrLeAntisymmetric(a: string, b: string)
    requires StrLe(a, b) && StrLe(b, a)
    ensures a == b
    decreases |a|
  {
    if |a| > 0 {
      StrLeAntisymmetric(a[1..], b[1..]);
      assert a == [a[0]] + a[1..] && b == [b[0]] + b[1..];
    }
  }
}
