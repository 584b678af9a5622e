/** A stable insertion sort over any total preorder, used where the modelled code sorts:
    ray hits by distance, table rows by the selected column, leaderboard entries by score. */
module Sorting {

  /** `le` relates every two values and chains: the comparators the sorts are given. */
  ghost predicate TotalPreorder<T(!new)>(le: (T, T) -> bool) {
    (forall a, b :: le(a, b) || le(b, a)) &&
    (forall a, b, c :: le(a, b) && le(b, c) ==> le(a, c))
  }

  /** `le` is a total preorder on the values in `dom`: the weaker demand for sorting values
      from `dom` when the comparator is only well-behaved there. */
  ghost predicate TotalPreorderOn<T>(dom: set<T>, le: (T, T) -> bool) {
    (forall a, b :: a in dom && b in dom ==> le(a, b) || le(b, a)) &&
    (forall a, b, c :: a in dom && b in dom && c in dom && le(a, b) && le(b, c) ==> le(a, c))
  }

  /** Every element is `le` every later element. */
  ghost predicate SortedBy<T>(s: seq<T>, le: (T, T) -> bool) {
    forall i, j :: 0 <= i < j < |s| ==> le(s[i], s[j])
  }

  /** Places `x` before the first element it is `le`; elements equal to `x` stay after it. */
  function Insert<T>(x: T, s: seq<T>, le: (T, T) -> bool): (r: seq<T>)
    ensures multiset(r) == multiset(s) + multiset{x}
    decreases |s|
  {
    if s == [] then [x]
    else if le(x, s[0]) then [x] + s
    else
      assert s == [s[0]] + s[1..];
      [s[0]] + Insert(x, s[1..], le)
  }

  /** Sorts `s` by inserting its head into the sorted rest. */
  function InsertionSort<T>(s: seq<T>, le: (T, T) -> bool): (r: seq<T>)
    ensures multiset(r) == multiset(s)
    decreases |s|
  {
    if s == [] then []
    else
      assert s == [s[0]] + s[1..];
      Insert(s[0], InsertionSort(s[1..], le), le)
  }

  lemma {:induction false} InsertSorted<T>(x: T, s: seq<T>, le: (T, T) -> bool, dom: set<T>)
    requires TotalPreorderOn(dom, le) && x in dom && forall e :: e in s ==> e in dom
    requires SortedBy(s, le)
    ensures SortedBy(Insert(x, s, le), le)
    decreases |s|
  {
    if s != [] && !le(x, s[0]) {
      var rest := Insert(x, s[1..], le);
      assert forall e :: e in s[1..] ==> e in s;
      InsertSorted(x, s[1..], le, dom);
      assert s[0] in s;
      assert le(s[0], x);
      forall y | y in rest
        ensures le(s[0], y)
      {
        assert y in multiset(rest);
        if y != x {
          assert y in multiset(s[1..]);
          assert y in s[1..];
        }
      }
      ConsSorted(s[0], rest, le);
    }
  }

  /** A head `le` every element of a sorted tail gives a sorted sequence. */
  lemma ConsSorted<T>(h: T, rest: seq<T>, le: (T, T) -> bool)
    requires SortedBy(rest, le)
    requires forall y :: y in rest ==> le(h, y)
    ensures SortedBy([h] + rest, le)
  {
    var t := [h] + rest;
    forall i, j | 0 <= i < j < |t|
      ensures le(t[i], t[j])
    {
      assert t[j] == rest[j - 1];
      if i == 0 {
        assert t[j] in rest;
      } else {
        assert t[i] == rest[i - 1];
      }
    }
  }

  /** The sort's result is ordered; it is a permutation of its input by its own contract. */
  lemma InsertionSortSorted<T(!new)>(s: seq<T>, le: (T, T) -> bool)
    requires TotalPreorder(le)
    ensures SortedBy(InsertionSort(s, le), le)
  {
    InsertionSortSortedOn(s, le, set e | e in s);
  }

  /** The same for a comparator that is a total preorder only on the values being sorted. */
  lemma {:induction false} InsertionSortSortedOn<T>(s: seq<T>, le: (T, T) -> bool, dom: set<T>)
    requires TotalPreorderOn(dom, le) && forall e :: e in s ==> e in dom
    ensures SortedBy(InsertionSort(s, le), le)
    decreases |s|
  {
    if s != [] {
      assert forall e :: e in s[1..] ==> e in s;
      InsertionSortSortedOn(s[1..], le, dom);
      var t := InsertionSort(s[1..], le);
      forall e | e in t
        ensures e in dom
      {
        assert e in multiset(t);
        assert e in s[1..];
      }
      InsertSorted(s[0], t, le, dom);
    }
  }

  /** Sequences with equal multisets have the same members. */
  lemma SameMembers<T>(a: seq<T>, b: seq<T>)
    requires multiset(a) == multiset(b)
    ensures forall e :: e in a <==> e in b
  {
    forall e
      ensures e in a <==> e in b
    {
      assert e in a <==> e in multiset(a);
      assert e in b <==> e in multiset(b);
    }
  }
}
