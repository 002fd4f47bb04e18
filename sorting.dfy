/** Python's `sorted()` on integer lists, specified by its result: the
    unique ascending permutation of the input. */
module Sorting {

  predicate IsSorted(s: seq<int>) {
    forall i, j :: 0 <= i < j < |s| ==> s[i] <= s[j]
  }

  function Insert(x: int, s: seq<int>): (r: seq<int>)
    requires IsSorted(s)
    ensures IsSorted(r)
    ensures multiset(r) == multiset(s) + multiset{x}
    ensures |r| == |s| + 1
  {
    if s == [] then [x]
    else if x <= s[0] then [x] + s
    else
      var t := Insert(x, s[1..]);
      assert s == [s[0]] + s[1..];
      forall k | 0 <= k < |t| ensures s[0] <= t[k] {
        InsertBound(x, s, t, k);
      }
      ConsSorted(s[0], t);
      [s[0]] + t
  }

  lemma ConsSorted(a: int, t: seq<int>)
    requires IsSorted(t) && forall k :: 0 <= k < |t| ==> a <= t[k]
    ensures IsSorted([a] + t)
  {
    forall i, j | 0 <= i < j < |[a] + t| ensures ([a] + t)[i] <= ([a] + t)[j] {
      assert ([a] + t)[j] == t[j - 1];
      if i > 0 {
        assert ([a] + t)[i] == t[i - 1];
      }
    }
  }

  /** Every element of `Insert(x, s[1..])` is at least `s[0]` when `x` is. */
  lemma InsertBound(x: int, s: seq<int>, t: seq<int>, k: int)
    requires IsSorted(s) && s != [] && s[0] < x
    requires multiset(t) == multiset(s[1..]) + multiset{x} && 0 <= k < |t|
    ensures s[0] <= t[k]
  {
    assert t[k] in multiset(t);
    if t[k] != x {
      assert t[k] in multiset(s[1..]);
      assert t[k] in s[1..];
    }
  }

  /** `sorted(s)`: an ascending permutation of `s`. */
  function Sort(s: seq<int>): (r: seq<int>)
    ensures IsSorted(r)
    ensures multiset(r) == multiset(s)
    ensures |r| == |s|
  {
    if s == [] then []
    else
      assert s == [s[0]] + s[1..];
      Insert(s[0], Sort(s[1..]))
  }

  lemma MinOfSorted(s: seq<int>)
    requires IsSorted(s) && s != []
    ensures forall x :: x in multiset(s) ==> s[0] <= x
  {
  }

  /** Two ascending lists with the same elements are the same list. */
  lemma {:induction false} SortedUnique(a: seq<int>, b: seq<int>)
    requires IsSorted(a) && IsSorted(b)
    requires multiset(a) == multiset(b)
    ensures a == b
  {
    if a == [] {
      assert |multiset(b)| == 0;
    } else {
      assert |b| == |multiset(b)| == |multiset(a)| == |a|;
      assert a[0] in multiset(b) && b[0] in multiset(a) by {
        assert a[0] in multiset(a);
        assert b[0] in multiset(b);
      }
      MinOfSorted(a);
      MinOfSorted(b);
      assert a[0] == b[0];
      assert a == [a[0]] + a[1..];
      assert b == [b[0]] + b[1..];
      calc {
        multiset(a[1..]);
        multiset(a) - multiset{a[0]};
        multiset(b) - multiset{b[0]};
        multiset(b[1..]);
      }
      SortedUnique(a[1..], b[1..]);
    }
  }

  /** The result of `sorted` depends only on the elements, not on their order. */
  lemma SortDependsOnlyOnElements(a: seq<int>, b: seq<int>)
    requires multiset(a) == multiset(b)
    ensures Sort(a) == Sort(b)
  {
    SortedUnique(Sort(a), Sort(b));
  }

  /** Sorting an already ascending list returns it unchanged. */
  lemma SortOfSorted(s: seq<int>)
    requires IsSorted(s)
    ensures Sort(s) == s
  {
    SortedUnique(Sort(s), s);
  }
}
