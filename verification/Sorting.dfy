/**
 The contract of the C library's `qsort`, with a sort that meets it: a consistent comparison
 function in, a sorted permutation out, in place. When the comparison tells distinct elements
 apart, that permutation is unique.
 */
module Sorting {
  import Samples

  /** The total order section 7.22.5 of ISO C11 asks of a comparison function. */
  ghost predicate Consistent<T(!new)>(cmp: (T, T) -> int) {
    && (forall a, b :: cmp(a, b) < 0 <==> cmp(b, a) > 0)
    && (forall a, b, c :: cmp(a, b) <= 0 && cmp(b, c) <= 0 ==> cmp(a, c) <= 0)
  }

  /** Only equal elements compare equal. */
  ghost predicate Separates<T(!new)>(cmp: (T, T) -> int) {
    forall a, b :: cmp(a, b) == 0 ==> a == b
  }

  ghost predicate SortedBy<T>(s: seq<T>, cmp: (T, T) -> int) {
    forall i, j :: 0 <= i < j < |s| ==> cmp(s[i], s[j]) <= 0
  }

  ghost predicate SortedPermutation<T>(s: seq<T>, original: seq<T>, cmp: (T, T) -> int) {
    SortedBy(s, cmp) && multiset(s) == multiset(original)
  }

  method Swap<T>(a: array<T>, i: nat, j: nat)
    requires i < a.Length && j < a.Length
    modifies a
    ensures a[..] == old(a[..])[i := old(a[j])][j := old(a[i])]
    ensures multiset(a[..]) == multiset(old(a[..]))
  {
    a[i], a[j] := a[j], a[i];
  }

  method IndexOfLeast<T(!new)>(a: array<T>, i: nat, cmp: (T, T) -> int) returns (m: nat)
    requires i < a.Length && Consistent(cmp)
    ensures i <= m < a.Length
    ensures forall q :: i <= q < a.Length ==> cmp(a[m], a[q]) <= 0
  {
    m := i;
    for j := i to a.Length
      invariant i <= m < a.Length
      invariant forall q :: i <= q < j ==> cmp(a[m], a[q]) <= 0
    {
      if cmp(a[j], a[m]) <= 0 { m := j; }
    }
  }

  method Qsort<T(!new)>(a: array<T>, cmp: (T, T) -> int)
    requires Consistent(cmp)
    modifies a
    ensures SortedPermutation(a[..], old(a[..]), cmp)
  {
    hide Consistent;
    for i := 0 to a.Length
      invariant SortedUpTo(a[..], i, cmp)
      invariant multiset(a[..]) == multiset(old(a[..]))
    {
      var m := IndexOfLeast(a, i, cmp);
      ghost var before := a[..];
      Swap(a, i, m);
      SelectNext(before, a[..], i, m, cmp);
    }
  }

  /** The first `n` elements are sorted and no later one belongs before them. */
  ghost predicate SortedUpTo<T>(s: seq<T>, n: nat, cmp: (T, T) -> int) {
    forall i, j :: 0 <= i < j < |s| && i < n ==> cmp(s[i], s[j]) <= 0
  }

  lemma SelectNext<T>(s: seq<T>, t: seq<T>, i: nat, m: nat, cmp: (T, T) -> int)
    requires i <= m < |s| && SortedUpTo(s, i, cmp) && t == s[i := s[m]][m := s[i]]
    requires forall q :: i <= q < |s| ==> cmp(s[m], s[q]) <= 0
    ensures SortedUpTo(t, i + 1, cmp)
  {
  }

  /** There is one way to sort: any two sorted permutations agree element by element. */
  lemma {:induction false} SortedUnique<T(!new)>(s: seq<T>, t: seq<T>, cmp: (T, T) -> int)
    requires Consistent(cmp) && Separates(cmp)
    requires SortedBy(s, cmp) && SortedBy(t, cmp) && multiset(s) == multiset(t)
    ensures s == t
  {
    hide *;
    Samples.SameLength(s, t);
    if s == [] {
    } else {
      var n := |s| - 1;
      SameLast(s, t, cmp);
      assert multiset(s[..n]) == multiset(t[..n]) by { WithoutLast(s); WithoutLast(t); }
      SortedInit(s, cmp);
      SortedInit(t, cmp);
      SortedUnique(s[..n], t[..n], cmp);
      assert s == s[..n] + [s[n]] && t == t[..n] + [t[n]];
    }
  }

  lemma SameLast<T(!new)>(s: seq<T>, t: seq<T>, cmp: (T, T) -> int)
    requires Consistent(cmp) && Separates(cmp) && s != [] && |s| == |t|
    requires SortedBy(s, cmp) && SortedBy(t, cmp) && multiset(s) == multiset(t)
    ensures s[|s| - 1] == t[|t| - 1]
  {
    hide Consistent;
    LastIsLargest(s, t, cmp);
    LastIsLargest(t, s, cmp);
    SignsAgree(s[|s| - 1], t[|t| - 1], cmp);
  }

  lemma SortedInit<T>(s: seq<T>, cmp: (T, T) -> int)
    requires s != [] && SortedBy(s, cmp)
    ensures SortedBy(s[..|s| - 1], cmp)
  {
  }

  lemma WithoutLast<T>(s: seq<T>)
    requires s != []
    ensures multiset(s[..|s| - 1]) == multiset(s) - multiset{s[|s| - 1]}
  {
    assert s == s[..|s| - 1] + [s[|s| - 1]];
  }

  lemma SignsAgree<T(!new)>(x: T, y: T, cmp: (T, T) -> int)
    requires Consistent(cmp) && cmp(x, y) <= 0 && cmp(y, x) <= 0
    ensures cmp(x, y) == 0
  {
  }

  lemma LastIsLargest<T(!new)>(s: seq<T>, t: seq<T>, cmp: (T, T) -> int)
    requires Consistent(cmp) && SortedBy(t, cmp) && multiset(s) == multiset(t) && |s| == |t| > 0
    ensures cmp(s[|s| - 1], t[|t| - 1]) <= 0
  {
    var x, y := s[|s| - 1], t[|t| - 1];
    assert x in multiset(t);
    var i :| 0 <= i < |t| && t[i] == x;
    if i == |t| - 1 { assert cmp(x, x) < 0 <==> cmp(x, x) > 0; }
  }

  /** `double_cmp` orders numbers totally and separates them. */
  function DoubleCmp(a: real, b: real): int {
    if a < b then -1 else if a > b then 1 else 0
  }

  lemma DoubleCmpConsistent()
    ensures Consistent(DoubleCmp) && Separates(DoubleCmp)
    ensures forall a, b :: -1 <= DoubleCmp(a, b) <= 1
  {
  }

  predicate Ascending(s: seq<real>) {
    forall i, j :: 0 <= i < j < |s| ==> s[i] <= s[j]
  }

  lemma SortedIsAscending(s: seq<real>)
    ensures SortedBy(s, DoubleCmp) <==> Ascending(s)
  {
    if SortedBy(s, DoubleCmp) {
      forall i, j | 0 <= i < j < |s| ensures s[i] <= s[j] { assert DoubleCmp(s[i], s[j]) <= 0; }
    }
  }
}
