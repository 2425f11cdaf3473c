/** In-place sorting with a three-way comparator, as `qsort` is used with one. */
module Ordering {

  /** The comparator is a total preorder: it flips sign and is transitive. */
  ghost predicate TotalPreorder<T(!new)>(cmp: (T, T) -> int) {
    && (forall x, y :: cmp(x, y) <= 0 || cmp(y, x) <= 0)
    && (forall x, y, z :: cmp(x, y) <= 0 && cmp(y, z) <= 0 ==> cmp(x, z) <= 0)
  }

  ghost predicate SortedBy<T>(cmp: (T, T) -> int, s: seq<T>) {
    forall i, j :: 0 <= i < j < |s| ==> cmp(s[i], s[j]) <= 0
  }

  lemma SwapKeepsElements<T>(s: seq<T>, i: nat, j: nat)
    requires i < j < |s|
    ensures multiset(s[i := s[j]][j := s[i]]) == multiset(s)
  {
    var s1 := s[i := s[j]];
    assert s1[j] == s[j] && s1[j := s[i]] == s[i := s[j]][j := s[i]];
    assert multiset(s1) == multiset(s) - multiset{s[i]} + multiset{s[j]};
    assert multiset(s1[j := s[i]]) == multiset(s1) - multiset{s[j]} + multiset{s[i]};
  }

  lemma RemoveOne<T>(s: seq<T>, k: nat)
    requires k < |s|
    ensures multiset(s[..k] + s[k + 1..]) == multiset(s) - multiset{s[k]}
  {
    assert s == s[..k] + [s[k]] + s[k + 1..];
  }

  lemma RemoveFirst<T>(s: seq<T>)
    requires s != []
    ensures multiset(s[1..]) == multiset(s) - multiset{s[0]}
  {
    assert s == [s[0]] + s[1..];
  }

  lemma Place<T>(b: seq<T>, x: T) returns (k: nat)
    requires x in multiset(b)
    ensures k < |b| && b[k] == x
  {
    k :| 0 <= k < |b| && b[k] == x;
  }

  /** Where a permutation keeps the first element, and what is left without it. */
  lemma FindInPermutation<T>(a: seq<T>, b: seq<T>) returns (k: nat)
    requires multiset(a) == multiset(b) && a != []
    ensures k < |b| && b[k] == a[0] && multiset(a[1..]) == multiset(b[..k] + b[k + 1..])
  {
    k := Place(b, a[0]);
    RemoveFirst(a);
    RemoveOne(b, k);
  }

  method Swap<T>(a: array<T>, i: nat, j: nat)
    requires i < j < a.Length
    modifies a
    ensures a[..] == old(a[..])[i := old(a[j])][j := old(a[i])]
    ensures multiset(a[..]) == multiset(old(a[..]))
  {
    SwapKeepsElements(a[..], i, j);
    var t := a[i];
    a[i] := a[j];
    a[j] := t;
    assert a[..] == old(a[..])[i := old(a[j])][j := old(a[i])];
  }

  /** Sorted up to position `i`, except that the element at `j` may still be too far back. */
  ghost predicate SortedExcept<T>(cmp: (T, T) -> int, s: seq<T>, i: nat, j: nat) {
    i < |s| && j <= i && forall k, l :: 0 <= k < l <= i && l != j ==> cmp(s[k], s[l]) <= 0
  }

  lemma SwapMovesDown<T(!new)>(cmp: (T, T) -> int, s: seq<T>, i: nat, j: nat)
    requires TotalPreorder(cmp) && SortedExcept(cmp, s, i, j) && 0 < j && cmp(s[j - 1], s[j]) > 0
    ensures SortedExcept(cmp, s[j - 1 := s[j]][j := s[j - 1]], i, j - 1)
  {
    var s' := s[j - 1 := s[j]][j := s[j - 1]];
    assert cmp(s[j], s[j - 1]) <= 0;
    forall k, l | 0 <= k < l <= i && l != j - 1
      ensures cmp(s'[k], s'[l]) <= 0
    {
      assert l != j ==> s'[l] == s[l];
      assert k != j && k != j - 1 ==> s'[k] == s[k];
    }
  }

  lemma InPlace<T(!new)>(cmp: (T, T) -> int, s: seq<T>, i: nat, j: nat)
    requires TotalPreorder(cmp) && SortedExcept(cmp, s, i, j) && (j == 0 || cmp(s[j - 1], s[j]) <= 0)
    ensures SortedBy(cmp, s[..i + 1])
  {
    forall k | 0 <= k < j
      ensures cmp(s[k], s[j]) <= 0
    {
      assert k < j - 1 ==> cmp(s[k], s[j - 1]) <= 0;
    }
  }

  lemma StartsSorted<T>(cmp: (T, T) -> int, s: seq<T>, i: nat)
    requires i < |s| && SortedBy(cmp, s[..i])
    ensures SortedExcept(cmp, s, i, i)
  {
    forall k, l | 0 <= k < l <= i && l != i
      ensures cmp(s[k], s[l]) <= 0
    {
      assert s[..i][k] == s[k] && s[..i][l] == s[l];
    }
  }

  /** Moves element `i` down to its place among the sorted elements before it. */
  method Insert<T(!new)>(a: array<T>, i: nat, cmp: (T, T) -> int)
    requires TotalPreorder(cmp) && i < a.Length && SortedBy(cmp, a[..i])
    modifies a
    ensures SortedBy(cmp, a[..i + 1])
    ensures multiset(a[..]) == multiset(old(a[..]))
  {
    var j: nat := i;
    StartsSorted(cmp, a[..], i);
    assert a[..][..i] == a[..i];
    while 0 < j && cmp(a[j - 1], a[j]) > 0
      invariant SortedExcept(cmp, a[..], i, j)
      invariant multiset(a[..]) == multiset(old(a[..]))
    {
      SwapMovesDown(cmp, a[..], i, j);
      Swap(a, j - 1, j);
      j := j - 1;
    }
    InPlace(cmp, a[..], i, j);
    assert a[..i + 1] == a[..][..i + 1];
  }

  /** Sorts in place; as with `qsort`, the order of equal elements is not promised. */
  method Sort<T(!new)>(a: array<T>, cmp: (T, T) -> int)
    requires TotalPreorder(cmp)
    modifies a
    ensures SortedBy(cmp, a[..])
    ensures multiset(a[..]) == multiset(old(a[..]))
  {
    var i := 0;
    while i < a.Length
      invariant 0 <= i <= a.Length
      invariant SortedBy(cmp, a[..i])
      invariant multiset(a[..]) == multiset(old(a[..]))
    {
      Insert(a, i, cmp);
      i := i + 1;
    }
    assert a[..] == a[..i];
  }
}
