/** Ordering facts about the side list: the in-place sort the constructor
    applies to it, and what sortedness and equal multisets say about it. */
module Sorting {

  predicate Sorted(s: seq<int>)
  {
    forall i, j :: 0 <= i < j < |s| ==> s[i] <= s[j]
  }

  /** Every element equals the first one. */
  predicate AllEqual(s: seq<int>)
  {
    forall i :: 0 <= i < |s| ==> s[i] == s[0]
  }

  /** Sorts the array in place into non-decreasing order, as `std::sort` does
      with the vector's storage; insertion sort stands in for the library's
      algorithm, which promises only the result. */
  method SortInPlace(a: array<int>)
    modifies a
    ensures Sorted(a[..])
    ensures multiset(a[..]) == old(multiset(a[..]))
  {
    var i := 0;
    while i < a.Length
      invariant 0 <= i <= a.Length
      invariant forall k, l :: 0 <= k < l < i ==> a[k] <= a[l]
      invariant multiset(a[..]) == old(multiset(a[..]))
    {
      var j := i;
      while j > 0 && a[j - 1] > a[j]
        invariant 0 <= j <= i < a.Length
        invariant forall k, l :: 0 <= k < l <= i && k != j && l != j ==> a[k] <= a[l]
        invariant forall l :: j < l <= i ==> a[j] <= a[l]
        invariant multiset(a[..]) == old(multiset(a[..]))
      {
        SwapAdjacent(a, j - 1);
        j := j - 1;
      }
      i := i + 1;
    }
  }

  /** Exchanges a[k] and a[k + 1] and leaves every other element alone. */
  method SwapAdjacent(a: array<int>, k: nat)
    requires k + 1 < a.Length
    modifies a
    ensures a[k] == old(a[k + 1]) && a[k + 1] == old(a[k])
    ensures forall m :: 0 <= m < a.Length && m != k && m != k + 1 ==> a[m] == old(a[m])
    ensures multiset(a[..]) == old(multiset(a[..]))
  {
    a[k], a[k + 1] := a[k + 1], a[k];
  }

  /** A sorted list is determined by its elements: two sorted lists with the
      same multiset of elements are equal. */
  lemma {:induction false} SortedPermutationUnique(a: seq<int>, b: seq<int>)
    requires Sorted(a) && Sorted(b)
    requires multiset(a) == multiset(b)
    ensures a == b
  {
    assert |a| == |multiset(a)| == |multiset(b)| == |b|;
    if |a| > 0 {
      assert a[0] in multiset(b);
      assert b[0] in multiset(a);
      assert a[0] == b[0];
      assert a == [a[0]] + a[1..];
      assert b == [b[0]] + b[1..];
      assert multiset(a[1..]) == multiset(a) - multiset{a[0]};
      assert multiset(b[1..]) == multiset(b) - multiset{b[0]};
      assert multiset(a[1..]) == multiset(b[1..]);
      SortedPermutationUnique(a[1..], b[1..]);
    }
  }

  /** In a sorted non-empty list all elements are equal exactly when the first
      equals the last. */
  lemma SortedAllEqual(s: seq<int>)
    requires Sorted(s) && |s| > 0
    ensures AllEqual(s) <==> s[0] == s[|s| - 1]
  {
  }

  /** Whether all elements are equal depends only on the multiset of elements. */
  lemma AllEqualPermutation(a: seq<int>, b: seq<int>)
    requires multiset(a) == multiset(b)
    ensures AllEqual(a) <==> AllEqual(b)
  {
    if AllEqual(a) {
      AllEqualTransfer(a, b);
    }
    if AllEqual(b) {
      AllEqualTransfer(b, a);
    }
  }

  lemma AllEqualTransfer(a: seq<int>, b: seq<int>)
    requires multiset(a) == multiset(b)
    requires AllEqual(a)
    ensures AllEqual(b)
  {
    forall i | 0 <= i < |b|
      ensures b[i] == b[0]
    {
      assert b[i] in multiset(a);
      assert b[0] in multiset(a);
    }
  }
}
