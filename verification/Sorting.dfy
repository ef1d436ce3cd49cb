/** sort.Sort, as far as its callers rely on it: the result is ordered and holds the
    same entries. Implemented by insertion. */
module Sorting {
  import opened BinaryHeap

  ghost predicate Sorted<T>(s: seq<T>, less: (T, T) -> bool) {
    forall i, j :: 0 <= i < j < |s| ==> !less(s[j], s[i])
  }

  lemma InsertedSorted<T(!new)>(s: seq<T>, less: (T, T) -> bool, x: T, k: nat)
    requires StrictWeakOrder(less) && Sorted(s, less) && k <= |s|
    requires forall i :: k <= i < |s| ==> less(x, s[i])
    requires k > 0 ==> !less(x, s[k - 1])
    ensures Sorted(s[..k] + [x] + s[k..], less)
  {
    var r := s[..k] + [x] + s[k..];
    forall i, j | 0 <= i < j < |r| ensures !less(r[j], r[i]) {
      if i < k && j == k && i != k - 1 { assert !less(s[k - 1], s[i]); }
    }
  }

  method Insert<T(!new)>(s: seq<T>, less: (T, T) -> bool, x: T) returns (r: seq<T>)
    requires StrictWeakOrder(less) && Sorted(s, less)
    ensures Sorted(r, less) && multiset(r) == multiset(s) + multiset{x} && |r| == |s| + 1
  {
    var k := |s|;
    while k > 0 && less(x, s[k - 1])
      invariant 0 <= k <= |s|
      invariant forall i :: k <= i < |s| ==> less(x, s[i])
    {
      k := k - 1;
      forall i | k < i < |s| ensures less(x, s[i]) { assert !less(s[i], s[k]); }
    }
    InsertedSorted(s, less, x, k);
    r := s[..k] + [x] + s[k..];
    assert s == s[..k] + s[k..];
  }

  method Sort<T(!new)>(s: seq<T>, less: (T, T) -> bool) returns (r: seq<T>)
    requires StrictWeakOrder(less)
    ensures Sorted(r, less) && multiset(r) == multiset(s) && |r| == |s|
  {
    r := [];
    for k := 0 to |s|
      invariant |r| == k && Sorted(r, less) && multiset(r) == multiset(s[..k])
    {
      r := Insert(r, less, s[k]);
      assert s[..k + 1] == s[..k] + [s[k]];
    }
    assert s[..|s|] == s;
  }
}
