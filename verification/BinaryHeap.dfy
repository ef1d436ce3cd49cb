/** The binary heap algorithms of Go's container/heap, on which the nonce index and
    the price index of the transaction pool are built. A heap is the slice itself;
    the order is any strict weak order. */
module BinaryHeap {

  ghost predicate StrictWeakOrder<T(!new)>(less: (T, T) -> bool) {
    && (forall a, b :: less(a, b) ==> !less(b, a))
    && (forall a, b, c :: !less(a, b) && !less(b, c) ==> !less(a, c))
  }

  function Parent(k: int): int { (k - 1) / 2 }

  /** The entry at k does not rank before the entry above it. */
  ghost predicate Linked<T>(h: seq<T>, less: (T, T) -> bool, k: int)
    requires 1 <= k < |h|
  {
    !less(h[k], h[Parent(k)])
  }

  ghost predicate IsHeap<T>(h: seq<T>, less: (T, T) -> bool) {
    forall k :: 1 <= k < |h| ==> Linked(h, less, k)
  }

  /** Nothing in a heap ranks before its root. */
  lemma {:induction false} RootIsLeast<T(!new)>(h: seq<T>, less: (T, T) -> bool, k: nat)
    requires StrictWeakOrder(less) && IsHeap(h, less) && k < |h|
    ensures !less(h[k], h[0])
  {
    if k > 0 {
      RootIsLeast(h, less, Parent(k));
      assert Linked(h, less, k);
    }
  }

  lemma RootIsLeastOfAll<T(!new)>(h: seq<T>, less: (T, T) -> bool)
    requires StrictWeakOrder(less) && IsHeap(h, less) && h != []
    ensures forall x :: x in h ==> !less(x, h[0])
  {
    forall k | 0 <= k < |h| ensures !less(h[k], h[0]) { RootIsLeast(h, less, k); }
  }

  function Swap<T>(h: seq<T>, i: nat, j: nat): (r: seq<T>)
    requires i < |h| && j < |h|
    ensures |r| == |h| && multiset(r) == multiset(h)
  {
    h[i := h[j]][j := h[i]]
  }

  /** What a sift-up at j leaves to repair: only the link above j. */
  ghost predicate Rising<T>(h: seq<T>, less: (T, T) -> bool, j: int) {
    && (forall k :: 1 <= k < |h| && k != j ==> Linked(h, less, k))
    && (forall k :: 1 <= k < |h| && Parent(k) == j && j >= 1 ==> !less(h[k], h[Parent(j)]))
  }

  lemma RiseStep<T(!new)>(h: seq<T>, less: (T, T) -> bool, j: nat)
    requires StrictWeakOrder(less) && 1 <= j < |h| && Rising(h, less, j) && less(h[j], h[Parent(j)])
    ensures Rising(Swap(h, Parent(j), j), less, Parent(j))
  {
    var i := Parent(j);
    var r := Swap(h, i, j);
    forall k | 1 <= k < |r| && k != i ensures Linked(r, less, k) {
      if k != j { assert Linked(h, less, k); }
    }
    forall k | 1 <= k < |r| && Parent(k) == i && i >= 1 ensures !less(r[k], r[Parent(i)]) {
      assert Linked(h, less, i);
      if k != j { assert Linked(h, less, k); }
    }
  }

  method Up<T(!new)>(h: seq<T>, less: (T, T) -> bool, j0: nat) returns (r: seq<T>)
    requires StrictWeakOrder(less) && j0 < |h| && Rising(h, less, j0)
    ensures |r| == |h| && multiset(r) == multiset(h) && IsHeap(r, less)
  {
    var j := j0;
    r := h;
    while j > 0 && less(r[j], r[Parent(j)])
      invariant 0 <= j < |r| == |h| && multiset(r) == multiset(h)
      invariant Rising(r, less, j)
    {
      RiseStep(r, less, j);
      r := Swap(r, Parent(j), j);
      j := Parent(j);
    }
  }

  /** What a sift-down at i leaves to repair: every link below lo's level holds, except
      those from i to its children and, until something has moved, the one above i0. */
  ghost predicate Sifting<T>(h: seq<T>, less: (T, T) -> bool, lo: int, i0: int, i: int) {
    && (forall k :: 1 <= k < |h| && Parent(k) >= lo && Parent(k) != i && (k != i0 || i > i0) ==> Linked(h, less, k))
    && (i >= 1 && Parent(i) >= lo ==>
          forall k :: 1 <= k < |h| && Parent(k) == i ==> !less(h[k], h[Parent(i)]))
  }

  /** One exchange with the smaller child keeps Sifting, one level further down. */
  lemma SiftStep<T(!new)>(h: seq<T>, less: (T, T) -> bool, lo: nat, i0: nat, i: nat, j: nat)
    requires StrictWeakOrder(less) && lo <= i0 <= i < |h| && 1 <= j < |h| && Parent(j) == i
    requires Sifting(h, less, lo, i0, i) && less(h[j], h[i])
    requires forall k :: 1 <= k < |h| && Parent(k) == i ==> !less(h[k], h[j])
    ensures Sifting(Swap(h, i, j), less, lo, i0, j)
  {
    var r := Swap(h, i, j);
    forall k | 1 <= k < |r| && Parent(k) >= lo && Parent(k) != j && (k != i0 || j > i0) ensures Linked(r, less, k) {
      if k != i && Parent(k) != i { assert Linked(h, less, k); }
    }
    forall k | 1 <= k < |r| && Parent(k) == j ensures !less(r[k], r[Parent(j)]) {
      assert Linked(h, less, k);
    }
  }

  /** The child of i that ranks first, if i has children. */
  method FirstChild<T(!new)>(h: seq<T>, less: (T, T) -> bool, i: nat) returns (j: nat)
    requires StrictWeakOrder(less) && 2 * i + 1 < |h|
    ensures i < j < |h| && Parent(j) == i
    ensures forall k :: 1 <= k < |h| && Parent(k) == i ==> !less(h[k], h[j])
  {
    j := 2 * i + 1;
    if j + 1 < |h| && less(h[j + 1], h[j]) { j := j + 1; }
    forall k | 1 <= k < |h| && Parent(k) == i ensures !less(h[k], h[j]) {
      assert k == 2 * i + 1 || k == 2 * i + 2;
    }
  }

  lemma SiftDone<T(!new)>(h: seq<T>, less: (T, T) -> bool, lo: nat, i0: nat, i: nat, j: nat)
    requires StrictWeakOrder(less) && lo <= i0 <= i < |h| && Sifting(h, less, lo, i0, i)
    requires 2 * i + 1 < |h| ==>
               j < |h| && !less(h[j], h[i]) && forall k :: 1 <= k < |h| && Parent(k) == i ==> !less(h[k], h[j])
    ensures forall k :: 1 <= k < |h| && Parent(k) >= lo && (k != i0 || i > i0) ==> Linked(h, less, k)
  {
    forall k | 1 <= k < |h| && Parent(k) == i ensures Linked(h, less, k) {
      assert 2 * i + 1 <= k;
    }
  }

  /** Sift down from i0, looking only at links whose upper end is at index lo or later.
      As in the library, the caller learns whether anything moved. */
  method Down<T(!new)>(h: seq<T>, less: (T, T) -> bool, i0: nat, ghost lo: nat)
    returns (r: seq<T>, moved: bool)
    requires StrictWeakOrder(less) && lo <= i0 < |h|
    requires Sifting(h, less, lo, i0, i0)
    ensures |r| == |h| && multiset(r) == multiset(h)
    ensures !moved ==> r == h
    ensures forall k :: 1 <= k < |r| && Parent(k) >= lo && (k != i0 || moved) ==> Linked(r, less, k)
    ensures lo == 0 ==> if moved then IsHeap(r, less) else Rising(r, less, i0)
  {
    var i := i0;
    r := h;
    var j: nat := 0;
    while 2 * i + 1 < |r|
      invariant i0 <= i < |r| == |h| && multiset(r) == multiset(h)
      invariant i == i0 ==> r == h
      invariant Sifting(r, less, lo, i0, i)
      decreases |r| - i
    {
      j := FirstChild(r, less, i);
      if !less(r[j], r[i]) { break; }
      SiftStep(r, less, lo, i0, i, j);
      r := Swap(r, i, j);
      i := j;
    }
    SiftDone(r, less, lo, i0, i, j);
    moved := i > i0;
  }

  method Push<T(!new)>(h: seq<T>, less: (T, T) -> bool, x: T) returns (r: seq<T>)
    requires StrictWeakOrder(less) && IsHeap(h, less)
    ensures IsHeap(r, less) && multiset(r) == multiset(h) + multiset{x} && |r| == |h| + 1
  {
    var g := h + [x];
    forall k | 1 <= k < |g| && k != |h| ensures Linked(g, less, k) { assert Linked(h, less, k); }
    r := Up(g, less, |h|);
  }

  /** The slice after the entry at i has changed places with the last one and been cut off. */
  function WithoutAt<T>(h: seq<T>, i: nat): (r: seq<T>)
    requires i < |h|
    ensures |r| == |h| - 1 && multiset(r) == multiset(h) - multiset{h[i]}
  {
    var g := Swap(h, i, |h| - 1);
    assert g == g[..|h| - 1] + [h[i]];
    g[..|h| - 1]
  }

  lemma CutIsHeap<T>(h: seq<T>, less: (T, T) -> bool)
    requires IsHeap(h, less) && h != []
    ensures IsHeap(WithoutAt(h, |h| - 1), less)
  {
    var r := WithoutAt(h, |h| - 1);
    forall k | 1 <= k < |r| ensures Linked(r, less, k) { assert Linked(h, less, k); }
  }

  lemma LastTakesPlace<T(!new)>(h: seq<T>, less: (T, T) -> bool, i: nat)
    requires StrictWeakOrder(less) && IsHeap(h, less) && i < |h| - 1
    ensures Sifting(WithoutAt(h, i), less, 0, i, i)
  {
    var r := WithoutAt(h, i);
    forall k | 1 <= k < |r| && k != i && Parent(k) != i ensures Linked(r, less, k) { assert Linked(h, less, k); }
    forall k | i >= 1 && 1 <= k < |r| && Parent(k) == i ensures !less(r[k], r[Parent(i)]) {
      assert Linked(h, less, k) && Linked(h, less, i);
    }
  }

  /** Removing the entry at i: the last entry takes its place and is sifted both ways. */
  method RemoveAt<T(!new)>(h: seq<T>, less: (T, T) -> bool, i: nat) returns (r: seq<T>, x: T)
    requires StrictWeakOrder(less) && IsHeap(h, less) && i < |h|
    ensures IsHeap(r, less) && x == h[i] && multiset(r) == multiset(h) - multiset{x} && |r| == |h| - 1
  {
    x := h[i];
    r := WithoutAt(h, i);
    if i != |h| - 1 {
      LastTakesPlace(h, less, i);
      var moved;
      r, moved := Down(r, less, i, 0);
      if !moved { r := Up(r, less, i); }
    } else {
      CutIsHeap(h, less);
    }
  }

  method Pop<T(!new)>(h: seq<T>, less: (T, T) -> bool) returns (r: seq<T>, x: T)
    requires StrictWeakOrder(less) && IsHeap(h, less) && h != []
    ensures IsHeap(r, less) && multiset(r) == multiset(h) - multiset{x} && |r| == |h| - 1
    ensures x == h[0] && forall y :: y in h ==> !less(y, x)
  {
    RootIsLeastOfAll(h, less);
    r, x := RemoveAt(h, less, 0);
  }

  method Init<T(!new)>(h: seq<T>, less: (T, T) -> bool) returns (r: seq<T>)
    requires StrictWeakOrder(less)
    ensures IsHeap(r, less) && multiset(r) == multiset(h) && |r| == |h|
  {
    r := h;
    var i := |h| / 2;
    while i > 0
      invariant 0 <= i <= |h| / 2 && |r| == |h| && multiset(r) == multiset(h)
      invariant forall k :: 1 <= k < |r| && Parent(k) >= i ==> Linked(r, less, k)
    {
      i := i - 1;
      ghost var before := r;
      var moved;
      r, moved := Down(r, less, i, i);
    }
  }
}
