/** The nonce-sorted transaction map: a hash map, a heap of its nonces and a cached
    sorted listing, kept in agreement by every operation. */
module SortedMap {
  import opened BinaryHeap
  import opened Sorting
  import opened Options
  import opened Sequences
  import opened Sets
  import opened Transactions

  predicate NonceLess(a: int, b: int) { a < b }
  predicate TxNonceLess(a: Tx, b: Tx) { a.nonce < b.nonce }

  // ---- the heap of nonces ------------------------------------------------------------

  ghost predicate NonceHeap(h: seq<int>) { IsHeap(h, NonceLess) }

  method PushNonce(h: seq<int>, n: int) returns (r: seq<int>)
    requires NonceHeap(h)
    ensures NonceHeap(r) && multiset(r) == multiset(h) + multiset{n} && |r| == |h| + 1
  {
    r := Push(h, NonceLess, n);
  }

  method PopNonce(h: seq<int>) returns (r: seq<int>, n: int)
    requires NonceHeap(h) && h != []
    ensures NonceHeap(r) && n == h[0] && multiset(r) == multiset(h) - multiset{n} && |r| == |h| - 1
  {
    r, n := Pop(h, NonceLess);
  }

  method RemoveNonceAt(h: seq<int>, i: nat) returns (r: seq<int>)
    requires NonceHeap(h) && i < |h|
    ensures NonceHeap(r) && multiset(r) == multiset(h) - multiset{h[i]}
  {
    var n;
    r, n := RemoveAt(h, NonceLess, i);
  }

  method InitNonces(h: seq<int>) returns (r: seq<int>)
    ensures NonceHeap(r) && multiset(r) == multiset(h)
  {
    r := Init(h, NonceLess);
  }

  method SortNonces(h: seq<int>) returns (r: seq<int>)
    ensures Sorted(r, NonceLess) && multiset(r) == multiset(h)
  {
    r := Sort(h, NonceLess);
  }

  // ---- the heap against the map --------------------------------------------------------

  /** index holds every key of m once, and nothing else. */
  ghost predicate Indexes(index: seq<int>, m: TxMap) {
    forall n: int :: multiset(index)[n] == if n in m then 1 else 0
  }

  lemma IndexMember(index: seq<int>, m: TxMap, n: int)
    requires Indexes(index, m)
    ensures n in index <==> n in m
  {
    assert n in index <==> multiset(index)[n] > 0;
  }

  lemma IndexRoot(index: seq<int>, m: TxMap)
    requires Indexes(index, m) && NonceHeap(index)
    ensures index == [] <==> m == map[]
    ensures index != [] ==> index[0] == MinKey(m)
  {
    if index != [] {
      RootIsLeastOfAll(index, NonceLess);
      IndexMember(index, m, index[0]);
      IndexMember(index, m, MinKey(m));
    } else {
      forall n ensures n !in m.Keys { assert multiset(index)[n] == 0; }
      EmptyOrMember(m.Keys);
    }
  }

  function Nonces(s: seq<Tx>): (r: seq<int>)
    ensures |r| == |s|
  {
    seq(|s|, i requires 0 <= i < |s| => s[i].nonce)
  }

  lemma {:induction false} NoncesIndex(m: TxMap)
    requires Keyed(m)
    ensures Indexes(Nonces(Flat(m)), m)
    decreases |m|
  {
    hide Flat, MinKey;
    FlatStep(m);
    if m != map[] {
      var n := MinKey(m);
      NoncesIndex(m - {n});
      assert Nonces(Flat(m)) == [n] + Nonces(Flat(m - {n}));
    }
  }

  lemma {:induction false} SortedUnique(a: seq<int>, b: seq<int>)
    requires Sorted(a, NonceLess) && Sorted(b, NonceLess) && multiset(a) == multiset(b)
    ensures a == b
  {
    assert |multiset(a)| == |multiset(b)|;
    if a != [] {
      assert a[0] in multiset(b) && b[0] in multiset(a);
      assert a[0] == b[0];
      assert a == [a[0]] + a[1..] && b == [b[0]] + b[1..];
      assert multiset(a[1..]) == multiset(a) - multiset{a[0]};
      SortedUnique(a[1..], b[1..]);
    }
  }

  /** Sorting the index puts the nonces in the order of the listing. */
  lemma SortedIndex(index: seq<int>, m: TxMap)
    requires Keyed(m) && Indexes(index, m) && Sorted(index, NonceLess)
    ensures index == Nonces(Flat(m))
  {
    NoncesIndex(m);
    FlatLists(m);
    SortedUnique(index, Nonces(Flat(m)));
  }

  lemma IndexPrefix(m: TxMap, k: nat)
    requires Keyed(m) && k <= |m|
    ensures |Flat(m)| == |m| && Indexes(Nonces(Flat(m))[..k], Lowest(m, k))
  {
    FlatLowest(m, k);
    assert Nonces(Flat(m))[..k] == Nonces(Flat(m)[..k]);
    NoncesIndex(Lowest(m, k));
  }

  lemma DropPrefix<T>(a: seq<T>, b: seq<T>)
    ensures (a + b)[|a|..] == b
  {}

  lemma NothingKept(m: TxMap, filter: Tx -> bool, removed: seq<Tx>)
    requires Keyed(m) && Lists(removed, Keep(m, filter)) && removed == []
    ensures Drop(m, filter) == m
  {
    forall n | n in m ensures !filter(m[n]) {
      assert filter(m[n]) ==> Holds(Keep(m, filter), m[n]);
      assert m[n] !in removed;
    }
  }

  /** Having taken out the transactions out in nonce order, items is what is left of was. */
  ghost predicate Popped(was: TxMap, out: seq<Tx>, items: TxMap, low: int) {
    items == From(was, low) && Flat(was) == out + Flat(items)
  }

  lemma PoppedStep(was: TxMap, out: seq<Tx>, items: TxMap, low: int, tx: Tx)
    requires Popped(was, out, items, low) && items != map[]
    requires tx.nonce == MinKey(items) && Flat(items) == [tx] + Flat(items - {tx.nonce})
    ensures low <= tx.nonce && Popped(was, out + [tx], items - {tx.nonce}, tx.nonce + 1)
  {
    assert out + Flat(items) == (out + [tx]) + Flat(items - {tx.nonce});
    assert items - {tx.nonce} == From(was, tx.nonce + 1);
  }

  /** Sorting any listing of m by nonce gives the listing in nonce order. */
  lemma SortedListing(list: seq<Tx>, sorted: seq<Tx>, m: TxMap)
    requires Keyed(m) && Lists(list, m)
    requires multiset(sorted) == multiset(list) && Sorted(sorted, TxNonceLess)
    ensures sorted == Flat(m)
  {
    forall tx ensures tx in sorted <==> Holds(m, tx) {
      assert tx in sorted <==> tx in multiset(sorted);
      assert tx in list <==> tx in multiset(list);
    }
    forall i, j | 0 <= i < j < |sorted| ensures sorted[i].nonce < sorted[j].nonce {
      assert sorted[i] in sorted && sorted[j] in sorted;
      if sorted[i].nonce == sorted[j].nonce {
        TwiceMember(sorted, i, j);
        NoRepeatOnce(list, sorted[i]);
      }
    }
    FlatUnique(m, sorted);
  }

  class TxSortedMap {
    var items: TxMap
    var index: seq<int>
    var cache: Option<seq<Tx>>

    ghost predicate Valid()
      reads this
    {
      && Keyed(items)
      && NonceHeap(index) && Indexes(index, items)
      && (cache.Some? ==> cache.value == Flat(items))
    }

    constructor ()
      ensures Valid() && items == map[]
    {
      items, index, cache := map[], [], None;
    }

    method Get(nonce: int) returns (r: Option<Tx>)
      requires Valid()
      ensures r == if nonce in items then Some(items[nonce]) else None
    {
      r := if nonce in items then Some(items[nonce]) else None;
    }

    method Put(tx: Tx)
      requires Valid()
      modifies this
      ensures Valid() && items == old(items)[tx.nonce := tx]
    {
      if tx.nonce !in items {
        index := PushNonce(index, tx.nonce);
      }
      items, cache := items[tx.nonce := tx], None;
    }

    /** Take the lowest nonce off the heap and its transaction out of the map. */
    method PopLowest() returns (tx: Tx)
      requires Keyed(items) && NonceHeap(index) && Indexes(index, items) && index != []
      modifies this`items, this`index
      ensures Keyed(items) && NonceHeap(index) && Indexes(index, items)
      ensures old(items) != map[] && tx.nonce == MinKey(old(items)) == old(index[0])
      ensures Holds(old(items), tx) && items == old(items) - {tx.nonce}
      ensures Flat(old(items)) == [tx] + Flat(items) && |index| == |old(index)| - 1
    {
      IndexRoot(index, items);
      var nonce;
      index, nonce := PopNonce(index);
      tx := items[nonce];
      items := items - {nonce};
      assert items.Keys == old(items).Keys - {nonce};
    }

    /** Take out everything with a nonce below the threshold, lowest first. */
    method PopBelow(threshold: int) returns (removed: seq<Tx>)
      requires Keyed(items) && NonceHeap(index) && Indexes(index, items)
      modifies this`items, this`index
      ensures Keyed(items) && NonceHeap(index) && Indexes(index, items)
      ensures items == From(old(items), threshold)
      ensures Flat(old(items)) == removed + Flat(items)
    {
      hide Flat, MinKey;
      removed := [];
      ghost var was := items;
      ghost var low := if items != map[] && MinKey(items) < threshold then MinKey(items) else threshold;
      assert items == From(was, low);
      while |index| > 0 && index[0] < threshold
        invariant Keyed(items) && NonceHeap(index) && Indexes(index, items)
        invariant low <= threshold && Popped(was, removed, items, low)
        decreases |index|
      {
        ghost var before := items;
        var tx := PopLowest();
        PoppedStep(was, removed, before, low, tx);
        low := tx.nonce + 1;
        removed := removed + [tx];
      }
      IndexRoot(index, items);
    }

    method Forward(threshold: int) returns (removed: seq<Tx>)
      requires Valid()
      modifies this
      ensures Valid()
      ensures items == From(old(items), threshold)
      ensures removed == Flat(Below(old(items), threshold))
    {
      ghost var was := items;
      removed := PopBelow(threshold);
      SplitPrefix(was, threshold, removed);
      if cache.Some? {
        DropPrefix(removed, Flat(items));
        cache := Some(cache.value[|removed|..]);
      }
    }

    /** Put every key of the map into a new heap, in whatever order they come. */
    method Reindex()
      requires Keyed(items)
      modifies this`index
      ensures NonceHeap(index) && Indexes(index, items)
    {
      var todo := items.Keys;
      var keys: seq<int> := [];
      while todo != {}
        invariant todo <= items.Keys
        invariant forall n: int :: multiset(keys)[n] == if n in items && n !in todo then 1 else 0
      {
        EmptyOrMember(todo);
        var n :| n in todo;
        todo := todo - {n};
        keys := keys + [n];
      }
      index := InitNonces(keys);
    }

    /** Delete every transaction the filter accepts, visiting the map in any order. */
    method DeleteMatching(filter: Tx -> bool) returns (removed: seq<Tx>)
      requires Keyed(items)
      modifies this`items
      ensures items == Drop(old(items), filter)
      ensures Lists(removed, Keep(old(items), filter))
    {
      removed := [];
      var todo := items.Keys;
      while todo != {}
        invariant todo <= items.Keys
        invariant forall n :: n in items <==> n in old(items) && (n in todo || !filter(old(items)[n]))
        invariant forall n :: n in items ==> items[n] == old(items)[n]
        invariant forall tx :: tx in removed <==> Holds(old(items), tx) && tx.nonce !in todo && filter(tx)
        invariant NoRepeat(removed)
      {
        EmptyOrMember(todo);
        var n :| n in todo;
        todo := todo - {n};
        if filter(items[n]) {
          removed := removed + [items[n]];
          items := items - {n};
        }
      }
      SameEntries(items, Drop(old(items), filter));
      forall tx ensures tx in removed <==> Holds(Keep(old(items), filter), tx) {}
    }

    method Filter(filter: Tx -> bool) returns (removed: seq<Tx>)
      requires Valid()
      modifies this
      ensures Valid()
      ensures items == Drop(old(items), filter)
      ensures Lists(removed, Keep(old(items), filter))
    {
      removed := DeleteMatching(filter);
      if |removed| > 0 {
        Reindex();
        cache := None;
      } else {
        NothingKept(old(items), filter, removed);
      }
    }

    /** With the index sorted, delete from the top of the listing down to the threshold. */
    method DropAbove(threshold: nat) returns (drops: seq<Tx>)
      requires Keyed(items) && index == Nonces(Flat(items)) && threshold < |items| == |Flat(items)|
      modifies this`items
      ensures items == Lowest(old(items), threshold)
      ensures drops == TopDown(Flat(old(items)), threshold)
    {
      hide Flat, MinKey;
      ghost var was := items;
      drops := [];
      var size := |items|;
      while size > threshold
        invariant threshold <= size <= |was| && items == Lowest(was, size)
        invariant drops == TopDown(Flat(was), size)
      {
        LowestStep(was, size - 1);
        drops := drops + [items[index[size - 1]]];
        items := items - {index[size - 1]};
        size := size - 1;
      }
    }

    method Cap(threshold: nat) returns (drops: seq<Tx>)
      requires Valid()
      modifies this
      ensures Valid()
      ensures items == Lowest(old(items), threshold)
      ensures drops == TopDown(Flat(old(items)), threshold)
    {
      hide Flat, MinKey, Lowest, Nonces, TopDown, Sorted;
      FlatLists(items);
      if |items| <= threshold {
        LowestAll(items, threshold);
        return [];
      }
      ghost var was := items;
      index := SortNonces(index);
      SortedIndex(index, was);
      drops := DropAbove(threshold);
      IndexPrefix(was, threshold);
      index := InitNonces(index[..threshold]);
      FlatLowest(was, threshold);
      if cache.Some? { cache := Some(cache.value[..|cache.value| - |drops|]); }
    }

    method Remove(nonce: int) returns (found: bool)
      requires Valid()
      modifies this
      ensures Valid()
      ensures found <==> nonce in old(items)
      ensures items == old(items) - {nonce}
    {
      if nonce !in items {
        assert items - {nonce} == items;
        return false;
      }
      IndexMember(index, items, nonce);
      var i := 0;
      while index[i] != nonce
        invariant 0 <= i < |index| && nonce in index[i..]
        decreases |index| - i
      {
        i := i + 1;
      }
      index := RemoveNonceAt(index, i);
      items, cache := items - {nonce}, None;
      return true;
    }

    /** Take out the run of consecutive nonces that starts at the lowest one. */
    method PopRun() returns (ready: seq<Tx>)
      requires Keyed(items) && NonceHeap(index) && Indexes(index, items) && items != map[] && index != []
      modifies this`items, this`index
      ensures Keyed(items) && NonceHeap(index) && Indexes(index, items)
      ensures items == From(old(items), RunEnd(old(items), MinKey(old(items))))
      ensures Flat(old(items)) == ready + Flat(items)
    {
      hide Flat, MinKey;
      IndexRoot(index, items);
      ready := [];
      ghost var was, first := items, index[0];
      assert items == From(was, first);
      var next := index[0];
      while |index| > 0 && index[0] == next
        invariant Keyed(items) && NonceHeap(index) && Indexes(index, items)
        invariant first == MinKey(was) <= next && Popped(was, ready, items, next)
        invariant forall n :: first <= n < next ==> n in was
        decreases |index|
      {
        ghost var before := items;
        var tx := PopLowest();
        PoppedStep(was, ready, before, next, tx);
        ready := ready + [tx];
        next := next + 1;
      }
      IndexRoot(index, items);
      assert next in was ==> next in items;
      RunEndUnique(was, first, next);
    }

    /** The run is taken from the lowest nonce even when that lies below start. */
    method Ready(start: int) returns (ready: seq<Tx>)
      requires Valid()
      modifies this
      ensures Valid()
      ensures old(items) == map[] || MinKey(old(items)) > start ==> ready == [] && items == old(items)
      ensures old(items) != map[] && MinKey(old(items)) <= start ==>
                var end := RunEnd(old(items), MinKey(old(items)));
                ready == Flat(Below(old(items), end)) && items == From(old(items), end)
    {
      IndexRoot(index, items);
      if |index| == 0 || index[0] > start { return []; }
      ghost var was := items;
      ready := PopRun();
      SplitPrefix(was, RunEnd(was, MinKey(was)), ready);
      cache := None;
    }

    method Len() returns (n: nat)
      requires Valid()
      ensures n == |items| == |Flat(items)|
    {
      FlatLists(items);
      n := |items|;
    }

    method Flatten() returns (txs: seq<Tx>)
      requires Valid()
      modifies this`cache
      ensures Valid() && txs == Flat(items)
    {
      if cache.None? {
        var todo := items.Keys;
        var list: seq<Tx> := [];
        while todo != {}
          invariant todo <= items.Keys
          invariant forall tx :: tx in list <==> Holds(items, tx) && tx.nonce !in todo
          invariant NoRepeat(list)
        {
          EmptyOrMember(todo);
          var n :| n in todo;
          todo := todo - {n};
          list := list + [items[n]];
        }
        var sorted := Sort(list, TxNonceLess);
        SortedListing(list, sorted, items);
        cache := Some(sorted);
      }
      txs := cache.value;
    }
  }
}
