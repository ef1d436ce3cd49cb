/** Which state tries a full node keeps in memory: every written state is referenced once, and
    released when a block far enough above it is written. */
module TrieGc {
  import opened BinaryHeap

  type Root = int

  /** A state root with the number of its block. */
  datatype Entry = Entry(root: Root, number: int)

  const TRIES_IN_MEMORY := 128

  /** The queue hands out the lowest block number first. */
  predicate Earlier(a: Entry, b: Entry) { a.number < b.number }

  lemma EarlierIsOrder()
    ensures StrictWeakOrder(Earlier)
  {}

  /** The roots of the queued entries, each as often as it is queued. */
  function Roots(q: seq<Entry>): multiset<Root> {
    if q == [] then multiset{} else Roots(q[..|q| - 1]) + multiset{q[|q| - 1].root}
  }

  lemma RootsNone()
    ensures Roots([]) == multiset{}
  {}

  lemma RootsAppend(q: seq<Entry>, e: Entry)
    ensures Roots(q + [e]) == Roots(q) + multiset{e.root}
  {
    assert (q + [e])[..|q|] == q;
  }

  lemma {:induction false} RootsWithout(q: seq<Entry>, i: nat)
    requires i < |q|
    ensures Roots(q) == Roots(q[..i] + q[i + 1..]) + multiset{q[i].root}
  {
    hide Roots;
    var last := |q| - 1;
    var front, rest := q[..last], q[..i] + q[i + 1..];
    assert q == front + [q[last]];
    RootsAppend(front, q[last]);
    if i == last {
      assert rest == front;
    } else {
      RootsWithout(front, i);
      assert rest == (front[..i] + front[i + 1..]) + [q[last]];
      RootsAppend(front[..i] + front[i + 1..], q[last]);
    }
  }

  /** The order of the queue does not matter. */
  lemma {:induction false} RootsPermuted(a: seq<Entry>, b: seq<Entry>)
    requires multiset(a) == multiset(b)
    ensures Roots(a) == Roots(b)
    decreases |a|
  {
    assert |multiset(a)| == |a| && |multiset(b)| == |b|;
    if a != [] {
      var x := a[|a| - 1];
      assert a == a[..|a| - 1] + [x];
      assert x in multiset(b);
      var i :| 0 <= i < |b| && b[i] == x;
      assert b == b[..i] + [x] + b[i + 1..];
      var c := b[..i] + b[i + 1..];
      assert multiset(c) == multiset(b) - multiset{x} == multiset(a[..|a| - 1]);
      RootsPermuted(a[..|a| - 1], c);
      RootsWithout(b, i);
    }
  }

  lemma RootsChange(a: seq<Entry>, b: seq<Entry>, x: Entry)
    requires multiset(a) == multiset(b) + multiset{x}
    ensures Roots(a) == Roots(b) + multiset{x.root}
  {
    assert multiset(b + [x]) == multiset(a);
    RootsPermuted(a, b + [x]);
    RootsAppend(b, x);
  }

  /** q without the entries numbered up to mark. */
  ghost predicate Collected(q: seq<Entry>, q0: seq<Entry>, mark: int) {
    forall e :: multiset(q)[e] == if e.number > mark then multiset(q0)[e] else 0
  }

  /** q is on its way from q0 to that. */
  ghost predicate Collecting(q: seq<Entry>, q0: seq<Entry>, mark: int) {
    forall e :: multiset(q)[e] <= multiset(q0)[e] && (e.number > mark ==> multiset(q)[e] == multiset(q0)[e])
  }

  lemma CollectingStart(q: seq<Entry>, mark: int)
    ensures Collecting(q, q, mark)
  {}

  lemma CollectingStep(q: seq<Entry>, r: seq<Entry>, q0: seq<Entry>, mark: int, x: Entry)
    requires Collecting(q, q0, mark) && multiset(q) == multiset(r) + multiset{x} && x.number <= mark
    ensures Collecting(r, q0, mark)
  {
    forall e ensures multiset(r)[e] <= multiset(q0)[e] && (e.number > mark ==> multiset(r)[e] == multiset(q0)[e]) {
      assert multiset(q)[e] == multiset(r)[e] + multiset{x}[e];
    }
  }

  /** Once the lowest number left is above the mark, nothing is left to collect. */
  lemma CollectingDone(q: seq<Entry>, q0: seq<Entry>, mark: int, x: Entry)
    requires Collecting(q, q0, mark) && x.number > mark && forall e :: e in q ==> x.number <= e.number
    ensures Collected(q, q0, mark)
  {
    forall e: Entry | e.number <= mark ensures multiset(q)[e] == 0 {
      if e in multiset(q) { assert e in q; }
    }
  }

  lemma CollectingEmpty(q0: seq<Entry>, mark: int)
    requires Collecting([], q0, mark)
    ensures Collected([], q0, mark)
  {
    forall e: Entry ensures multiset([])[e] == if e.number > mark then multiset(q0)[e] else 0 {}
  }

  lemma CollectedPermuted(q: seq<Entry>, r: seq<Entry>, q0: seq<Entry>, mark: int)
    requires Collected(q, q0, mark) && multiset(q) == multiset(r)
    ensures Collected(r, q0, mark)
  {}

  class Collector {
    /** References held on the trie database, minus those given back. */
    var references: multiset<Root>
    var triegc: seq<Entry>

    ghost predicate Valid()
      reads this
    {
      IsHeap(triegc, Earlier) && references == Roots(triegc)
    }

    constructor ()
      ensures Valid() && triegc == []
    {
      references, triegc := multiset{}, [];
    }

    method Pop() returns (e: Entry)
      requires Valid() && triegc != []
      modifies this`triegc
      ensures IsHeap(triegc, Earlier) && multiset(old(triegc)) == multiset(triegc) + multiset{e}
      ensures references == Roots(triegc) + multiset{e.root} && |triegc| < |old(triegc)|
      ensures forall x :: x in old(triegc) ==> e.number <= x.number
    {
      EarlierIsOrder();
      triegc, e := BinaryHeap.Pop(triegc, Earlier);
      assert e in old(triegc);
      RootsChange(old(triegc), triegc, e);
    }

    method Push(e: Entry)
      requires IsHeap(triegc, Earlier) && references == Roots(triegc) + multiset{e.root}
      modifies this`triegc
      ensures Valid() && multiset(triegc) == multiset(old(triegc)) + multiset{e}
    {
      EarlierIsOrder();
      triegc := BinaryHeap.Push(triegc, Earlier, e);
      RootsChange(triegc, old(triegc), e);
    }

    /** Gives back the references of the blocks numbered up to mark, and no other. */
    method Collect(mark: int)
      requires Valid()
      modifies this
      ensures Valid() && Collected(triegc, old(triegc), mark)
    {
      hide IsHeap, Roots, Collecting, Collected;
      CollectingStart(triegc, mark);
      while triegc != []
        invariant Valid() && Collecting(triegc, old(triegc), mark)
        decreases |triegc|
      {
        ghost var before := triegc;
        var e := Pop();
        if e.number > mark {
          CollectingDone(before, old(triegc), mark, e);
          Push(e);
          CollectedPermuted(before, triegc, old(triegc), mark);
          return;
        }
        CollectingStep(before, triegc, old(triegc), mark, e);
        references := references - multiset{e.root};
      }
      CollectingEmpty(old(triegc), mark);
    }

    /** Writing a block references its state, and releases exactly the states of blocks that are at
        least 128 below it. */
    method Write(root: Root, number: nat)
      requires Valid()
      modifies this
      ensures Valid()
      ensures number > 128 ==> Collected(triegc, old(triegc) + [Entry(root, number)], number - 128)
      ensures number <= 128 ==> multiset(triegc) == multiset(old(triegc) + [Entry(root, number)])
    {
      references := references + multiset{root};
      Push(Entry(root, number));
      if number > TRIES_IN_MEMORY {
        Collect(number - TRIES_IN_MEMORY);
      }
    }

    /** On shutdown every reference is given back. */
    method Stop()
      requires Valid()
      modifies this
      ensures Valid() && triegc == [] && references == multiset{}
    {
      hide IsHeap, Roots;
      while triegc != []
        invariant Valid()
        decreases |triegc|
      {
        var e := Pop();
        references := references - multiset{e.root};
      }
      RootsNone();
    }
  }
}
