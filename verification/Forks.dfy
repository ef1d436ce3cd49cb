/** Two branches of a block tree: the walk of the transaction pool to the point where they meet,
    and the transactions that only one of them has. */
module Forks {
  import opened Options
  import opened Ancestry

  /** c is an ancestor of both. */
  ghost predicate Shared(s: Store, a: Block, b: Block, c: Block) { IsAncestor(s, c, a) && IsAncestor(s, c, b) }

  /** t is in an ancestor of a that is not one of b. */
  ghost predicate OnlyIn(s: Store, a: Block, b: Block, t: Hash) {
    exists c :: IsAncestor(s, c, a) && !IsAncestor(s, c, b) && t in c.txs
  }

  ghost predicate Known(s: Store, b: Block) { b.hash in s && s[b.hash] == b }

  /** The higher of two different blocks is not shared, so it can be left behind. */
  lemma StepDown(s: Store, a: Block, b: Block, c: Block)
    requires Proper(s) && Known(s, a) && a != b && a.number >= b.number
    ensures Shared(s, a, b, c) <==> Parent(s, a).Some? && Shared(s, Parent(s, a).value, b, c)
  {
    if c == a && IsAncestor(s, c, b) { AncestorIsLower(s, c, b); }
  }

  /** The transactions left behind by one step down. */
  lemma LeaveBehind(s: Store, a: Block, b: Block, t: Hash)
    requires Proper(s) && Known(s, b) && IsAncestor(s, b, a) && Parent(s, b).Some?
    ensures OnlyIn(s, a, Parent(s, b).value, t) <==> OnlyIn(s, a, b, t) || t in b.txs
  {
    var p := Parent(s, b).value;
    if IsAncestor(s, b, p) { AncestorIsLower(s, b, p); }
    assert t in b.txs ==> IsAncestor(s, b, a) && !IsAncestor(s, b, p) && t in b.txs;
    if c :| IsAncestor(s, c, a) && !IsAncestor(s, c, p) && t in c.txs {
      assert c == b || !IsAncestor(s, c, b);
    }
  }

  /** Where everything shared is an ancestor of one block, the two branches end there. */
  lemma BranchesEnd(s: Store, a: Block, b: Block, m: Block, t: Hash)
    requires forall c :: Shared(s, a, b, c) <==> IsAncestor(s, c, m)
    ensures OnlyIn(s, a, m, t) <==> OnlyIn(s, a, b, t)
    ensures OnlyIn(s, b, m, t) <==> OnlyIn(s, b, a, t)
  {
    forall c ensures IsAncestor(s, c, m) <==> IsAncestor(s, c, a) && IsAncestor(s, c, b) {
      assert Shared(s, a, b, c) <==> IsAncestor(s, c, m);
    }
  }

  /** A child adds to its parent's branch, and leaves nothing out. */
  lemma ChildLeavesNothing(s: Store, a: Block, b: Block, t: Hash)
    requires Proper(s) && Known(s, b) && Parent(s, b) == Some(a)
    ensures !OnlyIn(s, a, b, t)
  {}

  // ---- differences -----------------------------------------------------------------------------

  function Minus(a: seq<Hash>, b: set<Hash>): seq<Hash> {
    if a == [] then []
    else if a[|a| - 1] in b then Minus(a[..|a| - 1], b)
    else Minus(a[..|a| - 1], b) + [a[|a| - 1]]
  }

  lemma {:induction false} MinusMembers(a: seq<Hash>, b: set<Hash>, t: Hash)
    ensures t in Minus(a, b) <==> t in a && t !in b
  {
    if a != [] {
      assert a == a[..|a| - 1] + [a[|a| - 1]];
      MinusMembers(a[..|a| - 1], b, t);
    }
  }

  /** What is in a and not in b, in the order of a. */
  method TxDifference(a: seq<Hash>, b: seq<Hash>) returns (keep: seq<Hash>)
    ensures keep == Minus(a, set t | t in b)
    ensures forall t :: t in keep <==> t in a && t !in b
  {
    var remove := {};
    for i := 0 to |b|
      invariant remove == set t | t in b[..i]
    {
      remove := remove + {b[i]};
    }
    assert b[..|b|] == b;
    keep := [];
    for i := 0 to |a|
      invariant keep == Minus(a[..i], remove)
    {
      assert a[..i + 1][..i] == a[..i];
      if a[i] !in remove { keep := keep + [a[i]]; }
    }
    assert a[..|a|] == a;
    forall t ensures t in keep <==> t in a && t !in b { MinusMembers(a, remove, t); }
  }

  // ---- the walk ----------------------------------------------------------------------------------

  /** From the branches of a and b the walk has come down to the blocks p and q, having left behind
      the transactions gone and come. */
  ghost predicate Walking(s: Store, a: Block, b: Block, p: Block, q: Block, gone: seq<Hash>, come: seq<Hash>) {
    && Known(s, p) && Known(s, q) && IsAncestor(s, p, a) && IsAncestor(s, q, b)
    && (forall c :: Shared(s, a, b, c) <==> Shared(s, p, q, c))
    && (forall t :: t in gone <==> OnlyIn(s, a, p, t))
    && (forall t :: t in come <==> OnlyIn(s, b, q, t))
  }

  lemma WalkingStart(s: Store, a: Block, b: Block)
    requires Known(s, a) && Known(s, b)
    ensures Walking(s, a, b, a, b, [], [])
  {}

  lemma WalkingDown(s: Store, a: Block, b: Block, p: Block, q: Block, gone: seq<Hash>, come: seq<Hash>)
    requires Proper(s) && Walking(s, a, b, p, q, gone, come) && p != q && p.number >= q.number
    ensures Known(s, p)
    ensures Parent(s, p) == None ==> forall c :: !Shared(s, a, b, c)
    ensures Parent(s, p).Some? ==> Walking(s, a, b, Parent(s, p).value, q, gone + p.txs, come)
  {
    forall c ensures Shared(s, a, b, c) <==> Parent(s, p).Some? && Shared(s, Parent(s, p).value, q, c) {
      StepDown(s, p, q, c);
    }
    if Parent(s, p).Some? {
      var r := Parent(s, p).value;
      AncestorIsTransitive(s, r, p, a);
      forall t ensures t in gone + p.txs <==> OnlyIn(s, a, r, t) { LeaveBehind(s, a, p, t); }
    }
  }

  lemma WalkingMirror(s: Store, a: Block, b: Block, p: Block, q: Block, gone: seq<Hash>, come: seq<Hash>)
    requires Walking(s, a, b, p, q, gone, come)
    ensures Walking(s, b, a, q, p, come, gone)
  {
    forall c ensures Shared(s, b, a, c) <==> Shared(s, q, p, c) {
      assert Shared(s, a, b, c) <==> Shared(s, p, q, c);
    }
  }

  datatype Reset = Reinject(txs: seq<Hash>) | Unrooted

  const MAX_DEPTH := 64

  function Depth(a: Block, b: Block): nat { if a.number > b.number then a.number - b.number else b.number - a.number }

  /** The old head, if there is one, is neither the parent of the new head nor too far from it. */
  predicate Reorganised(oldHead: Option<Block>, newHead: Block) {
    oldHead.Some? && oldHead.value.hash != newHead.parent && Depth(oldHead.value, newHead) <= MAX_DEPTH
  }

  lemma WalkingUp(s: Store, a: Block, b: Block, p: Block, q: Block, gone: seq<Hash>, come: seq<Hash>)
    requires Proper(s) && Walking(s, a, b, p, q, gone, come) && p != q && q.number >= p.number
    ensures Known(s, q)
    ensures Parent(s, q) == None ==> forall c :: !Shared(s, a, b, c)
    ensures Parent(s, q).Some? ==> Walking(s, a, b, p, Parent(s, q).value, gone, come + q.txs)
  {
    WalkingMirror(s, a, b, p, q, gone, come);
    WalkingDown(s, b, a, q, p, come, gone);
    if Parent(s, q).Some? {
      WalkingMirror(s, b, a, Parent(s, q).value, p, come + q.txs, gone);
    } else {
      forall c ensures !Shared(s, a, b, c) { assert !Shared(s, b, a, c); }
    }
  }

  /** Where the walk meets is the highest shared ancestor: every other one is an ancestor of it. */
  lemma WalkingDone(s: Store, a: Block, b: Block, p: Block, q: Block, gone: seq<Hash>, come: seq<Hash>)
    requires Walking(s, a, b, p, q, gone, come) && p.hash == q.hash
    ensures p == q && Known(s, p) && Shared(s, a, b, p) && forall c :: Shared(s, a, b, c) <==> IsAncestor(s, c, p)
    ensures forall t :: t in gone <==> OnlyIn(s, a, b, t)
    ensures forall t :: t in come <==> OnlyIn(s, b, a, t)
  {
    forall t ensures t in gone <==> OnlyIn(s, a, b, t) { BranchesEnd(s, a, b, p, t); }
    forall t ensures t in come <==> OnlyIn(s, b, a, t) { BranchesEnd(s, a, b, p, t); }
  }

  /** The transactions to put back into the pool when the head moves: those of the old branch that
      the new branch does not have. The branches meet in the highest block they share; the walk fails
      exactly if they share none. */
  method Reinjected(s: Store, oldHead: Option<Block>, newHead: Block) returns (r: Reset, ghost meet: Block)
    requires Proper(s) && Known(s, newHead) && (oldHead.Some? ==> Known(s, oldHead.value))
    ensures Reorganised(oldHead, newHead) <==>
              && oldHead.Some? && newHead.parent != oldHead.value.hash
              && newHead.number <= oldHead.value.number + 64 && oldHead.value.number <= newHead.number + 64
    ensures !Reorganised(oldHead, newHead) ==> r == Reinject([])
    ensures Reorganised(oldHead, newHead) ==> (r == Unrooted <==> forall c :: !Shared(s, oldHead.value, newHead, c))
    ensures Reorganised(oldHead, newHead) && r.Reinject? ==>
              forall c :: Shared(s, oldHead.value, newHead, c) <==> IsAncestor(s, c, meet)
    ensures Reorganised(oldHead, newHead) && r.Reinject? ==>
              forall t :: t in r.txs <==> OnlyIn(s, oldHead.value, newHead, t) && !OnlyIn(s, newHead, oldHead.value, t)
  {
    hide Walking;
    meet := newHead;
    if !Reorganised(oldHead, newHead) { return Reinject([]), meet; }
    var a, b := oldHead.value, newHead;
    var rem, add, discarded, included := a, b, [], [];
    WalkingStart(s, a, b);
    while rem.number > add.number
      invariant Walking(s, a, b, rem, add, discarded, included)
    {
      WalkingDown(s, a, b, rem, add, discarded, included);
      discarded := discarded + rem.txs;
      if Parent(s, rem) == None { return Unrooted, meet; }
      rem := Parent(s, rem).value;
    }
    while add.number > rem.number
      invariant Walking(s, a, b, rem, add, discarded, included) && add.number >= rem.number
    {
      WalkingUp(s, a, b, rem, add, discarded, included);
      included := included + add.txs;
      if Parent(s, add) == None { return Unrooted, meet; }
      add := Parent(s, add).value;
    }
    while rem.hash != add.hash
      invariant Walking(s, a, b, rem, add, discarded, included) && rem.number == add.number
      decreases rem.number
    {
      WalkingDown(s, a, b, rem, add, discarded, included);
      discarded := discarded + rem.txs;
      if Parent(s, rem) == None { return Unrooted, meet; }
      rem := Parent(s, rem).value;
      WalkingUp(s, a, b, rem, add, discarded, included);
      included := included + add.txs;
      if Parent(s, add) == None { return Unrooted, meet; }
      add := Parent(s, add).value;
    }
    WalkingDone(s, a, b, rem, add, discarded, included);
    var keep := TxDifference(discarded, included);
    r, meet := Reinject(keep), rem;
  }
}
