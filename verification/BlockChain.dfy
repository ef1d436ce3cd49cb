/** The chain of blocks: fork choice, reorganisation, and the table that finds a transaction on the
    canonical chain. */
module BlockChains {
  import opened Options
  import opened Ancestry
  import opened HeaderChains
  import opened Forks

  // ---- branches --------------------------------------------------------------------------------

  function Below(chain: seq<Block>, i: int, bottom: Block): Block
    requires 0 <= i < |chain|
  {
    if i + 1 < |chain| then chain[i + 1] else bottom
  }

  /** The blocks from top down to, and without, bottom. */
  ghost predicate Descends(s: Store, chain: seq<Block>, top: Block, bottom: Block) {
    && (forall i :: 0 <= i < |chain| ==> Known(s, chain[i]))
    && (forall i :: 0 <= i < |chain| ==> Parent(s, chain[i]) == Some(Below(chain, i, bottom)))
    && (if chain == [] then top == bottom else chain[0] == top)
  }

  lemma DescendsNowhere(s: Store, b: Block)
    ensures Descends(s, [], b, b)
  {}

  lemma DescendsFurther(s: Store, chain: seq<Block>, top: Block, b: Block)
    requires Descends(s, chain, top, b) && Known(s, b) && Parent(s, b).Some?
    ensures Descends(s, chain + [b], top, Parent(s, b).value)
  {
    var longer, p := chain + [b], Parent(s, b).value;
    forall i | 0 <= i < |longer| ensures Parent(s, longer[i]) == Some(Below(longer, i, p)) {
      if i < |chain| { assert Parent(s, chain[i]) == Some(Below(chain, i, b)); }
    }
  }

  /** Putting a block on top of its parent adds its transactions to the branch. */
  lemma BranchGrows(s: Store, a: Block, m: Block, b: Block, t: Hash)
    requires Proper(s) && Known(s, b) && Parent(s, b) == Some(a) && IsAncestor(s, m, a)
    ensures OnlyIn(s, b, m, t) <==> OnlyIn(s, a, m, t) || t in b.txs
  {
    AncestorIsLower(s, m, a);
    if IsAncestor(s, b, m) { AncestorIsLower(s, b, m); }
    assert IsAncestor(s, b, b);
    if c :| IsAncestor(s, c, b) && !IsAncestor(s, c, m) && t in c.txs {
      assert c == b || IsAncestor(s, c, a);
    }
    if c :| IsAncestor(s, c, a) && !IsAncestor(s, c, m) && t in c.txs {
      assert IsAncestor(s, c, b);
    }
  }

  /** The index of a head covers each ancestor of the head. */
  lemma CoversAncestor(s: Store, canon: Canon, head: Block, m: Block)
    requires Proper(s) && Covers(s, canon, head) && IsAncestor(s, m, head) && 0 <= m.number
    ensures Covers(s, canon, m)
  {
    IndexIsAncestry(s, canon, head, m);
  }

  lemma CoversChild(s: Store, canon: Canon, a: Block, b: Block)
    requires Proper(s) && Known(s, b) && Covers(s, canon, a) && (a == b || Parent(s, b) == Some(a))
    ensures Covers(s, canon[b.number := b.hash], b)
  {
    var canon' := canon[b.number := b.hash];
    forall i | 0 < i <= b.number ensures Follows(s, canon', i) {
      if i <= a.number { assert Follows(s, canon, i); }
    }
  }

  // ---- the lookup table --------------------------------------------------------------------------

  datatype Position = Position(block: Hash, number: int, index: int)

  type Lookup = map<Hash, Position>

  /** Transaction t is at position p of the chain that ends in head. */
  ghost predicate IsAt(s: Store, head: Block, t: Hash, p: Position) {
    && p.block in s && s[p.block].number == p.number && IsAncestor(s, s[p.block], head)
    && 0 <= p.index < |s[p.block].txs| && s[p.block].txs[p.index] == t
  }

  /** Every transaction of the chain is found, and nothing else is, apart from leftovers. */
  ghost predicate Finds(s: Store, head: Block, lookup: Lookup, leftovers: seq<Hash>) {
    && (forall t, p :: IsAt(s, head, t, p) ==> t in lookup && lookup[t] == p)
    && (forall t :: t in lookup ==> IsAt(s, head, t, lookup[t]) || t in leftovers)
  }

  /** No transaction is twice on the chain that ends in head. */
  ghost predicate Once(s: Store, head: Block) {
    forall t, p, q :: IsAt(s, head, t, p) && IsAt(s, head, t, q) ==> p == q
  }

  /** No chain repeats a transaction, and the lookup table is what a scan of the one that ends in head gives. */
  ghost predicate Scanned(s: Store, head: Block, lookup: Lookup) {
    Finds(s, head, lookup, []) && forall h :: h in s ==> Once(s, s[h])
  }

  /** The entries for the first n transactions of a block. */
  function Entries(lookup: Lookup, b: Block, n: nat): Lookup
    requires n <= |b.txs|
  {
    if n == 0 then lookup
    else Entries(lookup, b, n - 1)[b.txs[n - 1] := Position(b.hash, b.number, n - 1)]
  }

  lemma {:induction false} EntriesAre(lookup: Lookup, b: Block, n: nat, t: Hash)
    requires n <= |b.txs|
    ensures t in Entries(lookup, b, n) <==> t in lookup || t in b.txs[..n]
    ensures t !in b.txs[..n] && t in lookup ==> Entries(lookup, b, n)[t] == lookup[t]
    ensures t in b.txs[..n] ==>
              var p := Entries(lookup, b, n)[t];
              p.block == b.hash && p.number == b.number && 0 <= p.index < n && b.txs[p.index] == t
  {
    if n != 0 {
      assert b.txs[..n] == b.txs[..n - 1] + [b.txs[n - 1]];
      EntriesAre(lookup, b, n - 1, t);
    }
  }

  lemma EntryIsAt(s: Store, b: Block, lookup: Lookup, t: Hash)
    requires Known(s, b) && t in b.txs
    ensures var lookup' := Entries(lookup, b, |b.txs|); t in lookup' && IsAt(s, b, t, lookup'[t])
  {
    EntriesAre(lookup, b, |b.txs|, t);
    assert b.txs[..|b.txs|] == b.txs && IsAncestor(s, b, b);
  }

  lemma EntryIsKept(b: Block, lookup: Lookup, t: Hash)
    requires t !in b.txs
    ensures var lookup' := Entries(lookup, b, |b.txs|);
            (t in lookup' <==> t in lookup) && (t in lookup ==> lookup'[t] == lookup[t])
  {
    EntriesAre(lookup, b, |b.txs|, t);
    assert b.txs[..|b.txs|] == b.txs;
  }

  lemma IsAtChild(s: Store, a: Block, b: Block, t: Hash, p: Position)
    requires Proper(s) && Known(s, b) && (a == b || Parent(s, b) == Some(a))
    ensures IsAt(s, a, t, p) ==> IsAt(s, b, t, p)
    ensures IsAt(s, b, t, p) && t !in b.txs ==> IsAt(s, a, t, p)
  {}

  /** Entering the transactions of the next block, or of the last one again. */
  lemma FindsChild(s: Store, a: Block, b: Block, lookup: Lookup, leftovers: seq<Hash>)
    requires Proper(s) && Known(s, b) && (a == b || Parent(s, b) == Some(a)) && Once(s, b)
    requires Finds(s, a, lookup, leftovers)
    ensures Finds(s, b, Entries(lookup, b, |b.txs|), leftovers)
  {
    hide IsAt, Entries, Parent;
    var lookup' := Entries(lookup, b, |b.txs|);
    forall t, p | IsAt(s, b, t, p) ensures t in lookup' && lookup'[t] == p {
      if t in b.txs {
        EntryIsAt(s, b, lookup, t);
      } else {
        IsAtChild(s, a, b, t, p);
        EntryIsKept(b, lookup, t);
      }
    }
    forall t | t in lookup' ensures IsAt(s, b, t, lookup'[t]) || t in leftovers {
      if t in b.txs {
        EntryIsAt(s, b, lookup, t);
      } else {
        EntryIsKept(b, lookup, t);
        IsAtChild(s, a, b, t, lookup'[t]);
      }
    }
  }

  /** Seen from an ancestor of the head, the transactions of the blocks in between are leftovers. */
  lemma FindsAncestor(s: Store, head: Block, m: Block, lookup: Lookup, gone: seq<Hash>)
    requires Finds(s, head, lookup, []) && IsAncestor(s, m, head)
    requires forall t :: t in gone <==> OnlyIn(s, head, m, t)
    ensures Finds(s, m, lookup, gone)
  {
    forall t, p | IsAt(s, m, t, p) ensures t in lookup && lookup[t] == p {
      AncestorIsTransitive(s, s[p.block], m, head);
      assert IsAt(s, head, t, p);
    }
    forall t | t in lookup ensures IsAt(s, m, t, lookup[t]) || t in gone {
      assert IsAt(s, head, t, lookup[t]);
      if t !in gone { assert !OnlyIn(s, head, m, t); }
    }
  }

  /** One block put on top of its parent. */
  lemma Grafted(s: Store, canon: Canon, lookup: Lookup, a: Block, b: Block, m: Block, gone: seq<Hash>, come: seq<Hash>)
    requires Proper(s) && Known(s, b) && Parent(s, b) == Some(a) && IsAncestor(s, m, a)
    requires Covers(s, canon, a) && forall t :: t in come <==> OnlyIn(s, a, m, t)
    ensures IsAncestor(s, m, b) && Covers(s, canon[b.number := b.hash], b)
    ensures Once(s, b) && Finds(s, a, lookup, gone) ==> Finds(s, b, Entries(lookup, b, |b.txs|), gone)
    ensures forall t :: t in come + b.txs <==> OnlyIn(s, b, m, t)
  {
    hide Covers, Finds, Once, OnlyIn;
    CoversChild(s, canon, a, b);
    if Once(s, b) && Finds(s, a, lookup, gone) { FindsChild(s, a, b, lookup, gone); }
    forall t ensures t in come + b.txs <==> OnlyIn(s, b, m, t) { BranchGrows(s, a, m, b, t); }
  }

  lemma OnlyInNone(s: Store, b: Block)
    ensures forall t :: !OnlyIn(s, b, b, t)
  {}

  lemma MeetIsShared(s: Store, a: Block, b: Block, m: Block)
    requires Proper(s) && Known(s, m) && forall c :: Shared(s, a, b, c) <==> IsAncestor(s, c, m)
    ensures IsAncestor(s, m, a) && IsAncestor(s, m, b) && 0 <= m.number
  {
    assert IsAncestor(s, m, m);
    assert Shared(s, a, b, m);
  }

  lemma SamePlace(s: Store, past: Block, next: Block, m: Block, t: Hash, p: Position, q: Position)
    requires Once(s, past) && IsAncestor(s, m, past) && IsAt(s, next, t, p) && IsAt(s, past, t, q)
    requires IsAncestor(s, s[p.block], m)
    ensures p == q
  {
    AncestorIsTransitive(s, s[p.block], m, past);
    assert IsAt(s, past, t, p);
  }

  /** What the old branch has after the fork, the new chain can only have after the fork too. */
  lemma OnceMeansComes(s: Store, past: Block, next: Block, m: Block, t: Hash, p: Position)
    requires Proper(s) && Known(s, past) && Once(s, past) && IsAncestor(s, m, past)
    requires OnlyIn(s, past, m, t) && IsAt(s, next, t, p)
    ensures OnlyIn(s, next, m, t)
  {
    var c :| IsAncestor(s, c, past) && !IsAncestor(s, c, m) && t in c.txs;
    AncestorIsStored(s, c, past);
    var i :| 0 <= i < |c.txs| && c.txs[i] == t;
    var q := Position(c.hash, c.number, i);
    assert IsAt(s, past, t, q) && s[q.block] == c;
    if IsAncestor(s, s[p.block], m) { SamePlace(s, past, next, m, t, p, q); }
  }

  /** The leftovers of the old branch can go, except for what the new branch has too. */
  lemma FindsPurged(s: Store, past: Block, next: Block, m: Block, lookup: Lookup, lookup': Lookup,
                    gone: seq<Hash>, come: seq<Hash>)
    requires Once(s, past) && IsAncestor(s, m, past) && Finds(s, next, lookup, gone)
    requires forall t :: t in gone <==> OnlyIn(s, past, m, t)
    requires forall t :: t in come <==> OnlyIn(s, next, m, t)
    requires Proper(s) && Known(s, past) && Known(s, next)
    requires forall t :: t in lookup' <==> t in lookup && !(t in gone && t !in come)
    requires forall t :: t in lookup' ==> lookup'[t] == lookup[t]
    ensures Finds(s, next, lookup', [])
  {
    forall t, p | IsAt(s, next, t, p) ensures t in lookup' && lookup'[t] == p {
      if t in gone {
        assert OnlyIn(s, past, m, t);
        OnceMeansComes(s, past, next, m, t, p);
      }
    }
    forall t | t in lookup' ensures IsAt(s, next, t, lookup'[t]) {
      if t in gone {
        assert OnlyIn(s, next, m, t);
        var c :| IsAncestor(s, c, next) && !IsAncestor(s, c, m) && t in c.txs;
        AncestorIsStored(s, c, next);
        var i :| 0 <= i < |c.txs| && c.txs[i] == t;
        assert IsAt(s, next, t, Position(c.hash, c.number, i));
      }
    }
  }

  /** Storing another block does not move a transaction on a stored chain. */
  lemma IsAtInLarger(s: Store, genesis: Block, b: Block, head: Block, t: Hash, p: Position)
    requires Rooted(s, genesis) && Proper(s[b.hash := b]) && (b.hash in s ==> s[b.hash] == b) && Known(s, head)
    ensures IsAt(s[b.hash := b], head, t, p) <==> IsAt(s, head, t, p)
  {
    var s' := s[b.hash := b];
    if p.block in s' {
      var c := s'[p.block];
      forall h | h in s && s[h].number > 0 ensures Parent(s, s[h]).Some? {}
      assert Known(s, head);
      AncestorInLarger(s, s', c, head);
      if IsAncestor(s, c, head) { AncestorIsStored(s, c, head); }
    }
  }

  lemma StoreFinds(s: Store, genesis: Block, b: Block, head: Block, lookup: Lookup)
    requires Rooted(s, genesis) && Proper(s[b.hash := b]) && (b.hash in s ==> s[b.hash] == b) && Known(s, head)
    requires Finds(s, head, lookup, [])
    ensures Finds(s[b.hash := b], head, lookup, [])
  {
    hide IsAt;
    var s' := s[b.hash := b];
    forall t, p | IsAt(s', head, t, p) ensures t in lookup && lookup[t] == p {
      IsAtInLarger(s, genesis, b, head, t, p);
    }
    forall t | t in lookup ensures IsAt(s', head, t, lookup[t]) {
      IsAtInLarger(s, genesis, b, head, t, lookup[t]);
    }
  }

  lemma StoreOnce(s: Store, genesis: Block, b: Block, head: Block)
    requires Rooted(s, genesis) && Proper(s[b.hash := b]) && (b.hash in s ==> s[b.hash] == b) && Known(s, head)
    requires Once(s, head)
    ensures Once(s[b.hash := b], head)
  {
    hide IsAt;
    var s' := s[b.hash := b];
    forall t, p, q | IsAt(s', head, t, p) && IsAt(s', head, t, q) ensures p == q {
      IsAtInLarger(s, genesis, b, head, t, p);
      IsAtInLarger(s, genesis, b, head, t, q);
    }
  }

  /** Any two blocks of a rooted tree share an ancestor. */
  lemma MeetSomewhere(s: Store, genesis: Block, a: Block, b: Block)
    requires Rooted(s, genesis) && Known(s, a) && Known(s, b)
    ensures Proper(s) && Shared(s, a, b, genesis)
  {
    GenesisIsAncestor(s, genesis, a);
    GenesisIsAncestor(s, genesis, b);
  }

  lemma ParentByHash(s: Store, b: Block)
    requires Parent(s, b).Some?
    ensures b.parent in s && Parent(s, b) == Some(s[b.parent])
  {}

  /** Storing a block, before anything is made of it. */
  lemma Stored(s: Store, td: Difficulties, genesis: Block, canon: Canon, head: Block, lookup: Lookup, b: Block, d: int)
    requires Rooted(s, genesis) && Accumulated(s, td, genesis) && Known(s, head) && Covers(s, canon, head)
    requires Parent(s, b).Some? && b.hash != NO_HASH && (b.hash in s ==> s[b.hash] == b)
    requires b.parent in td && d == td[b.parent] + b.difficulty
    ensures var s' := s[b.hash := b];
            && Rooted(s', genesis) && Accumulated(s', td[b.hash := d], genesis) && (b.hash in td ==> td[b.hash] == d)
            && Known(s', head) && Known(s', b) && Parent(s', b).Some? && Covers(s', canon, head)
            && (Scanned(s, head, lookup) && Once(s', b) ==> Scanned(s', head, lookup))
  {
    hide Covers, Finds, Once, Accumulated;
    StoreRooted(s, genesis, b);
    StoreAccumulated(s, td, genesis, b, d);
    StoreCovers(s, canon, head, b);
    var s' := s[b.hash := b];
    if Scanned(s, head, lookup) && Once(s', b) {
      StoreFinds(s, genesis, b, head, lookup);
      forall h | h in s' ensures Once(s', s'[h]) {
        if h != b.hash { StoreOnce(s, genesis, b, s[h]); }
      }
    }
  }

  // ---- the chain ---------------------------------------------------------------------------------

  class BlockChain {
    const genesis: Block
    var blocks: Store
    var td: Difficulties
    var canon: Canon
    var head: Block
    var headHeader: Hash
    var headFast: Hash
    var lookup: Lookup

    /** The head is the heaviest block, and the numbers up to it index its chain. */
    ghost predicate Valid()
      reads this
    {
      && Rooted(blocks, genesis) && Accumulated(blocks, td, genesis) && Heaviest(td, head)
      && Known(blocks, head) && Covers(blocks, canon, head)
    }

    constructor (g: Block)
      requires g.number == 0 && g.hash != NO_HASH && g.txs == []
      ensures Valid() && Scanned(blocks, head, lookup) && genesis == g && head == g && blocks == map[g.hash := g]
    {
      genesis, blocks, td, canon, head := g, map[g.hash := g], map[g.hash := g.difficulty], map[0 := g.hash], g;
      headHeader, headFast, lookup := g.hash, g.hash, map[];
    }

    /** Puts a block on the index and makes it the head. The other heads follow unless the index
        had the block already. */
    method Insert(block: Block)
      modifies this`canon, this`head, this`headHeader, this`headFast
      ensures canon == old(canon)[block.number := block.hash] && head == block
      ensures if HashAt(old(canon), block.number) != block.hash then headHeader == headFast == block.hash
              else headHeader == old(headHeader) && headFast == old(headFast)
    {
      var updateHeads := HashAt(canon, block.number) != block.hash;
      canon := canon[block.number := block.hash];
      head := block;
      if updateHeads { headHeader, headFast := block.hash, block.hash; }
    }

    method WriteLookupEntries(block: Block)
      modifies this`lookup
      ensures lookup == Entries(old(lookup), block, |block.txs|)
    {
      for i := 0 to |block.txs|
        invariant lookup == Entries(old(lookup), block, i)
      {
        lookup := lookup[block.txs[i] := Position(block.hash, block.number, i)];
      }
    }

    method DeleteLookupEntries(txs: seq<Hash>)
      modifies this`lookup
      ensures forall t :: t in lookup <==> t in old(lookup) && t !in txs
      ensures forall t :: t in lookup ==> lookup[t] == old(lookup)[t]
    {
      for i := 0 to |txs|
        invariant forall t :: t in lookup <==> t in old(lookup) && t !in txs[..i]
        invariant forall t :: t in lookup ==> lookup[t] == old(lookup)[t]
      {
        lookup := lookup - {txs[i]};
      }
      assert txs[..|txs|] == txs;
    }

    /** Where the branches of two blocks meet: the blocks of the new one, the transactions of the old. */
    method FindFork(oldBlock: Block, newBlock: Block)
      returns (ok: bool, newChain: seq<Block>, deletedTxs: seq<Hash>, ghost meet: Block)
      requires Proper(blocks) && Known(blocks, oldBlock) && Known(blocks, newBlock)
      ensures !ok <==> forall c :: !Shared(blocks, oldBlock, newBlock, c)
      ensures ok ==> Descends(blocks, newChain, newBlock, meet) && Known(blocks, meet)
      ensures ok ==> forall c :: Shared(blocks, oldBlock, newBlock, c) <==> IsAncestor(blocks, c, meet)
      ensures ok ==> forall t :: t in deletedTxs <==> OnlyIn(blocks, oldBlock, meet, t)
    {
      hide Walking, Descends;
      ok, newChain, deletedTxs, meet := false, [], [], newBlock;
      var o, n := oldBlock, newBlock;
      ghost var addedTxs := [];
      WalkingStart(blocks, oldBlock, newBlock);
      DescendsNowhere(blocks, newBlock);
      if o.number > n.number {
        while o.number != n.number
          invariant Walking(blocks, oldBlock, newBlock, o, n, deletedTxs, addedTxs) && o.number >= n.number
          decreases o.number
        {
          WalkingDown(blocks, oldBlock, newBlock, o, n, deletedTxs, addedTxs);
          deletedTxs := deletedTxs + o.txs;
          if Parent(blocks, o) == None { return; }
          o := Parent(blocks, o).value;
        }
      } else {
        while n.number != o.number
          invariant Walking(blocks, oldBlock, newBlock, o, n, deletedTxs, addedTxs) && o.number <= n.number
          invariant Descends(blocks, newChain, newBlock, n)
          decreases n.number
        {
          WalkingUp(blocks, oldBlock, newBlock, o, n, deletedTxs, addedTxs);
          if Parent(blocks, n) == None { return; }
          DescendsFurther(blocks, newChain, newBlock, n);
          newChain, addedTxs := newChain + [n], addedTxs + n.txs;
          n := Parent(blocks, n).value;
        }
      }
      while o.hash != n.hash
        invariant Walking(blocks, oldBlock, newBlock, o, n, deletedTxs, addedTxs) && o.number == n.number
        invariant Descends(blocks, newChain, newBlock, n)
        decreases o.number
      {
        WalkingDown(blocks, oldBlock, newBlock, o, n, deletedTxs, addedTxs);
        deletedTxs := deletedTxs + o.txs;
        if Parent(blocks, o) == None { return; }
        o := Parent(blocks, o).value;
        WalkingUp(blocks, oldBlock, newBlock, o, n, deletedTxs, addedTxs);
        if Parent(blocks, n) == None { return; }
        DescendsFurther(blocks, newChain, newBlock, n);
        newChain, addedTxs := newChain + [n], addedTxs + n.txs;
        n := Parent(blocks, n).value;
      }
      WalkingDone(blocks, oldBlock, newBlock, o, n, deletedTxs, addedTxs);
      ok, meet := true, o;
    }

    /** Puts the blocks of a branch on the index, lowest first, and their transactions on the table. */
    method Graft(newChain: seq<Block>, newBlock: Block, ghost meet: Block, ghost gone: seq<Hash>)
      returns (addedTxs: seq<Hash>)
      requires Proper(blocks) && Known(blocks, meet) && Descends(blocks, newChain, newBlock, meet)
      requires Covers(blocks, canon, meet)
      modifies this`canon, this`head, this`headHeader, this`headFast, this`lookup
      ensures Covers(blocks, canon, newBlock)
      ensures old(Finds(blocks, meet, lookup, gone)) && (forall h :: h in blocks ==> Once(blocks, blocks[h])) ==>
                Finds(blocks, newBlock, lookup, gone)
      ensures forall t :: t in addedTxs <==> OnlyIn(blocks, newBlock, meet, t)
      ensures head == if newChain == [] then old(head) else newBlock
    {
      hide Covers, Finds, Once, OnlyIn, Parent, Proper;
      addedTxs := [];
      ghost var top := meet;
      OnlyInNone(blocks, meet);
      var i := |newChain|;
      while i > 0
        invariant 0 <= i <= |newChain| && top == (if i < |newChain| then newChain[i] else meet)
        invariant IsAncestor(blocks, meet, top)
        invariant Covers(blocks, canon, top)
        invariant old(Finds(blocks, meet, lookup, gone)) && (forall h :: h in blocks ==> Once(blocks, blocks[h])) ==>
                    Finds(blocks, top, lookup, gone)
        invariant forall t :: t in addedTxs <==> OnlyIn(blocks, top, meet, t)
        invariant head == if i == |newChain| then old(head) else newChain[i]
      {
        i := i - 1;
        var b := newChain[i];
        assert Parent(blocks, b) == Some(Below(newChain, i, meet)) && blocks[b.hash] == b;
        Grafted(blocks, canon, lookup, top, b, meet, gone, addedTxs);
        Insert(b);
        WriteLookupEntries(b);
        addedTxs := addedTxs + b.txs;
        top := b;
      }
    }

    /** Moves the index and the table from one branch to another. It fails, without touching them,
        exactly if the branches never meet. */
    method Reorg(oldBlock: Block, newBlock: Block) returns (ok: bool)
      requires Proper(blocks) && Known(blocks, oldBlock) && Known(blocks, newBlock)
      requires Covers(blocks, canon, oldBlock)
      modifies this`canon, this`head, this`headHeader, this`headFast, this`lookup
      ensures !ok <==> forall c :: !Shared(blocks, oldBlock, newBlock, c)
      ensures !ok ==> canon == old(canon) && head == old(head) && lookup == old(lookup)
      ensures ok ==> Covers(blocks, canon, newBlock)
      ensures ok && old(Scanned(blocks, oldBlock, lookup)) ==> Scanned(blocks, newBlock, lookup)
    {
      hide Covers, Finds, Once, OnlyIn, Descends, Proper, IsAncestor;
      var newChain, deletedTxs;
      ghost var meet;
      ok, newChain, deletedTxs, meet := FindFork(oldBlock, newBlock);
      if ok {
        MeetIsShared(blocks, oldBlock, newBlock, meet);
        CoversAncestor(blocks, canon, oldBlock, meet);
        if Scanned(blocks, oldBlock, lookup) { FindsAncestor(blocks, oldBlock, meet, lookup, deletedTxs); }
        var addedTxs := Graft(newChain, newBlock, meet, deletedTxs);
        var diff := TxDifference(deletedTxs, addedTxs);
        ghost var full := lookup;
        DeleteLookupEntries(diff);
        assert blocks[oldBlock.hash] == oldBlock;
        if old(Scanned(blocks, oldBlock, lookup)) {
          FindsPurged(blocks, oldBlock, newBlock, meet, full, lookup, deletedTxs, addedTxs);
        }
      }
    }

    /** Whether a block takes over from the head: more weight wins; of equal weight the lower number
        does; of equal number the one to preserve does, or else a coin decides. */
    predicate Prefers(block: Block, weight: int, preserve: Block -> bool, coin: bool)
      requires head.hash in td
      reads this
    {
      || weight > td[head.hash]
      || (weight == td[head.hash]
          && (block.number < head.number
              || (block.number == head.number && !preserve(head) && (preserve(block) || coin))))
    }

    /** Puts a stored block at the top of the index and the table, whichever branch it is on. In a
        rooted tree the branches meet, so the reorganisation does not fail. */
    method Adopt(block: Block)
      requires Rooted(blocks, genesis) && Known(blocks, head) && Covers(blocks, canon, head)
      requires Known(blocks, block) && Parent(blocks, block).Some?
      modifies this`canon, this`head, this`headHeader, this`headFast, this`lookup
      ensures head == block && Covers(blocks, canon, block)
      ensures old(Scanned(blocks, head, lookup)) ==> Scanned(blocks, block, lookup)
    {
      hide Covers, Finds, Once, Parent, IsAncestor;
      ghost var below := head;
      if block.parent != head.hash {
        MeetSomewhere(blocks, genesis, head, block);
        var _ := Reorg(head, block);
        below := block;
      } else {
        ParentByHash(blocks, block);
      }
      CoversChild(blocks, canon, below, block);
      if old(Scanned(blocks, head, lookup)) {
        assert Once(blocks, blocks[block.hash]);
        FindsChild(blocks, below, block, lookup, []);
      }
      WriteLookupEntries(block);
      Insert(block);
    }

    /** Stores a block whose parent is known, and makes it the head if it is to be preferred. The lookup table
        remains what a scan of the chain gives as long as no chain repeats a transaction. */
    method WriteBlock(block: Block, preserve: Block -> bool, coin: bool) returns (status: Status)
      requires Valid() && block.hash != NO_HASH
      requires block.hash in blocks ==> blocks[block.hash] == block
      modifies this
      ensures Valid()
      ensures old(Scanned(blocks, head, lookup)) && (status == Unknown || Once(blocks, block)) ==>
                Scanned(blocks, head, lookup)
      ensures status == Unknown <==> Parent(old(blocks), block) == None
      ensures status == Unknown ==> blocks == old(blocks) && td == old(td) && canon == old(canon) && head == old(head)
      ensures status != Unknown ==> blocks == old(blocks)[block.hash := block]
      ensures status != Unknown ==> td == old(td)[block.hash := old(td)[block.parent] + block.difficulty]
      ensures status != Unknown ==>
                var weight, held := td[block.hash], old(td)[old(head).hash];
                && (weight > held ==> status == Canonical)
                && (weight < held ==> status == Side)
                && (weight == held && block.number < old(head).number ==> status == Canonical)
                && (weight == held && block.number > old(head).number ==> status == Side)
                && (weight == held && block.number == old(head).number ==>
                      (status == Canonical <==> !preserve(old(head)) && (preserve(block) || coin)))
      ensures status == Canonical ==> head == block
      ensures status == Side ==> head == old(head) && canon == old(canon) && lookup == old(lookup)
      ensures td[head.hash] >= old(td[head.hash])
    {
      hide Rooted, Accumulated, Covers, Finds, Once;
      if Parent(blocks, block) == None { return Unknown; }
      ParentIsWeighed(blocks, td, genesis, block);
      var externTd := block.difficulty + td[block.parent];
      var reorg := Prefers(block, externTd, preserve, coin);
      Stored(blocks, td, genesis, canon, head, lookup, block, externTd);
      td := td[block.hash := externTd];
      blocks := blocks[block.hash := block];
      if reorg {
        Adopt(block);
        status := Canonical;
      } else {
        status := Side;
      }
    }
  }
}
