/** Blocks linked by parent hashes, and what it is to be an ancestor of a block. A hash stands for
    the block it was computed from, so two stored blocks with one hash are the same block. */
module Ancestry {
  import opened Options

  type Hash = int

  /** The zero hash, which is what a missing table entry reads as. */
  const NO_HASH: Hash := 0

  /** A header, with the hashes of the transactions in the body. */
  datatype Block = Block(hash: Hash, parent: Hash, number: int, difficulty: int, txs: seq<Hash>)

  type Store = map<Hash, Block>

  /** Blocks are looked up by hash and number together. */
  function Get(s: Store, h: Hash, number: int): Option<Block> {
    if h in s && s[h].number == number then Some(s[h]) else None
  }

  function Parent(s: Store, b: Block): Option<Block> { Get(s, b.parent, b.number - 1) }

  ghost predicate Proper(s: Store) {
    forall h :: h in s ==> s[h].hash == h && h != NO_HASH && s[h].number >= 0
  }

  /** Every block leads back to the genesis block. */
  ghost predicate Rooted(s: Store, genesis: Block) {
    && Proper(s) && Get(s, genesis.hash, 0) == Some(genesis)
    && forall h :: h in s && s[h] != genesis ==> Parent(s, s[h]).Some?
  }

  ghost predicate IsAncestor(s: Store, c: Block, b: Block)
    decreases b.number
  {
    c == b || (b.number > 0 && Parent(s, b).Some? && IsAncestor(s, c, Parent(s, b).value))
  }

  /** The block n parent links above the one with the given hash and number. */
  ghost function Walk(s: Store, h: Hash, number: int, n: nat): Option<(Hash, int)>
    decreases n
  {
    if n == 0 then Some((h, number))
    else match Get(s, h, number)
      case None => None
      case Some(b) => Walk(s, b.parent, number - 1, n - 1)
  }

  lemma {:induction false} AncestorIsLower(s: Store, c: Block, b: Block)
    requires IsAncestor(s, c, b)
    ensures c.number <= b.number && (c.number == b.number ==> c == b)
    decreases b.number
  {
    if c != b { AncestorIsLower(s, c, Parent(s, b).value); }
  }

  /** There is one ancestor at each height. */
  lemma {:induction false} AncestorIsUnique(s: Store, c: Block, d: Block, b: Block)
    requires IsAncestor(s, c, b) && IsAncestor(s, d, b) && c.number == d.number
    ensures c == d
    decreases b.number
  {
    if c == b {
      AncestorIsLower(s, d, b);
    } else if d == b {
      AncestorIsLower(s, c, b);
    } else {
      AncestorIsUnique(s, c, d, Parent(s, b).value);
    }
  }

  lemma {:induction false} AncestorIsStored(s: Store, c: Block, b: Block)
    requires Proper(s) && b.hash in s && s[b.hash] == b && IsAncestor(s, c, b)
    ensures c.hash in s && s[c.hash] == c
    decreases b.number
  {
    if c != b { AncestorIsStored(s, c, Parent(s, b).value); }
  }

  lemma {:induction false} AncestorIsTransitive(s: Store, c: Block, d: Block, b: Block)
    requires IsAncestor(s, c, d) && IsAncestor(s, d, b)
    ensures IsAncestor(s, c, b)
    decreases b.number
  {
    if d != b { AncestorIsTransitive(s, c, d, Parent(s, b).value); }
  }

  lemma {:induction false} GenesisIsAncestor(s: Store, genesis: Block, b: Block)
    requires Rooted(s, genesis) && b.hash in s && s[b.hash] == b
    ensures IsAncestor(s, genesis, b)
    decreases b.number
  {
    if b != genesis {
      assert Parent(s, b).Some?;
      GenesisIsAncestor(s, genesis, Parent(s, b).value);
    }
  }

  /** A block added on top of stored ones leaves the ancestry of those alone. */
  lemma {:induction false} AncestorInLarger(s: Store, t: Store, c: Block, b: Block)
    requires Proper(s) && Proper(t) && (forall h :: h in s ==> h in t && t[h] == s[h])
    requires b.number > 0 ==> Parent(s, b).Some?
    requires forall h :: h in s && s[h].number > 0 ==> Parent(s, s[h]).Some?
    ensures IsAncestor(t, c, b) <==> IsAncestor(s, c, b)
    decreases b.number
  {
    if b.number > 0 { AncestorInLarger(s, t, c, Parent(s, b).value); }
  }
}
