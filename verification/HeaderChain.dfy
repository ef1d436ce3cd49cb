/** The chain of headers: fork choice by total difficulty, and the index of the canonical chain. */
module HeaderChains {
  import opened Options
  import opened Ancestry

  type Canon = map<int, Hash>

  /** What the canonical table says; the zero hash where there is no entry. */
  function HashAt(canon: Canon, number: int): Hash {
    if number in canon then canon[number] else NO_HASH
  }

  predicate Follows(s: Store, canon: Canon, i: int) {
    i in canon && canon[i] in s && s[canon[i]].parent == HashAt(canon, i - 1)
  }

  /** The entries from lo to hi are stored blocks, each the parent of the next. */
  ghost predicate Chained(s: Store, canon: Canon, lo: int, hi: int) {
    && (forall i :: lo <= i <= hi ==> i in canon && Get(s, canon[i], i).Some?)
    && (forall i :: lo < i <= hi ==> Follows(s, canon, i))
  }

  /** The index is the chain of the head as far as the head. */
  ghost predicate Covers(s: Store, canon: Canon, head: Block) {
    0 <= head.number && Chained(s, canon, 0, head.number) && s[canon[head.number]] == head
  }

  /** The index is the chain of the head, up to the head and no further. */
  ghost predicate Indexes(s: Store, canon: Canon, head: Block) {
    && Covers(s, canon, head)
    && forall i :: i in canon ==> 0 <= i <= head.number
  }

  lemma {:induction false} ChainedIsAncestor(s: Store, canon: Canon, lo: int, hi: int)
    requires 0 <= lo <= hi && Proper(s) && Chained(s, canon, lo, hi)
    ensures IsAncestor(s, s[canon[lo]], s[canon[hi]])
    decreases hi - lo
  {
    if lo < hi {
      ChainedIsAncestor(s, canon, lo, hi - 1);
      assert Follows(s, canon, hi);
      assert Parent(s, s[canon[hi]]) == Some(s[canon[hi - 1]]);
    }
  }

  /** The canonical block at each height is the one ancestor of the head there. */
  lemma IndexIsAncestry(s: Store, canon: Canon, head: Block, c: Block)
    requires Proper(s) && Covers(s, canon, head) && 0 <= c.number
    ensures IsAncestor(s, c, head) <==> c.number <= head.number && c == s[canon[c.number]]
  {
    if IsAncestor(s, c, head) {
      AncestorIsLower(s, c, head);
      ChainedIsAncestor(s, canon, c.number, head.number);
      AncestorIsUnique(s, c, s[canon[c.number]], head);
    } else if c.number <= head.number {
      ChainedIsAncestor(s, canon, c.number, head.number);
    }
  }

  /** An index of exactly the heights 0 to top. */
  ghost predicate UpTo(s: Store, canon: Canon, top: int) {
    0 <= top && Chained(s, canon, 0, top) && forall i :: i in canon ==> 0 <= i <= top
  }

  /** Walking down from a canonical block follows the index. */
  lemma {:induction false} CanonicalWalk(s: Store, canon: Canon, top: int, i: int, n: nat)
    requires Proper(s) && UpTo(s, canon, top) && 0 <= n <= i <= top
    ensures Walk(s, canon[i], i, n) == Some((canon[i - n], i - n))
    decreases n
  {
    if n != 0 {
      assert Follows(s, canon, i);
      CanonicalWalk(s, canon, top, i - 1, n - 1);
    }
  }

  type Difficulties = map<Hash, int>

  /** Total difficulty: the parent's plus the block's own. */
  ghost predicate Accumulated(s: Store, td: Difficulties, genesis: Block) {
    && td.Keys == s.Keys
    && forall h :: h in s && s[h] != genesis ==> s[h].parent in td && td[h] == td[s[h].parent] + s[h].difficulty
  }

  /** No stored block is heavier than the head. */
  ghost predicate Heaviest(td: Difficulties, head: Block) {
    head.hash in td && forall h :: h in td ==> td[h] <= td[head.hash]
  }

  /** Storing a block whose parent is there. */
  lemma StoreRooted(s: Store, genesis: Block, b: Block)
    requires Rooted(s, genesis) && Parent(s, b).Some? && b.hash != NO_HASH
    requires b.hash in s ==> s[b.hash] == b
    ensures Rooted(s[b.hash := b], genesis) && b != genesis
  {
    var t := s[b.hash := b];
    forall h | h in t && t[h] != genesis ensures Parent(t, t[h]).Some? {
      if h != b.hash { assert Parent(s, s[h]).Some?; }
    }
  }

  lemma StoreCovers(s: Store, canon: Canon, head: Block, b: Block)
    requires Covers(s, canon, head) && (b.hash in s ==> s[b.hash] == b)
    ensures Covers(s[b.hash := b], canon, head)
  {
    var t := s[b.hash := b];
    forall i | 0 <= i <= head.number ensures Get(t, canon[i], i) == Get(s, canon[i], i) {
      assert Get(s, canon[i], i).Some?;
    }
    forall i | 0 < i <= head.number ensures Follows(t, canon, i) {
      assert Follows(s, canon, i);
    }
  }

  lemma StoreIndexes(s: Store, canon: Canon, head: Block, b: Block)
    requires Indexes(s, canon, head) && (b.hash in s ==> s[b.hash] == b)
    ensures Indexes(s[b.hash := b], canon, head)
  {
    StoreCovers(s, canon, head, b);
  }

  lemma ParentIsWeighed(s: Store, td: Difficulties, genesis: Block, b: Block)
    requires Accumulated(s, td, genesis) && Parent(s, b).Some?
    ensures b.parent in td
  {}

  lemma StoreAccumulated(s: Store, td: Difficulties, genesis: Block, b: Block, d: int)
    requires Rooted(s, genesis) && Accumulated(s, td, genesis) && Parent(s, b).Some?
    requires b.hash in s ==> s[b.hash] == b
    requires d == td[b.parent] + b.difficulty
    ensures Accumulated(s[b.hash := b], td[b.hash := d], genesis) && (b.hash in td ==> td[b.hash] == d)
  {
    if b.hash in s {
      assert td[b.hash] == d;
      assert td[b.hash := d] == td && s[b.hash := b] == s;
    } else {
      forall h | h in s && s[h] != genesis ensures s[h].parent != b.hash {
        assert Parent(s, s[h]).Some?;
      }
    }
  }

  /** The index canon0 has been rewritten to the chain of a block, down to the height above n, where
      the block to write next is h. */
  ghost predicate Rewriting(s: Store, canon0: Canon, canon: Canon, hash: Hash, number: int, h: Hash, n: int) {
    && 0 <= n <= number && Get(s, h, n).Some?
    && (if n == number then h == hash else HashAt(canon, number) == hash)
    && Chained(s, canon, n + 1, number)
    && (n < number ==> s[canon[n + 1]].parent == h)
    && (forall i :: i <= n ==> HashAt(canon, i) == HashAt(canon0, i) && (i in canon <==> i in canon0))
    && (forall i :: i in canon ==> i in canon0 || 0 <= i <= number)
  }

  lemma RewritingStart(s: Store, genesis: Block, canon: Canon, hash: Hash, number: int)
    requires Rooted(s, genesis) && Get(s, hash, number).Some?
    ensures Rewriting(s, canon, canon, hash, number, hash, number)
  {}

  lemma HasParent(s: Store, genesis: Block, h: Hash)
    requires Rooted(s, genesis) && h in s && s[h].number > 0
    ensures Parent(s, s[h]).Some?
  {}

  lemma OnlyGenesis(s: Store, genesis: Block, h: Hash)
    requires Rooted(s, genesis) && Get(s, h, 0).Some?
    ensures h == genesis.hash
  {
    assert Parent(s, s[h]).None?;
  }

  /** A block that is not the canonical one of its height has a parent. */
  lemma AboveGenesis(s: Store, genesis: Block, canon: Canon, top: int, h: Hash, n: int)
    requires Rooted(s, genesis) && UpTo(s, canon, top) && 0 <= n && Get(s, h, n).Some? && HashAt(canon, n) != h
    ensures 0 < n && Parent(s, s[h]).Some?
  {
    hide Rooted;
    if n == 0 {
      OnlyGenesis(s, genesis, h);
      assert Get(s, canon[0], 0).Some?;
      OnlyGenesis(s, genesis, canon[0]);
    }
    HasParent(s, genesis, h);
  }

  lemma ChainedDown(s: Store, canon: Canon, hi: int, h: Hash, n: int)
    requires n <= hi && Chained(s, canon, n + 1, hi) && Get(s, h, n).Some? && (n < hi ==> s[canon[n + 1]].parent == h)
    ensures Chained(s, canon[n := h], n, hi)
  {
    var canon' := canon[n := h];
    forall i | n < i <= hi ensures Follows(s, canon', i) {
      if n + 1 < i { assert Follows(s, canon, i); }
    }
  }

  lemma RewritingStep(s: Store, genesis: Block, canon0: Canon, top: int, canon: Canon, hash: Hash, number: int,
                      h: Hash, n: int)
    requires Rooted(s, genesis) && UpTo(s, canon0, top)
    requires Rewriting(s, canon0, canon, hash, number, h, n) && HashAt(canon, n) != h
    ensures 0 < n && h in s && Rewriting(s, canon0, canon[n := h], hash, number, s[h].parent, n - 1)
  {
    hide Chained, UpTo, Rooted;
    assert HashAt(canon, n) == HashAt(canon0, n);
    AboveGenesis(s, genesis, canon0, top, h, n);
    ChainedDown(s, canon, number, h, n);
  }

  lemma RewritingDone(s: Store, genesis: Block, canon0: Canon, top: int, canon: Canon, hash: Hash, number: int,
                      h: Hash, n: int)
    requires Rooted(s, genesis) && UpTo(s, canon0, top)
    requires Rewriting(s, canon0, canon, hash, number, h, n) && HashAt(canon, n) == h
    ensures Chained(s, canon, 0, number) && canon[number] == hash
    ensures forall i :: i in canon ==> i in canon0 || 0 <= i <= number
  {
    assert n in canon && n <= top;
    forall i | 0 <= i <= number ensures i in canon && Get(s, canon[i], i).Some? {
      if i <= n { assert HashAt(canon, i) == HashAt(canon0, i); }
    }
    forall i | 0 < i <= number ensures Follows(s, canon, i) {
      if i <= n {
        assert Follows(s, canon0, i);
        assert HashAt(canon, i) == HashAt(canon0, i) && HashAt(canon, i - 1) == HashAt(canon0, i - 1);
      } else if i == n + 1 {
        assert canon[n + 1] in s;
      }
    }
  }

  ghost predicate Among(chain: seq<Block>, n: nat, h: Hash)
    requires n <= |chain|
  {
    exists i :: 0 <= i < n && chain[i].hash == h
  }

  /** The first n headers of a chain have been added to those that were there. */
  ghost predicate Ingested(s0: Store, s: Store, chain: seq<Block>, n: nat)
    requires n <= |chain|
  {
    && (forall h :: h in s <==> h in s0 || Among(chain, n, h))
    && (forall h :: h in s0 ==> h in s && s[h] == s0[h])
    && (forall i :: 0 <= i < n ==> chain[i].hash in s && s[chain[i].hash] == chain[i])
  }

  lemma NothingIngested(s: Store, chain: seq<Block>)
    ensures Ingested(s, s, chain, 0)
  {}

  /** The next header is known already, or can be added. */
  lemma IngestedNext(s0: Store, s: Store, chain: seq<Block>, n: nat)
    requires n < |chain| && Ingested(s0, s, chain, n)
    requires chain[n].hash in s0 ==> s0[chain[n].hash] == chain[n]
    requires forall i :: 0 <= i < n && chain[i].hash == chain[n].hash ==> chain[i] == chain[n]
    ensures if chain[n].hash in s then s[chain[n].hash] == chain[n] && Ingested(s0, s, chain, n + 1)
            else Ingested(s0, s[chain[n].hash := chain[n]], chain, n + 1)
  {
    forall h ensures Among(chain, n + 1, h) <==> Among(chain, n, h) || chain[n].hash == h {}
    if chain[n].hash in s && chain[n].hash !in s0 {
      var i :| 0 <= i < n && chain[i].hash == chain[n].hash;
    }
  }

  /** The canonical blocks above a height. */
  ghost predicate CutFrom(s: Store, canon: Canon, number: int, gone: set<Hash>) {
    forall h :: h in gone <==> h in s && number < s[h].number && HashAt(canon, s[h].number) == h
  }

  lemma NothingCut(s: Store, genesis: Block, canon: Canon, head: Block)
    requires Rooted(s, genesis) && Indexes(s, canon, head)
    ensures forall n :: head.number <= n ==> CutFrom(s, canon, n, {})
  {}

  lemma CutOne(s: Store, genesis: Block, canon: Canon, b: Block, gone: set<Hash>)
    requires Rooted(s, genesis) && Get(s, HashAt(canon, b.number), b.number) == Some(b)
    requires CutFrom(s, canon, b.number, gone)
    ensures CutFrom(s, canon, b.number - 1, gone + {b.hash})
  {}

  lemma IndexesEntries(s: Store, genesis: Block, canon: Canon, head: Block)
    requires Rooted(s, genesis) && Indexes(s, canon, head)
    ensures forall i :: i in canon <==> 0 <= i <= head.number
    ensures forall i :: i in canon ==> canon[i] != NO_HASH
  {}

  lemma TrimmedUpTo(s: Store, genesis: Block, canon0: Canon, canon: Canon, head: Block, b: Block) returns (top: int)
    requires Rooted(s, genesis) && Indexes(s, canon0, head) && 0 < b.number
    requires forall i :: i in canon <==> i in canon0 && i <= b.number
    requires forall i :: i in canon ==> canon[i] == canon0[i]
    ensures UpTo(s, canon, top) && top <= b.number
  {
    top := if head.number < b.number then head.number else b.number;
    forall i | 0 < i <= top ensures Follows(s, canon, i) {
      assert Follows(s, canon0, i);
    }
  }

  lemma ExtendIndexes(s: Store, canon: Canon, b: Block)
    requires Get(s, b.hash, b.number) == Some(b) && 0 < b.number
    requires Chained(s, canon, 0, b.number - 1) && canon[b.number - 1] == b.parent
    requires forall i :: i in canon ==> 0 <= i <= b.number
    ensures Indexes(s, canon[b.number := b.hash], b)
  {
    var canon' := canon[b.number := b.hash];
    forall i | 0 < i <= b.number ensures Follows(s, canon', i) {
      if i < b.number { assert Follows(s, canon, i); }
    }
  }

  /** Below the head, the parent of a canonical block is the canonical block before it. */
  lemma IndexStep(s: Store, canon: Canon, head: Block, i: int)
    requires Proper(s) && Indexes(s, canon, head) && 0 < i <= head.number
    ensures i in canon && canon[i] in s
    ensures i - 1 in canon && canon[i - 1] in s && Parent(s, s[canon[i]]) == Some(s[canon[i - 1]])
    ensures s[canon[i - 1]].number == i - 1
  {
    assert Follows(s, canon, i);
  }

  lemma IndexHead(s: Store, canon: Canon, head: Block)
    requires Indexes(s, canon, head)
    ensures head.number in canon && Get(s, canon[head.number], head.number) == Some(head)
  {}

  lemma IndexesUpTo(s: Store, genesis: Block, canon: Canon, head: Block)
    requires Rooted(s, genesis) && Indexes(s, canon, head)
    ensures Proper(s) && UpTo(s, canon, head.number)
    ensures forall i :: HashAt(canon, i) == NO_HASH <==> !(0 <= i <= head.number)
  {}

  lemma ParentIsNamed(s: Store, genesis: Block, h: Hash, i: int)
    requires Rooted(s, genesis)
    ensures h == NO_HASH ==> Get(s, h, i) == None
    ensures 0 < i && Get(s, h, i).Some? ==> s[h].parent != NO_HASH
  {
    assert Get(s, h, i).Some? && i != 0 ==> Parent(s, s[h]).Some?;
  }

  lemma RewoundIndexes(s: Store, genesis: Block, canon0: Canon, canon: Canon, head0: Block, head: Block,
                       gone: set<Hash>)
    requires Rooted(s, genesis) && Indexes(s, canon0, head0) && 0 <= head.number <= head0.number
    requires head == s[canon0[head.number]]
    requires forall i :: i in canon <==> i in canon0 && i <= head.number
    requires forall i :: i in canon ==> canon[i] == canon0[i]
    requires forall h :: h in gone <==> h in s && head.number < s[h].number && HashAt(canon0, s[h].number) == h
    ensures Indexes(s - gone, canon, head)
    ensures forall h :: h in s ==> (h in gone <==> head.number < s[h].number && IsAncestor(s, s[h], head0))
  {
    var t := s - gone;
    forall i | 0 <= i <= head.number ensures i in canon && Get(t, canon[i], i) == Get(s, canon0[i], i) {
      assert Get(s, canon0[i], i).Some?;
    }
    forall i | 0 < i <= head.number ensures Follows(t, canon, i) {
      assert Follows(s, canon0, i);
    }
    forall h | h in s ensures h in gone <==> head.number < s[h].number && IsAncestor(s, s[h], head0) {
      IndexIsAncestry(s, canon0, head0, s[h]);
    }
  }

  datatype Status = Unknown | Canonical | Side

  class HeaderChain {
    const genesis: Block
    var headers: Store
    var td: Difficulties
    var canon: Canon
    var head: Block

    ghost predicate Valid()
      reads this
    {
      && Rooted(headers, genesis) && Accumulated(headers, td, genesis)
      && Indexes(headers, canon, head) && Heaviest(td, head)
    }

    constructor (g: Block)
      requires g.number == 0 && g.hash != NO_HASH
      ensures Valid() && genesis == g && headers == map[g.hash := g] && head == g
    {
      genesis, headers, td, canon, head := g, map[g.hash := g], map[g.hash := g.difficulty], map[0 := g.hash], g;
    }

    /** Removes the canonical entries above a number. */
    method DeleteAbove(number: int, ghost top: int)
      requires 0 <= number && forall i :: i in canon <==> 0 <= i <= top
      requires forall i :: i in canon ==> canon[i] != NO_HASH
      modifies this`canon
      ensures forall i :: i in canon <==> i in old(canon) && i <= number
      ensures forall i :: i in canon ==> canon[i] == old(canon)[i]
    {
      var i, batch := number + 1, canon;
      while HashAt(canon, i) != NO_HASH
        invariant number < i && canon == old(canon)
        invariant forall j :: j in batch <==> j in canon && !(number < j < i)
        invariant forall j :: j in batch ==> batch[j] == canon[j]
        decreases |batch|
      {
        batch := batch - {i};
        i := i + 1;
      }
      canon := batch;
    }

    /** Rewrites the index from a stored block downwards until it meets the index there was. */
    method Rewrite(hash: Hash, number: int, ghost top: int)
      requires Rooted(headers, genesis) && Get(headers, hash, number).Some? && UpTo(headers, canon, top)
      modifies this`canon
      ensures Chained(headers, canon, 0, number) && canon[number] == hash
      ensures forall i :: i in canon ==> i in old(canon) || 0 <= i <= number
    {
      hide Rooted, Rewriting, UpTo, Chained;
      var h, n := hash, number;
      RewritingStart(headers, genesis, canon, hash, number);
      while HashAt(canon, n) != h
        invariant Rewriting(headers, old(canon), canon, hash, number, h, n)
        decreases n
      {
        RewritingStep(headers, genesis, old(canon), top, canon, hash, number, h, n);
        canon := canon[n := h];
        h, n := headers[h].parent, n - 1;
      }
      RewritingDone(headers, genesis, old(canon), top, canon, hash, number, h, n);
    }

    /** Makes a stored block the head. */
    method Adopt(header: Block)
      requires Rooted(headers, genesis) && Indexes(headers, canon, head)
      requires Get(headers, header.hash, header.number) == Some(header) && Parent(headers, header).Some?
      modifies this`canon, this`head
      ensures head == header && Indexes(headers, canon, header)
    {
      hide Indexes, Chained, UpTo;
      IndexesEntries(headers, genesis, canon, head);
      DeleteAbove(header.number, head.number);
      ghost var top := TrimmedUpTo(headers, genesis, old(canon), canon, head, header);
      Rewrite(header.parent, header.number - 1, top);
      ExtendIndexes(headers, canon, header);
      canon := canon[header.number := header.hash];
      head := header;
    }

    /** Stores a header whose parent is known, and makes it the head if it is heavier than the head;
        equal weight is decided by a coin. */
    method WriteHeader(header: Block, coin: bool) returns (status: Status)
      requires Valid() && header.hash != NO_HASH
      requires header.hash in headers ==> headers[header.hash] == header
      modifies this
      ensures Valid()
      ensures status == Unknown <==> Parent(old(headers), header) == None
      ensures status == Unknown ==> headers == old(headers) && td == old(td) && canon == old(canon) && head == old(head)
      ensures status != Unknown ==> headers == old(headers)[header.hash := header]
      ensures status == Canonical ==> head == header
      ensures status == Side ==> head == old(head) && canon == old(canon)
      ensures td[head.hash] >= old(td[head.hash])
      ensures status != Unknown ==>
                (status == Canonical <==> td[header.hash] > old(td)[old(head).hash]
                                          || (td[header.hash] == old(td)[old(head).hash] && coin))
    {
      hide Rooted, Accumulated, Indexes, Proper;
      if Parent(headers, header) == None { return Unknown; }
      ParentIsWeighed(headers, td, genesis, header);
      var ptd := td[header.parent];
      var localTd := td[head.hash];
      var externTd := header.difficulty + ptd;
      StoreRooted(headers, genesis, header);
      StoreAccumulated(headers, td, genesis, header, externTd);
      StoreIndexes(headers, canon, head, header);
      td := td[header.hash := externTd];
      headers := headers[header.hash := header];
      if externTd > localTd || (externTd == localTd && coin) {
        Adopt(header);
        status := Canonical;
      } else {
        status := Side;
      }
    }

    /** Stores the headers of a chain that are not known yet, up to the first one without a parent. */
    method InsertHeaderChain(chain: seq<Block>, coins: nat -> bool) returns (inserted: nat)
      requires Valid() && forall i :: 0 <= i < |chain| ==> chain[i].hash != NO_HASH
      requires forall i :: 0 <= i < |chain| && chain[i].hash in headers ==> headers[chain[i].hash] == chain[i]
      requires forall i, j :: 0 <= i < j < |chain| && chain[i].hash == chain[j].hash ==> chain[i] == chain[j]
      modifies this
      ensures Valid() && inserted <= |chain| && Ingested(old(headers), headers, chain, inserted)
      ensures inserted < |chain| ==> chain[inserted].hash !in headers && Parent(headers, chain[inserted]) == None
      ensures td[head.hash] >= old(td[head.hash])
    {
      hide Rooted, Accumulated, Indexes, Ingested;
      inserted := 0;
      NothingIngested(headers, chain);
      while inserted < |chain|
        invariant Valid() && inserted <= |chain| && Ingested(old(headers), headers, chain, inserted)
        invariant td[head.hash] >= old(td[head.hash])
      {
        var header := chain[inserted];
        IngestedNext(old(headers), headers, chain, inserted);
        if Get(headers, header.hash, header.number) == None {
          var status := WriteHeader(header, coins(inserted));
          if status == Unknown { return; }
        }
        inserted := inserted + 1;
      }
    }

    /** How many blocks a search for the n-th ancestor has to look at one by one before it is on the
        canonical chain or has arrived; a block that is not there counts. */
    ghost function OffCanon(hash: Hash, number: int, n: nat): nat
      reads this
      decreases n
    {
      if n == 0 || HashAt(canon, number) == hash then 0
      else match Get(headers, hash, number)
        case None => 1
        case Some(b) => 1 + OffCanon(b.parent, number - 1, n - 1)
    }

    /** The zero hash is asked about above the head, for an ancestor that is canonical. */
    predicate Mistaken(hash: Hash, number: int, ancestor: nat)
      reads this
    {
      hash == NO_HASH && head.number < number && 1 < ancestor <= number && number - ancestor <= head.number
    }

    /** The n-th ancestor of a block: what following n parent links gives, provided few enough blocks
        have to be looked at one by one. The one exception is the zero hash above the head, which is
        taken for a canonical block because missing entries read as the zero hash. */
    method GetAncestor(hash: Hash, number: nat, ancestor: nat, maxNonCanonical: nat)
      returns (r: Option<(Hash, int)>, left: nat)
      requires Rooted(headers, genesis) && Indexes(headers, canon, head)
      ensures !Mistaken(hash, number, ancestor) ==> (r.Some? ==> r == Walk(headers, hash, number, ancestor))
      ensures !Mistaken(hash, number, ancestor) ==>
                (r.Some? <==> (ancestor <= number && Walk(headers, hash, number, ancestor).Some?
                               && (ancestor == 1 || OffCanon(hash, number, ancestor) <= maxNonCanonical)))
      ensures Mistaken(hash, number, ancestor) ==>
                && r == Some((canon[number - ancestor], number - ancestor))
                && Walk(headers, hash, number, ancestor) == None
      ensures left == if ancestor == 1 || ancestor > number then maxNonCanonical
                      else if maxNonCanonical < OffCanon(hash, number, ancestor) then 0
                      else maxNonCanonical - OffCanon(hash, number, ancestor)
    {
      hide Rooted, Indexes, UpTo;
      IndexesUpTo(headers, genesis, canon, head);
      left := maxNonCanonical;
      if ancestor > number { return None, left; }
      if ancestor == 1 {
        var header := Get(headers, hash, number);
        if header.Some? { return Some((header.value.parent, number - 1)), left; }
        return None, left;
      }
      var h, i, n := hash, number, ancestor;
      while n != 0
        invariant if hash == NO_HASH then h == hash && n == ancestor && i == number else h != NO_HASH
        invariant 0 <= n <= ancestor && i - n == number - ancestor
        invariant Walk(headers, h, i, n) == Walk(headers, hash, number, ancestor)
        invariant maxNonCanonical - OffCanon(hash, number, ancestor) == left - OffCanon(h, i, n)
      {
        if HashAt(canon, i) == h {
          var found := HashAt(canon, i - n);
          if h != NO_HASH { CanonicalWalk(headers, canon, head.number, i, n); }
          return if found == NO_HASH then None else Some((found, i - n)), left;
        }
        if left == 0 { return None, left; }
        left, n := left - 1, n - 1;
        var header := Get(headers, h, i);
        ParentIsNamed(headers, genesis, h, i);
        if header == None { return None, left; }
        h, i := header.value.parent, i - 1;
      }
      r := Some((h, i));
    }

    /** Steps the head down its own chain to a number; the hashes passed on the way are to go. */
    method StepDown(number: nat) returns (gone: set<Hash>)
      requires Rooted(headers, genesis) && Indexes(headers, canon, head)
      modifies this`head
      ensures head.number == (if number < old(head.number) then number else old(head.number))
      ensures head == headers[canon[head.number]]
      ensures CutFrom(headers, canon, number, gone)
    {
      hide Chained, CutFrom;
      IndexHead(headers, canon, head);
      gone := {};
      NothingCut(headers, genesis, canon, head);
      while head.number > number
        invariant 0 <= head.number <= old(head.number)
        invariant if head.number == old(head.number) then gone == {} else number <= head.number
        invariant Get(headers, HashAt(canon, head.number), head.number) == Some(head)
        invariant CutFrom(headers, canon, head.number, gone)
      {
        IndexStep(headers, canon, old(head), head.number);
        CutOne(headers, genesis, canon, head, gone);
        gone := gone + {head.hash};
        head := Parent(headers, head).value;
      }
    }

    /** Deletes the canonical entries above a number, from a height down. */
    method RollBack(height: int, number: int)
      requires forall i :: i in canon ==> i <= height
      modifies this`canon
      ensures forall i :: i in canon <==> i in old(canon) && i <= number
      ensures forall i :: i in canon ==> canon[i] == old(canon)[i]
    {
      var i := height;
      while i > number
        invariant forall j :: j in canon <==> j in old(canon) && (j <= i || j <= number)
        invariant forall j :: j in canon ==> canon[j] == old(canon)[j]
      {
        canon := canon - {i};
        i := i - 1;
      }
    }

    /** Rewinds to a lower head: its chain stays the index, and what was on top of it is deleted.
        Other branches are not looked at. */
    method SetHead(number: nat)
      requires Rooted(headers, genesis) && td.Keys == headers.Keys && Indexes(headers, canon, head)
      modifies this
      ensures head == if number < old(head.number) then old(headers[canon[number]]) else old(head)
      ensures Indexes(headers, canon, head)
      ensures forall h :: h in headers <==>
                && h in old(headers)
                && !(number < old(headers)[h].number && IsAncestor(old(headers), old(headers)[h], old(head)))
      ensures forall h :: h in headers ==> headers[h] == old(headers)[h]
      ensures td.Keys == headers.Keys && forall h :: h in td ==> td[h] == old(td)[h]
    {
      hide Indexes, IsAncestor;
      var height := head.number;
      IndexHead(headers, canon, head);
      IndexesEntries(headers, genesis, canon, head);
      var gone := StepDown(number);
      RollBack(height, number);
      RewoundIndexes(headers, genesis, old(canon), canon, old(head), head, gone);
      headers, td := headers - gone, td - gone;
    }
  }
}
