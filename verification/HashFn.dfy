/** The block hash function of the virtual machine: a cached search for the hash of the block with
    a given number among the ancestors of a reference header. */
module HashFns {
  import opened Options
  import opened Ancestry

  const TWO64: int := 0x1_0000_0000_0000_0000

  /** Unsigned subtraction of one. */
  function Before(number: int): (r: int)
    ensures 0 <= number < 0x1_0000_0000_0000_0000 ==> r == (number - 1) % 0x1_0000_0000_0000_0000
  {
    if number == 0 then TWO64 - 1 else number - 1
  }

  /** No stored block carries the number that comes before zero. */
  ghost predicate Numbered(s: Store) {
    forall h :: h in s ==> s[h].hash == h && 0 <= s[h].number < TWO64 - 1
  }

  function Rank(number: int): int { if number == TWO64 - 1 then 0 else number + 1 }

  /** Following parent links from the block with hash h and number k to number n. */
  ghost function Search(s: Store, h: Hash, k: int, n: int): Hash
    requires Numbered(s) && 0 <= k < TWO64
    decreases Rank(k)
  {
    if k == n then h
    else match Get(s, h, k)
      case None => NO_HASH
      case Some(b) => Search(s, b.parent, Before(k), n)
  }

  /** Among the ancestors of a stored block the search finds the one with that number, if there is one. */
  lemma {:induction false} SearchFindsAncestor(s: Store, b: Block, c: Block)
    requires Numbered(s) && Get(s, b.hash, b.number) == Some(b) && IsAncestor(s, c, b)
    ensures Search(s, b.hash, b.number, c.number) == c.hash
    decreases b.number
  {
    AncestorIsLower(s, c, b);
    if c != b { SearchFindsAncestor(s, Parent(s, b).value, c); }
  }

  /** Nothing is found at a number above the block the search starts from. */
  lemma {:induction false} SearchAbove(s: Store, h: Hash, k: int, n: int)
    requires Numbered(s) && 0 <= k < n < TWO64 - 1
    ensures Search(s, h, k, n) == NO_HASH
    decreases k
  {
    if Get(s, h, k).Some? {
      var b := s[h];
      if k == 0 {
        assert Get(s, b.parent, TWO64 - 1) == None;
      } else {
        SearchAbove(s, b.parent, k - 1, n);
      }
    }
  }

  class HashFn {
    const ref: Block
    const chain: Store
    var cache: Option<map<int, Hash>>

    /** What the search from the reference header gives. */
    ghost function Answer(n: int): Hash
      requires Numbered(chain) && 0 <= ref.number < TWO64
    {
      Search(chain, ref.parent, Before(ref.number), n)
    }

    ghost predicate Valid()
      reads this
    {
      && Numbered(chain) && 0 <= ref.number < TWO64
      && (cache.Some? ==> Before(ref.number) in cache.value)
      && (cache.Some? ==> forall k :: k in cache.value ==> cache.value[k] == Answer(k))
    }

    constructor (header: Block, s: Store)
      requires Numbered(s) && 0 <= header.number < TWO64
      ensures Valid() && ref == header && chain == s
    {
      ref, chain, cache := header, s, None;
    }

    /** The answer depends on the number asked for, not on the questions before it. */
    method GetHash(n: int) returns (hash: Hash)
      requires Valid() && 0 <= n < TWO64
      modifies this
      ensures Valid() && hash == Answer(n)
    {
      if cache == None { cache := Some(map[Before(ref.number) := ref.parent]); }
      if n in cache.value { return cache.value[n]; }
      var header, k := Get(chain, ref.parent, Before(ref.number)), Before(ref.number);
      var h := ref.parent;
      while header.Some?
        invariant Valid() && cache.Some? && 0 <= k < TWO64 && header == Get(chain, h, k)
        invariant Search(chain, h, k, n) == Answer(n) && k != n
        invariant forall m :: Rank(m) <= Rank(k) ==> Search(chain, h, k, m) == Answer(m)
        decreases Rank(k)
      {
        assert Search(chain, h, k, Before(k)) == header.value.parent;
        cache := Some(cache.value[Before(k) := header.value.parent]);
        if n == Before(k) { return header.value.parent; }
        assert forall m :: Rank(m) <= Rank(Before(k)) ==>
                             Search(chain, h, k, m) == Search(chain, header.value.parent, Before(k), m);
        h, k := header.value.parent, Before(k);
        header := Get(chain, h, k);
      }
      return NO_HASH;
    }
  }
}
