/** The per-account transaction list: what its operations mean on plain maps, and the
    class that carries them out with cached caps on top of the sorted map. */
module AccountLists {
  import opened Options
  import opened Sets
  import opened Transactions
  import opened SortedMap

  /** What an account can pay for and a block can hold. */
  datatype Limits = Limits(balance: int, power: int, gas: nat)

  predicate Fits(tx: Tx, l: Limits) {
    tx.value <= l.balance && tx.Cost() <= l.power && tx.gas <= l.gas
  }

  /** Whether tx is enough of an improvement on a transaction with the same nonce. */
  predicate Outbids(tx: Tx, incumbent: Tx, priceBump: nat) {
    incumbent.price < tx.price && incumbent.price * (100 + priceBump) / 100 <= tx.price
  }

  predicate Accepts(m: TxMap, tx: Tx, priceBump: nat) {
    tx.nonce in m ==> Outbids(tx, m[tx.nonce], priceBump)
  }

  // ---- filtering by limits --------------------------------------------------------------

  function Unpayable(m: TxMap, l: Limits): TxMap { map n | n in m && !Fits(m[n], l) :: m[n] }

  /** Something that does not fit comes before nonce n. */
  predicate Blocked(m: TxMap, l: Limits, n: int) { exists k :: k in m && k < n && !Fits(m[k], l) }

  /** What fits, but in a strict list has lost a predecessor. */
  function Stranded(m: TxMap, strict: bool, l: Limits): TxMap {
    map n | n in m && Fits(m[n], l) && strict && Blocked(m, l, n) :: m[n]
  }

  function Retained(m: TxMap, strict: bool, l: Limits): TxMap {
    map n | n in m && Fits(m[n], l) && !(strict && Blocked(m, l, n)) :: m[n]
  }

  lemma PartsUnion(m: TxMap, strict: bool, l: Limits)
    ensures m == Unpayable(m, l) + Stranded(m, strict, l) + Retained(m, strict, l)
  {
    hide Fits, Blocked;
  }

  lemma SameKeys(m: set<int>, a: set<int>, b: set<int>, c: set<int>)
    requires forall n :: n in m <==> n in a || n in b || n in c
    requires forall n :: n in a ==> n !in b && n !in c
    requires forall n :: n in b ==> n !in c
    ensures |m| == |a| + |b| + |c|
  {
    SameSets(m, a + b + c);
    SameSets(a * b, {});
    SameSets((a + b) * c, {});
    assert |a + b| == |a| + |b|;
    assert |(a + b) + c| == |a + b| + |c|;
  }

  lemma PartsSize(m: TxMap, a: TxMap, b: TxMap, c: TxMap)
    requires forall n :: n in m <==> n in a || n in b || n in c
    requires forall n :: n in a ==> n !in b && n !in c
    requires forall n :: n in b ==> n !in c
    ensures |m| == |a| + |b| + |c|
  {
    SameKeys(m.Keys, a.Keys, b.Keys, c.Keys);
  }

  /** Nothing is lost and nothing is in two places. */
  lemma FilterPartitions(m: TxMap, strict: bool, l: Limits)
    ensures m == Unpayable(m, l) + Stranded(m, strict, l) + Retained(m, strict, l)
    ensures Unpayable(m, l).Keys !! Stranded(m, strict, l).Keys !! Retained(m, strict, l).Keys
    ensures |m| == |Unpayable(m, l)| + |Stranded(m, strict, l)| + |Retained(m, strict, l)|
  {
    hide Fits, Blocked;
    assert |m| == |Unpayable(m, l)| + |Stranded(m, strict, l)| + |Retained(m, strict, l)| by {
      PartsSize(m, Unpayable(m, l), Stranded(m, strict, l), Retained(m, strict, l));
    }
    assert m == Unpayable(m, l) + Stranded(m, strict, l) + Retained(m, strict, l) by {
      hide *;
      PartsUnion(m, strict, l);
    }
  }

  /** Where the retained part of a gap-free list ends. */
  ghost function PayableEnd(m: TxMap, l: Limits, lo: int, hi: int): (e: int)
    requires lo <= hi && forall n :: lo <= n < hi ==> n in m
    ensures lo <= e <= hi
    ensures forall n :: lo <= n < e ==> Fits(m[n], l)
    ensures e < hi ==> !Fits(m[e], l)
    decreases hi - lo
  {
    if lo == hi || !Fits(m[lo], l) then lo else PayableEnd(m, l, lo + 1, hi)
  }

  /** Filtering a strict, gap-free list leaves a gap-free prefix of it, cut at the first
      transaction that does not fit; everything put aside lies beyond the cut. */
  lemma FilterKeepsPrefix(m: TxMap, l: Limits, lo: int, hi: int)
    requires Interval(m, lo, hi)
    ensures var e := PayableEnd(m, l, lo, hi);
            Interval(Retained(m, true, l), lo, e) && Retained(m, true, l) == Below(m, e)
    ensures forall n :: n in Stranded(m, true, l) ==> n > PayableEnd(m, l, lo, hi)
  {
    var e := PayableEnd(m, l, lo, hi);
    forall n | n in m ensures Fits(m[n], l) && !Blocked(m, l, n) <==> n < e {
      if n >= e { assert e in m && !Fits(m[e], l); }
      if n > e { assert Blocked(m, l, n); }
    }
  }

  // ---- removing one nonce ------------------------------------------------------------------

  /** What stays after the transaction at nonce is taken out. */
  function Remaining(m: TxMap, strict: bool, nonce: int): TxMap {
    if nonce !in m then m else if strict then Below(m, nonce) else m - {nonce}
  }

  /** What a strict list gives back with it. */
  function Invalidated(m: TxMap, strict: bool, nonce: int): TxMap {
    if nonce in m && strict then From(m, nonce + 1) else map[]
  }

  lemma RemovePartitions(m: TxMap, strict: bool, nonce: int, lo: int, hi: int)
    requires nonce in m
    ensures m == Remaining(m, strict, nonce) + Invalidated(m, strict, nonce) + map[nonce := m[nonce]]
    ensures Remaining(m, strict, nonce).Keys !! Invalidated(m, strict, nonce).Keys !! {nonce}
    ensures strict && Interval(m, lo, hi) ==>
              Interval(Remaining(m, strict, nonce), lo, nonce) && Interval(Invalidated(m, strict, nonce), nonce + 1, hi)
  {}

  lemma SplitAround(m: TxMap, nonce: int, above: Tx -> bool)
    requires Keyed(m) && nonce in m && forall tx :: above(tx) <==> tx.nonce > nonce
    ensures Keep(m - {nonce}, above) == Invalidated(m, true, nonce)
    ensures Drop(m - {nonce}, above) == Remaining(m, true, nonce)
  {}

  method LowestNonce(s: seq<Tx>) returns (lowest: int)
    requires s != []
    ensures (exists tx :: tx in s && tx.nonce == lowest) && forall tx :: tx in s ==> lowest <= tx.nonce
  {
    lowest := s[0].nonce;
    for i := 0 to |s|
      invariant exists tx :: tx in s && tx.nonce == lowest
      invariant forall j :: 0 <= j < i ==> lowest <= s[j].nonce
    {
      if lowest > s[i].nonce { lowest := s[i].nonce; }
    }
  }

  lemma AllWithin(m: TxMap, strict: bool, caps: Limits, l: Limits)
    requires forall n :: n in m ==> Fits(m[n], caps)
    requires caps.balance <= l.balance && caps.power <= l.power && caps.gas <= l.gas
    ensures Retained(m, strict, l) == m && Unpayable(m, l) == map[] && Stranded(m, strict, l) == map[]
  {
    assert forall n :: n in m ==> Fits(m[n], l);
  }

  /** What fits, whatever comes before it. */
  function Payable(m: TxMap, l: Limits): TxMap { map n | n in m && Fits(m[n], l) :: m[n] }

  lemma Misfits(m: TxMap, misfit: Tx -> bool, l: Limits)
    requires forall tx :: misfit(tx) <==> !Fits(tx, l)
    ensures Keep(m, misfit) == Unpayable(m, l) && Drop(m, misfit) == Payable(m, l)
  {
    hide Fits;
  }

  lemma AboveLowest(was: TxMap, rest: TxMap, removed: seq<Tx>, lowest: int, l: Limits, above: Tx -> bool)
    requires Keyed(was) && Lists(removed, Unpayable(was, l)) && rest == Payable(was, l)
    requires forall tx :: above(tx) <==> tx.nonce > lowest
    requires (exists tx :: tx in removed && tx.nonce == lowest) && forall tx :: tx in removed ==> lowest <= tx.nonce
    ensures Keep(rest, above) == Stranded(was, true, l) && Drop(rest, above) == Retained(was, true, l)
  {
    hide Fits;
    forall n | n in rest ensures n > lowest <==> Blocked(was, l, n) {
      var tx :| tx in removed && tx.nonce == lowest;
      assert Holds(Unpayable(was, l), tx);
      if Blocked(was, l, n) {
        var k :| k in was && k < n && !Fits(was[k], l);
        assert Holds(Unpayable(was, l), was[k]) && was[k] in removed;
      }
    }
  }

  lemma NoneRemoved(was: TxMap, strict: bool, removed: seq<Tx>, l: Limits)
    requires Keyed(was) && Lists(removed, Unpayable(was, l)) && (strict ==> removed == [])
    ensures Retained(was, strict, l) == Payable(was, l) && Stranded(was, strict, l) == map[]
  {
    hide Fits;
    if strict {
      forall n | n in was ensures Fits(was[n], l) {
        assert was[n] !in removed;
        assert !Holds(Unpayable(was, l), was[n]);
      }
    }
  }

  class TxList {
    const strict: bool
    const txs: TxSortedMap
    var costcap: int
    var gascap: nat
    var valuecap: int

    /** The caps bound every member: what makes the short circuit in Filter safe. */
    ghost predicate Valid()
      reads this, txs
    {
      && txs.Valid()
      && forall n :: n in txs.items ==> Fits(txs.items[n], Limits(valuecap, costcap, gascap))
    }

    ghost function Items(): TxMap
      reads txs
    {
      txs.items
    }

    constructor (strict: bool)
      ensures Valid() && Items() == map[] && this.strict == strict && fresh(txs)
    {
      this.strict := strict;
      txs := new TxSortedMap();
      costcap, gascap, valuecap := 0, 0, 0;
    }

    method Add(tx: Tx, priceBump: nat) returns (inserted: bool, replaced: Option<Tx>)
      requires Valid()
      modifies this, txs
      ensures Valid()
      ensures inserted <==> Accepts(old(Items()), tx, priceBump)
      ensures tx.nonce !in old(Items()) ==> inserted
      ensures tx.nonce in old(Items()) ==>
                var o := old(Items())[tx.nonce];
                inserted <==> o.price < tx.price && o.price * (100 + priceBump) <= 100 * tx.price + 99
      ensures Items() == if inserted then old(Items())[tx.nonce := tx] else old(Items())
      ensures replaced == if inserted && tx.nonce in old(Items()) then Some(old(Items())[tx.nonce]) else None
    {
      replaced := txs.Get(tx.nonce);
      if replaced.Some? {
        var threshold := replaced.value.price * (100 + priceBump) / 100;
        if replaced.value.price >= tx.price || threshold > tx.price {
          return false, None;
        }
      }
      txs.Put(tx);
      if costcap < tx.Cost() { costcap := tx.Cost(); }
      if gascap < tx.gas { gascap := tx.gas; }
      if valuecap < tx.value { valuecap := tx.value; }
      inserted := true;
    }

    method Forward(threshold: int) returns (removed: seq<Tx>)
      requires Valid()
      modifies txs
      ensures Valid()
      ensures Items() == From(old(Items()), threshold)
      ensures removed == Flat(Below(old(Items()), threshold))
    {
      removed := txs.Forward(threshold);
    }

    /** The short circuit never skips a transaction that should go: the outcome is the
        same whether or not the caps let the scan be skipped. */
    method Filter(l: Limits) returns (removed: seq<Tx>, invalids: seq<Tx>)
      requires Valid()
      modifies this, txs
      ensures Valid()
      ensures Items() == Retained(old(Items()), strict, l)
      ensures Lists(removed, Unpayable(old(Items()), l))
      ensures Lists(invalids, Stranded(old(Items()), strict, l))
    {
      hide Fits;
      ghost var was := txs.items;
      removed, invalids := [], [];
      if valuecap <= l.balance && costcap <= l.power && gascap <= l.gas {
        AllWithin(was, strict, Limits(valuecap, costcap, gascap), l);
        return;
      }
      costcap, gascap, valuecap := l.power, l.gas, l.balance;
      var misfit := (tx: Tx) => !Fits(tx, l);
      removed := txs.Filter(misfit);
      ghost var rest := txs.items;
      Misfits(was, misfit, l);
      if strict && |removed| > 0 {
        var lowest := LowestNonce(removed);
        var above := (tx: Tx) => tx.nonce > lowest;
        invalids := txs.Filter(above);
        AboveLowest(was, rest, removed, lowest, l, above);
      } else {
        NoneRemoved(was, strict, removed, l);
      }
    }

    method Cap(threshold: nat) returns (drops: seq<Tx>)
      requires Valid()
      modifies txs
      ensures Valid()
      ensures Items() == Lowest(old(Items()), threshold)
      ensures drops == TopDown(Flat(old(Items())), threshold)
    {
      drops := txs.Cap(threshold);
    }

    method Remove(tx: Tx) returns (found: bool, invalids: seq<Tx>)
      requires Valid()
      modifies txs
      ensures Valid()
      ensures found <==> tx.nonce in old(Items())
      ensures Items() == Remaining(old(Items()), strict, tx.nonce)
      ensures Lists(invalids, Invalidated(old(Items()), strict, tx.nonce))
    {
      hide Fits;
      ghost var was := txs.items;
      invalids := [];
      found := txs.Remove(tx.nonce);
      if found && strict {
        var nonce := tx.nonce;
        var above := (tx: Tx) => tx.nonce > nonce;
        invalids := txs.Filter(above);
        SplitAround(was, nonce, above);
      }
    }

    method Ready(start: int) returns (ready: seq<Tx>)
      requires Valid()
      modifies txs
      ensures Valid()
      ensures old(Items()) == map[] || MinKey(old(Items())) > start ==> ready == [] && Items() == old(Items())
      ensures old(Items()) != map[] && MinKey(old(Items())) <= start ==>
                var end := RunEnd(old(Items()), MinKey(old(Items())));
                ready == Flat(Below(old(Items()), end)) && Items() == From(old(Items()), end)
    {
      ready := txs.Ready(start);
    }

    method Flatten() returns (r: seq<Tx>)
      requires Valid()
      modifies txs
      ensures Valid() && Items() == old(Items()) && r == Flat(Items())
    {
      r := txs.Flatten();
    }
  }
}
