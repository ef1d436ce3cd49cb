/** The price heap over all pooled transactions, with lazy deletion: entries of dropped
    transactions stay behind and are only counted, until they surface or the heap is
    rebuilt. */
module Pricing {
  import opened BinaryHeap
  import opened Sequences
  import opened Transactions

  /** Cheaper first; at equal price the higher nonce first. */
  predicate PriceLess(a: Tx, b: Tx) {
    a.price < b.price || (a.price == b.price && a.nonce > b.nonce)
  }

  ghost predicate PriceHeap(h: seq<Tx>) { IsHeap(h, PriceLess) }

  method PushPrice(h: seq<Tx>, tx: Tx) returns (r: seq<Tx>)
    requires PriceHeap(h)
    ensures PriceHeap(r) && multiset(r) == multiset(h) + multiset{tx} && |r| == |h| + 1
  {
    r := Push(h, PriceLess, tx);
  }

  method PushAll(h: seq<Tx>, txs: seq<Tx>) returns (r: seq<Tx>)
    requires PriceHeap(h)
    ensures PriceHeap(r) && multiset(r) == multiset(h) + multiset(txs) && |r| == |h| + |txs|
  {
    r := h;
    for i := 0 to |txs|
      invariant PriceHeap(r) && multiset(r) == multiset(h) + multiset(txs[..i]) && |r| == |h| + i
    {
      r := PushPrice(r, txs[i]);
      assert txs[..i + 1] == txs[..i] + [txs[i]];
    }
    assert txs[..|txs|] == txs;
  }

  method PopPrice(h: seq<Tx>) returns (r: seq<Tx>, tx: Tx)
    requires PriceHeap(h) && h != []
    ensures PriceHeap(r) && tx == h[0] && multiset(r) == multiset(h) - multiset{tx} && |r| == |h| - 1
    ensures forall x :: x in r ==> x in h && !PriceLess(x, tx)
  {
    r, tx := Pop(h, PriceLess);
    forall x | x in r ensures x in h { assert x in multiset(r); }
  }

  lemma RootIsCheapest(h: seq<Tx>)
    requires PriceHeap(h) && h != []
    ensures forall x :: x in h ==> !PriceLess(x, h[0])
  {
    RootIsLeastOfAll(h, PriceLess);
  }

  method HeapOf(live: set<Tx>) returns (r: seq<Tx>)
    ensures PriceHeap(r) && multiset(r) == multiset(live)
  {
    var todo := live;
    var list: seq<Tx> := [];
    while todo != {}
      invariant todo <= live && multiset(list) == multiset(live - todo)
    {
      var tx :| tx in todo;
      assert live - (todo - {tx}) == (live - todo) + {tx};
      todo := todo - {tx};
      list := list + [tx];
    }
    assert live - {} == live;
    r := Init(list, PriceLess);
  }

  // ---- what the heap has to do with the live transactions ---------------------------------

  ghost predicate Covers(items: seq<Tx>, live: set<Tx>) { forall tx :: tx in live ==> tx in items }

  /** The entries that are not live are as many as counted, if each live transaction has one. */
  ghost predicate Counted(items: seq<Tx>, live: set<Tx>, stales: int) { |items| == |live| + stales }

  /** Every live transaction has one entry, no entry repeats, and the count is right. */
  ghost predicate Exact(items: seq<Tx>, live: set<Tx>, stales: int) {
    NoRepeat(items) && Covers(items, live) && Counted(items, live, stales)
  }

  lemma CoversLess(items: seq<Tx>, live: set<Tx>, tx: Tx)
    requires Covers(items, live)
    ensures Covers(items, live - {tx})
  {}

  /** The heap's entries and its count of stale ones; besides, how often a transaction was put while it had an entry,
      and how many entries too many have gone with dropped transactions since the heap was last rebuilt. */
  datatype Ledger = Ledger(items: seq<Tx>, stales: int, doubled: nat, lost: nat)

  /** With n live transactions, the count is wrong by exactly the entries lost. */
  ghost predicate Tally(g: Ledger, n: int) { |g.items| + g.lost == n + g.stales }

  lemma TallyExact(g: Ledger, live: set<Tx>)
    requires Tally(g, |live|)
    ensures Counted(g.items, live, g.stales) <==> g.lost == 0
    ensures Exact(g.items, live, g.stales) <==> NoRepeat(g.items) && Covers(g.items, live) && g.lost == 0
  {}

  /** The transactions are all different, and none has an entry. */
  ghost predicate Unseen(txs: seq<Tx>, items: seq<Tx>) { NoRepeat(txs) && forall t :: t in txs ==> t !in items }

  /** No entry is new but for those of txs. As long as nothing is put while it has an entry, single entries stay single
      and none are lost. */
  ghost predicate Follows(a: Ledger, b: Ledger, txs: seq<Tx>) {
    && (forall x :: x in b.items ==> x in a.items || x in txs)
    && a.doubled <= b.doubled && (Unseen(txs, a.items) ==> b.doubled == a.doubled)
    && (NoRepeat(a.items) && b.doubled == a.doubled ==> NoRepeat(b.items) && b.lost <= a.lost)
  }

  /** No entry is new, and none is lost. */
  ghost predicate Thins(a: Ledger, b: Ledger) {
    && (forall x :: x in b.items ==> x in a.items) && b.doubled == a.doubled && b.lost <= a.lost
    && (NoRepeat(a.items) ==> NoRepeat(b.items))
  }

  /** After n transactions have gone: as long as few entries are stale, these are only counted. */
  ghost predicate Lapsed(a: Ledger, b: Ledger, n: int) {
    a.stales + n <= |a.items| / 4 ==> b == a.(stales := a.stales + n)
  }

  lemma LapsedTwice(a: Ledger, b: Ledger, c: Ledger, n: nat, m: nat)
    requires Lapsed(a, b, n) && Lapsed(b, c, m)
    ensures Lapsed(a, c, n + m)
  {}

  lemma ThinsAsIs(a: Ledger)
    ensures Thins(a, a) && Follows(a, a, []) && Lapsed(a, a, 0)
  {}

  lemma ThinsTwice(a: Ledger, b: Ledger, c: Ledger)
    requires Thins(a, b) && Thins(b, c)
    ensures Thins(a, c)
  {}

  lemma ThinsFollows(a: Ledger, b: Ledger)
    requires Thins(a, b)
    ensures Follows(a, b, [])
  {}

  lemma FollowsNone(a: Ledger, b: Ledger)
    requires Follows(a, b, [])
    ensures b.doubled == a.doubled && forall x :: x in b.items ==> x in a.items
  {
    assert Unseen([], a.items);
  }

  lemma FollowsTwice(a: Ledger, b: Ledger, c: Ledger, s: seq<Tx>, t: seq<Tx>)
    requires Follows(a, b, s) && Follows(b, c, t)
    ensures Follows(a, c, s + t)
  {
    hide NoRepeat;
    if Unseen(s + t, a.items) {
      NoRepeatParts(s, t);
      forall x | x in t ensures x !in b.items {
        assert x in s + t;
        NoRepeatApart(s, t, x);
      }
      forall x | x in s ensures x !in a.items { assert x in s + t; }
    }
  }

  lemma FollowsOn(a: Ledger, b: Ledger, c: Ledger, s: seq<Tx>)
    requires Follows(a, b, s) && (Thins(b, c) || Follows(b, c, []))
    ensures Follows(a, c, s)
  {
    hide NoRepeat;
    if Thins(b, c) { ThinsFollows(b, c); }
    FollowsTwice(a, b, c, s, []);
    assert s + [] == s;
  }

  lemma FollowsFrom(a: Ledger, b: Ledger, c: Ledger, s: seq<Tx>)
    requires Follows(a, b, []) && Follows(b, c, s)
    ensures Follows(a, c, s)
  {
    hide NoRepeat;
    FollowsTwice(a, b, c, [], s);
    assert [] + s == s;
  }

  /** Nothing comes in although it was offered. */
  lemma FollowsMore(a: Ledger, b: Ledger, txs: seq<Tx>)
    requires Follows(a, b, [])
    ensures Follows(a, b, txs)
  {
    hide NoRepeat;
    FollowsNone(a, b);
  }

  /** There is one entry more, that of tx. */
  ghost predicate Entered(a: Ledger, b: Ledger, tx: Tx) {
    && b.stales == a.stales && multiset(b.items) == multiset(a.items) + multiset{tx} && b.lost == a.lost
    && b.doubled == a.doubled + if tx in a.items then 1 else 0
  }

  lemma EnteredFollows(a: Ledger, b: Ledger, tx: Tx, n: int)
    requires Entered(a, b, tx)
    ensures |b.items| == |a.items| + 1 && (Tally(a, n) <==> Tally(b, n + 1)) && Follows(a, b, [tx])
    ensures forall x :: x in b.items <==> x in a.items || x == tx
  {
    assert |multiset(b.items)| == |multiset(a.items)| + 1;
    forall x ensures x in b.items <==> x in a.items || x == tx {
      assert x in b.items <==> multiset(b.items)[x] > 0;
    }
    OnceEach(a.items);
    OnceEach(b.items);
    assert tx in [tx];
  }

  /** No transaction of the set has two entries. */
  ghost predicate Single(items: seq<Tx>, txs: set<Tx>) { forall t :: t in txs ==> multiset(items)[t] <= 1 }

  lemma SingleStays(was: seq<Tx>, items: seq<Tx>, live: set<Tx>, txs: set<Tx>)
    requires txs <= live && forall t :: t in live ==> multiset(items)[t] == multiset(was)[t]
    ensures Single(was, txs) <==> Single(items, txs)
  {}

  /** What the offer of tx does to the heap, where some are dropped to make room and it may then be put in: the
      transaction is put twice only if it is put while it has an entry, and entries are lost only if one of
      those dropped has two. */
  ghost predicate Booked(a: Ledger, b: Ledger, tx: Tx, put: bool, dropped: set<Tx>) {
    && Follows(a, b, [tx]) && a.doubled <= b.doubled <= a.doubled + 1
    && (b.doubled > a.doubled ==> put && tx in a.items)
    && (Single(a.items, dropped) ==> b.lost <= a.lost)
  }

  lemma BookedNot(a: Ledger, tx: Tx)
    ensures Booked(a, a, tx, false, {})
  {
    ThinsAsIs(a);
    FollowsMore(a, a, [tx]);
  }

  /** First another entry may go, then tx is put if it is not known. */
  lemma BookedEnter(a: Ledger, b: Ledger, c: Ledger, tx: Tx, known: bool)
    requires Thins(a, b) && Follows(b, c, [tx]) && if known then c == b else Entered(b, c, tx)
    ensures Booked(a, c, tx, true, {})
  {
    hide NoRepeat;
    ThinsFollows(a, b);
    FollowsFrom(a, b, c, [tx]);
  }

  lemma BookedAfter(a: Ledger, b: Ledger, c: Ledger, tx: Tx, put: bool, dropped: set<Tx>)
    requires Follows(a, b, []) && (Single(a.items, dropped) ==> b.lost <= a.lost) && Booked(b, c, tx, put, {})
    ensures Booked(a, c, tx, put, dropped)
  {
    hide NoRepeat;
    FollowsFrom(a, b, c, [tx]);
    FollowsNone(a, b);
  }

  lemma ThinsExact(a: Ledger, b: Ledger, live: set<Tx>, live': set<Tx>)
    requires Thins(a, b) && Tally(a, |live|) && Tally(b, |live'|) && Covers(b.items, live')
    ensures Exact(a.items, live, a.stales) ==> Exact(b.items, live', b.stales)
  {
    hide NoRepeat, Covers;
    TallyExact(a, live);
    TallyExact(b, live');
  }

  /** Exact accounting stays exact as long as nothing is put while it has an entry. */
  lemma FollowsExact(a: Ledger, b: Ledger, txs: seq<Tx>, live: set<Tx>, live': set<Tx>)
    requires Follows(a, b, txs) && Tally(a, |live|) && Tally(b, |live'|) && Covers(b.items, live')
    ensures Exact(a.items, live, a.stales) && b.doubled == a.doubled ==> Exact(b.items, live', b.stales)
  {
    hide NoRepeat, Covers;
    TallyExact(a, live);
    TallyExact(b, live');
  }

  lemma BookedExact(a: Ledger, b: Ledger, tx: Tx, put: bool, dropped: set<Tx>, live: set<Tx>, live': set<Tx>)
    requires Booked(a, b, tx, put, dropped) && Tally(a, |live|) && Tally(b, |live'|) && Covers(b.items, live')
    ensures Exact(a.items, live, a.stales) && (put ==> tx !in a.items) ==> Exact(b.items, live', b.stales)
  {
    hide Follows, Tally, Exact, Covers, Single;
    FollowsExact(a, b, [tx], live, live');
  }

  /** An entry of a live remote transaction that ranks before t; one that does not rank after t. */
  ghost function RanksBefore(live: set<Tx>, locals: set<Address>, t: Tx): Tx -> bool {
    x => x in live && x.sender !in locals && PriceLess(x, t)
  }

  ghost function RanksUpTo(live: set<Tx>, locals: set<Address>, t: Tx): Tx -> bool {
    x => x in live && x.sender !in locals && !PriceLess(t, x)
  }

  /** Entries that left the heap: stale ones for good, saved ones to return, and the rest. */
  ghost predicate Drained(was: seq<Tx>, items: seq<Tx>, save: seq<Tx>, drop: seq<Tx>, gone: seq<Tx>) {
    multiset(was) == multiset(items) + multiset(save) + multiset(drop) + multiset(gone)
  }

  lemma DrainedNothing(was: seq<Tx>)
    ensures Drained(was, was, [], [], [])
  {}

  /** Wherever a popped entry goes, the accounting still holds. */
  lemma DrainedStep(was: seq<Tx>, items: seq<Tx>, save: seq<Tx>, drop: seq<Tx>, gone: seq<Tx>,
                    rest: seq<Tx>, tx: Tx)
    requires Drained(was, items, save, drop, gone)
    requires tx in items && multiset(rest) == multiset(items) - multiset{tx}
    ensures Drained(was, rest, save + [tx], drop, gone)
    ensures Drained(was, rest, save, drop + [tx], gone)
    ensures Drained(was, rest, save, drop, gone + [tx])
  {
    assert tx in multiset(items);
    assert multiset(items) == multiset(rest) + multiset{tx};
  }

  lemma DrainedMember(was: seq<Tx>, items: seq<Tx>, save: seq<Tx>, drop: seq<Tx>, gone: seq<Tx>, tx: Tx)
    requires Drained(was, items, save, drop, gone)
    ensures tx in was <==> tx in items || tx in save || tx in drop || tx in gone
  {
    assert tx in was <==> multiset(was)[tx] > 0;
  }

  /** The accounting after the saved entries are back and the dropped transactions are gone: the count
      is right if and only if no transaction was dropped twice. */
  lemma DrainedCounted(was: seq<Tx>, items: seq<Tx>, save: seq<Tx>, drop: seq<Tx>, gone: seq<Tx>,
                       live: set<Tx>, stales: int, r: seq<Tx>)
    requires Drained(was, items, save, drop, gone) && multiset(r) == multiset(items) + multiset(save)
    requires forall tx :: tx in drop ==> tx in live
    requires Counted(was, live, stales)
    ensures Counted(r, live - Elems(drop), stales - |gone|) <==> NoRepeat(drop)
  {
    ElemsSize(drop);
    assert Elems(drop) <= live;
    assert |live - Elems(drop)| == |live| - |Elems(drop)|;
    assert |multiset(was)| == |multiset(items)| + |multiset(save)| + |multiset(drop)| + |multiset(gone)|;
    assert |multiset(r)| == |multiset(items)| + |multiset(save)|;
  }

  /** The same with what is lost: each entry of a dropped transaction beyond its first. */
  lemma DrainedTally(was: seq<Tx>, items: seq<Tx>, save: seq<Tx>, drop: seq<Tx>, gone: seq<Tx>, live: set<Tx>,
                     a: Ledger, b: Ledger)
    requires Drained(was, items, save, drop, gone) && a.items == was
    requires multiset(b.items) == multiset(items) + multiset(save)
    requires forall tx :: tx in drop ==> tx in live
    requires b.stales == a.stales - |gone| && b.lost == a.lost + |drop| - |Elems(drop)|
    ensures Tally(a, |live|) ==> Tally(b, |live - Elems(drop)|)
  {
    assert Elems(drop) <= live;
    assert |live - Elems(drop)| == |live| - |Elems(drop)|;
    assert |multiset(was)| == |multiset(items)| + |multiset(save)| + |multiset(drop)| + |multiset(gone)|;
    assert |multiset(b.items)| == |multiset(items)| + |multiset(save)|;
  }

  /** What is still live is still covered, and nothing is new; single entries stay single, and none is dropped twice. */
  lemma DrainedFollows(was: seq<Tx>, items: seq<Tx>, save: seq<Tx>, drop: seq<Tx>, gone: seq<Tx>,
                       live: set<Tx>, r: seq<Tx>)
    requires Drained(was, items, save, drop, gone) && Covers(was, live)
    requires multiset(r) == multiset(items) + multiset(save)
    requires forall tx :: tx in gone ==> tx !in live
    requires forall tx :: tx in drop ==> tx in live
    ensures Covers(r, live - Elems(drop)) && forall x :: x in r ==> x in was
    ensures NoRepeat(was) ==> NoRepeat(drop) && NoRepeat(r)
  {
    forall tx ensures (tx in live - Elems(drop) ==> tx in r) && (tx in r ==> tx in was) {
      DrainedMember(was, items, save, drop, gone, tx);
      assert tx in r <==> tx in multiset(r);
    }
    if NoRepeat(was) {
      OnceEach(was);
      forall x ensures multiset(r)[x] <= 1 && multiset(drop)[x] <= 1 { assert multiset(was)[x] <= 1; }
      OnceEach(r);
      OnceEach(drop);
    }
  }

  lemma DrainedEntries(a: Ledger, b: Ledger, drop: seq<Tx>)
    requires forall x :: x in b.items ==> x in a.items
    requires NoRepeat(a.items) ==> NoRepeat(drop) && NoRepeat(b.items)
    requires b.doubled == a.doubled && b.lost == a.lost + |drop| - |Elems(drop)|
    ensures Follows(a, b, [])
  {
    hide NoRepeat, Elems;
    ElemsSize(drop);
  }

  /** Which entries go when the heap is emptied up to a price. */
  lemma DrainedBelow(was: seq<Tx>, items: seq<Tx>, save: seq<Tx>, drop: seq<Tx>, gone: seq<Tx>,
                     live: set<Tx>, locals: set<Address>, threshold: int, x: Tx)
    requires Drained(was, items, save, drop, gone)
    requires forall tx :: tx in gone ==> tx !in live
    requires forall tx :: tx in drop ==> tx in live && tx.price < threshold && tx.sender !in locals
    requires forall tx :: tx in save ==> tx.price >= threshold || tx.sender in locals
    requires forall tx :: tx in items ==> tx.price >= threshold
    ensures multiset(drop)[x] == if x in live && x.price < threshold && x.sender !in locals then multiset(was)[x] else 0
  {
    assert multiset(items)[x] > 0 <==> x in items;
    assert multiset(save)[x] > 0 <==> x in save;
    assert multiset(drop)[x] > 0 <==> x in drop;
    assert multiset(gone)[x] > 0 <==> x in gone;
  }

  lemma DrainedLive(was: seq<Tx>, items: seq<Tx>, gone: seq<Tx>, t: Tx)
    requires Drained(was, items, [], [], gone) && t !in gone
    ensures multiset(items)[t] == multiset(was)[t]
  {}

  /** Counting over the parts of a drained heap. */
  lemma DrainedNumber(was: seq<Tx>, items: seq<Tx>, save: seq<Tx>, drop: seq<Tx>, gone: seq<Tx>, p: Tx -> bool)
    requires Drained(was, items, save, drop, gone)
    ensures Number(was, p) == Number(items, p) + Number(save, p) + Number(drop, p) + Number(gone, p)
  {
    assert multiset(was) == multiset(items + save + drop + gone);
    NumberPermuted(was, items + save + drop + gone, p);
    NumberAppend(items + save + drop, gone, p);
    NumberAppend(items + save, drop, p);
    NumberAppend(items, save, p);
  }

  /** What emptying the heap until count remote transactions are found leaves. */
  ghost predicate PoppedCheapest(items: seq<Tx>, save: seq<Tx>, drop: seq<Tx>, gone: seq<Tx>,
                           live: set<Tx>, locals: set<Address>, count: int) {
    && (forall tx :: tx in gone ==> tx !in live)
    && (forall tx :: tx in drop ==> tx in live && tx.sender !in locals)
    && (forall tx :: tx in save ==> tx.sender in locals)
    && (forall d, x :: d in drop && x in items ==> !PriceLess(x, d))
    && |drop| <= (if count > 0 then count else 0) && (|drop| < count ==> items == [])
  }

  /** If a transaction goes, so does everything that ranks before it. */
  lemma DroppedAtMost(was: seq<Tx>, items: seq<Tx>, save: seq<Tx>, drop: seq<Tx>, gone: seq<Tx>,
                      live: set<Tx>, locals: set<Address>, count: int, t: Tx)
    requires Drained(was, items, save, drop, gone) && PoppedCheapest(items, save, drop, gone, live, locals, count)
    ensures multiset(drop)[t] <= multiset(was)[t]
    ensures t in drop ==> Number(was, RanksBefore(live, locals, t)) + multiset(drop)[t] <= count
  {
    if t in drop {
      var p := RanksBefore(live, locals, t);
      DrainedNumber(was, items, save, drop, gone, p);
      NumberAll(items, p);
      NumberAll(save, p);
      NumberAll(gone, p);
      NumberOf(drop, t);
      NumberApart(drop, p, Is(t));
    }
  }

  /** If an entry of a transaction stays, as many have gone as asked for, and none that ranks after it. */
  lemma DroppedAtLeast(was: seq<Tx>, items: seq<Tx>, save: seq<Tx>, drop: seq<Tx>, gone: seq<Tx>,
                       live: set<Tx>, locals: set<Address>, count: int, t: Tx)
    requires Drained(was, items, save, drop, gone) && PoppedCheapest(items, save, drop, gone, live, locals, count)
    requires t in live && t.sender !in locals && multiset(drop)[t] < multiset(was)[t]
    ensures count <= |drop|
    ensures count + multiset(was)[t] <= Number(was, RanksUpTo(live, locals, t)) + multiset(drop)[t]
  {
    var p := RanksUpTo(live, locals, t);
    assert t !in save && t !in gone;
    assert multiset(save)[t] == multiset(gone)[t] == 0;
    assert multiset(items)[t] > 0 && t in items;
    DrainedNumber(was, items, save, drop, gone, p);
    NumberAll(drop, p);
    NumberOf(items, t);
    NumberWeaker(items, Is(t), p);
  }

  /** No other live remote entry has the rank of t. */
  ghost predicate Untied(was: seq<Tx>, live: set<Tx>, locals: set<Address>, t: Tx) {
    forall x :: x in was && x in live && x.sender !in locals && x != t ==> PriceLess(x, t) || PriceLess(t, x)
  }

  lemma UntiedNumber(was: seq<Tx>, live: set<Tx>, locals: set<Address>, t: Tx)
    requires t in live && t.sender !in locals && Untied(was, live, locals, t)
    ensures Number(was, RanksUpTo(live, locals, t)) == Number(was, RanksBefore(live, locals, t)) + multiset(was)[t]
  {
    NumberSplit(was, RanksUpTo(live, locals, t), RanksBefore(live, locals, t), Is(t));
    NumberOf(was, t);
  }

  function Between(n: int, most: nat): nat { if n < 0 then 0 else if n < most then n else most }

  /** How many entries of t go when the cheapest count are dropped: between those that fit behind everything else up
      to its rank, and those that fit behind everything before it. */
  ghost predicate Shares(was: seq<Tx>, drop: seq<Tx>, live: set<Tx>, locals: set<Address>, count: int, t: Tx) {
    var n, m := multiset(drop)[t], multiset(was)[t];
    && n <= m && (n > 0 ==> Number(was, RanksBefore(live, locals, t)) + n <= count)
    && (n < m ==> count + m <= Number(was, RanksUpTo(live, locals, t)) + n)
    && (Untied(was, live, locals, t) ==> n == Between(count - Number(was, RanksBefore(live, locals, t)), m))
  }

  lemma SharesAre(was: seq<Tx>, items: seq<Tx>, save: seq<Tx>, drop: seq<Tx>, gone: seq<Tx>,
                  live: set<Tx>, locals: set<Address>, count: int, t: Tx)
    requires Drained(was, items, save, drop, gone) && PoppedCheapest(items, save, drop, gone, live, locals, count)
    requires t in live && t.sender !in locals
    ensures Shares(was, drop, live, locals, count, t)
    ensures |drop| < count ==> multiset(drop)[t] == multiset(was)[t]
  {
    hide Drained, PoppedCheapest, Untied, RanksBefore, RanksUpTo, Number;
    assert t in drop <==> multiset(drop)[t] > 0;
    DroppedAtMost(was, items, save, drop, gone, live, locals, count, t);
    if multiset(drop)[t] < multiset(was)[t] {
      DroppedAtLeast(was, items, save, drop, gone, live, locals, count, t);
    }
    if Untied(was, live, locals, t) { UntiedNumber(was, live, locals, t); }
  }

  /** Some live remote transaction has two entries that both come among the cheapest count. */
  ghost predicate Wasteful(was: seq<Tx>, live: set<Tx>, locals: set<Address>, count: int) {
    exists t :: t in live && t.sender !in locals && multiset(was)[t] >= 2
                && Number(was, RanksBefore(live, locals, t)) + 2 <= count
  }

  ghost predicate DoublesUntied(was: seq<Tx>, live: set<Tx>, locals: set<Address>) {
    forall t :: t in live && t.sender !in locals && multiset(was)[t] >= 2 ==> Untied(was, live, locals, t)
  }

  /** Where no transaction that goes has two entries, none goes twice. */
  lemma SharesSingle(was: seq<Tx>, drop: seq<Tx>, live: set<Tx>, locals: set<Address>, count: int)
    requires forall t :: t in drop ==> t in live && t.sender !in locals
    requires forall t :: t in live && t.sender !in locals ==> Shares(was, drop, live, locals, count, t)
    requires Single(was, Elems(drop))
    ensures NoRepeat(drop)
  {
    hide NoRepeat, Number, Untied, RanksBefore, RanksUpTo;
    forall t ensures multiset(drop)[t] <= 1 {
      if t in drop {
        assert t in Elems(drop);
        assert Shares(was, drop, live, locals, count, t);
      }
    }
    OnceEach(drop);
  }

  /** When a transaction goes twice, from the state before. */
  lemma WastefulIff(was: seq<Tx>, drop: seq<Tx>, live: set<Tx>, locals: set<Address>, count: int)
    requires forall t :: t in drop ==> t in live && t.sender !in locals
    requires forall t :: t in live && t.sender !in locals ==> Shares(was, drop, live, locals, count, t)
    ensures !NoRepeat(drop) ==> Wasteful(was, live, locals, count)
    ensures DoublesUntied(was, live, locals) ==> (NoRepeat(drop) <==> !Wasteful(was, live, locals, count))
  {
    hide NoRepeat, Number, Untied, RanksBefore, RanksUpTo;
    OnceEach(drop);
    if !NoRepeat(drop) {
      var t :| multiset(drop)[t] > 1;
      assert t in drop;
      assert Shares(was, drop, live, locals, count, t);
    }
    if DoublesUntied(was, live, locals) && Wasteful(was, live, locals, count) {
      var t :| t in live && t.sender !in locals && multiset(was)[t] >= 2
               && Number(was, RanksBefore(live, locals, t)) + 2 <= count;
      assert Shares(was, drop, live, locals, count, t);
      assert multiset(drop)[t] >= 2;
    }
  }

  lemma TooFew(drop: seq<Tx>, count: int)
    requires |drop| <= if count > 0 then count else 0
    ensures !NoRepeat(drop) ==> |Elems(drop)| < count
  {
    ElemsSize(drop);
  }

  class TxLookup {
    var all: set<Tx>
    constructor ()
      ensures all == {}
    {
      all := {};
    }
  }

  class TxPricedList {
    const all: TxLookup
    var items: seq<Tx>
    var stales: int
    ghost var doubled: nat
    ghost var lost: nat

    ghost predicate Valid()
      reads this
    {
      PriceHeap(items)
    }

    ghost function Entries(): Ledger
      reads this
    {
      Ledger(items, stales, doubled, lost)
    }

    constructor (all: TxLookup)
      ensures Valid() && this.all == all && Entries() == Ledger([], 0, 0, 0)
    {
      this.all := all;
      items, stales, doubled, lost := [], 0, 0, 0;
    }

    method Put(tx: Tx)
      requires Valid()
      modifies this
      ensures Valid() && Entered(old(Entries()), Entries(), tx)
      ensures forall x :: x in items <==> x in old(items) || x == tx
    {
      if tx in items { doubled := doubled + 1; }
      items := PushPrice(items, tx);
      EnteredFollows(old(Entries()), Entries(), tx, 0);
    }

    /** A live transaction has just gone: count its entry, or rebuild. */
    method Removed()
      requires Valid() && Covers(items, all.all)
      modifies this
      ensures Valid() && Covers(items, all.all) && doubled == old(doubled)
      ensures if old(stales) + 1 <= |old(items)| / 4 then Entries() == old(Entries()).(stales := old(stales) + 1)
              else multiset(items) == multiset(all.all) && stales == 0 && lost == 0
      ensures Tally(old(Entries()), |all.all| + 1) ==> Tally(Entries(), |all.all|)
      ensures Thins(old(Entries()), Entries())
      ensures Exact(old(items), all.all, old(stales) + 1) ==> Exact(items, all.all, stales)
    {
      stales := stales + 1;
      if stales <= |items| / 4 { return; }
      stales, lost := 0, 0;
      items := HeapOf(all.all);
      assert |multiset(items)| == |multiset(all.all)|;
      OnceEach(items);
      forall tx ensures tx in items <==> tx in all.all {
        assert tx in items <==> tx in multiset(items);
        assert tx in all.all <==> tx in multiset(all.all);
      }
    }

    /** Pop until the threshold is reached, setting local entries aside. */
    method DrainBelow(threshold: int, locals: set<Address>)
      returns (drop: seq<Tx>, save: seq<Tx>, ghost gone: seq<Tx>)
      requires Valid()
      modifies this`items, this`stales
      ensures Valid() && Drained(old(items), items, save, drop, gone) && stales == old(stales) - |gone|
      ensures forall tx :: tx in gone ==> tx !in all.all
      ensures forall tx :: tx in drop ==> tx in all.all && tx.price < threshold && tx.sender !in locals
      ensures forall tx :: tx in save ==> tx.price >= threshold || tx.sender in locals
      ensures forall tx :: tx in items ==> tx.price >= threshold
    {
      hide PriceHeap, Drained;
      drop, save, gone := [], [], [];
      DrainedNothing(items);
      var reached := false;
      while |items| > 0 && !reached
        invariant PriceHeap(items) && Drained(old(items), items, save, drop, gone)
        invariant stales == old(stales) - |gone|
        invariant forall tx :: tx in gone ==> tx !in all.all
        invariant forall tx :: tx in drop ==> tx in all.all && tx.price < threshold && tx.sender !in locals
        invariant forall tx :: tx in save ==> tx.price >= threshold || tx.sender in locals
        invariant reached ==> forall tx :: tx in items ==> tx.price >= threshold
        decreases |items|, !reached
      {
        var tx;
        ghost var before := items;
        items, tx := PopPrice(items);
        DrainedStep(old(items), before, save, drop, gone, items, tx);
        if tx !in all.all {
          stales := stales - 1;
          gone := gone + [tx];
        } else if tx.price >= threshold {
          save := save + [tx];
          reached := true;
        } else if tx.sender in locals {
          save := save + [tx];
        } else {
          drop := drop + [tx];
        }
      }
    }

    /** Exactly the live remote transactions below the threshold leave the heap, with all their entries. Once
        they are gone, the count is right if and only if none of them had two. */
    method Cap(threshold: int, locals: set<Address>) returns (drop: seq<Tx>)
      requires Valid() && Covers(items, all.all)
      modifies this
      ensures Valid() && Covers(items, all.all - Elems(drop)) && Follows(old(Entries()), Entries(), [])
      ensures forall tx :: tx in drop <==> tx in all.all && tx.price < threshold && tx.sender !in locals
      ensures forall tx :: tx in drop ==> multiset(drop)[tx] == multiset(old(items))[tx]
      ensures lost == old(lost) + |drop| - |Elems(drop)|
      ensures Tally(old(Entries()), |all.all|) ==> Tally(Entries(), |all.all - Elems(drop)|)
      ensures lost == old(lost) <==> forall tx :: tx in all.all && tx.price < threshold && tx.sender !in locals ==>
                                       multiset(old(items))[tx] == 1
      ensures Counted(old(items), all.all, old(stales)) ==>
                (Counted(items, all.all - Elems(drop), stales)
                 <==> forall tx :: tx in all.all && tx.price < threshold && tx.sender !in locals ==>
                        multiset(old(items))[tx] == 1)
    {
      hide PriceHeap, Tally, Follows;
      var save;
      ghost var gone;
      drop, save, gone := DrainBelow(threshold, locals);
      ghost var rest := items;
      forall tx ensures multiset(drop)[tx] == if tx in all.all && tx.price < threshold && tx.sender !in locals
                                              then multiset(old(items))[tx] else 0 {
        DrainedBelow(old(items), rest, save, drop, gone, all.all, locals, threshold, tx);
      }
      forall tx | tx in all.all && tx.price < threshold && tx.sender !in locals ensures multiset(old(items))[tx] > 0 {
        assert tx in multiset(old(items));
      }
      forall tx ensures tx in drop <==> multiset(drop)[tx] > 0 {}
      items := PushAll(items, save);
      OnceEach(drop);
      ElemsSize(drop);
      lost := lost + |drop| - |Elems(drop)|;
      DrainedFollows(old(items), rest, save, drop, gone, all.all, items);
      DrainedTally(old(items), rest, save, drop, gone, all.all, old(Entries()), Entries());
      DrainedEntries(old(Entries()), Entries(), drop);
      if Counted(old(items), all.all, old(stales)) {
        DrainedCounted(old(items), rest, save, drop, gone, all.all, old(stales), items);
      }
    }

    /** Whether every live transaction costs at least as much as tx, which is remote. Stale entries may go
        on the way. */
    method Underpriced(tx: Tx, locals: set<Address>) returns (r: bool)
      requires Valid() && Covers(items, all.all)
      modifies this`items, this`stales
      ensures Valid() && Covers(items, all.all)
      ensures r <==> tx.sender !in locals && all.all != {} && forall t :: t in all.all ==> tx.price <= t.price
      ensures Tally(old(Entries()), |all.all|) ==> Tally(Entries(), |all.all|)
      ensures Thins(old(Entries()), Entries())
      ensures forall t :: t in all.all ==> multiset(items)[t] == multiset(old(items))[t]
    {
      hide PriceHeap, Drained, Tally;
      if tx.sender in locals { return false; }
      ghost var was, gone := items, [];
      DrainedNothing(items);
      while |items| > 0 && items[0] !in all.all
        invariant PriceHeap(items) && Drained(was, items, [], [], gone)
        invariant stales == old(stales) - |gone|
        invariant forall t :: t in gone ==> t !in all.all
        decreases |items|
      {
        stales := stales - 1;
        var head;
        ghost var before := items;
        items, head := PopPrice(items);
        DrainedStep(was, before, [], [], gone, items, head);
        gone := gone + [head];
      }
      DrainedFollows(was, items, [], [], gone, all.all, items);
      DrainedTally(was, items, [], [], gone, all.all, old(Entries()), Entries());
      forall t | t in all.all ensures multiset(items)[t] == multiset(was)[t] { DrainedLive(was, items, gone, t); }
      assert all.all - Elems([]) == all.all;
      if |items| == 0 { return false; }
      RootIsCheapest(items);
      r := items[0].price >= tx.price;
    }

    /** Pop until count remote transactions are found, setting local entries aside. */
    method DrainCheapest(count: int, locals: set<Address>)
      returns (drop: seq<Tx>, save: seq<Tx>, ghost gone: seq<Tx>)
      requires Valid()
      modifies this`items, this`stales
      ensures Valid() && Drained(old(items), items, save, drop, gone) && stales == old(stales) - |gone|
      ensures PoppedCheapest(items, save, drop, gone, all.all, locals, count)
    {
      hide PriceHeap, Drained;
      drop, save, gone := [], [], [];
      DrainedNothing(items);
      var left := count;
      while |items| > 0 && left > 0
        invariant PriceHeap(items) && Drained(old(items), items, save, drop, gone)
        invariant stales == old(stales) - |gone|
        invariant left == count - |drop| && (count > 0 ==> left >= 0) && (count <= 0 ==> drop == [])
        invariant forall tx :: tx in gone ==> tx !in all.all
        invariant forall tx :: tx in drop ==> tx in all.all && tx.sender !in locals
        invariant forall tx :: tx in save ==> tx.sender in locals
        invariant forall d, x :: d in drop && x in items ==> !PriceLess(x, d)
        decreases |items|
      {
        var tx;
        ghost var before := items;
        items, tx := PopPrice(items);
        DrainedStep(old(items), before, save, drop, gone, items, tx);
        if tx !in all.all {
          stales := stales - 1;
          gone := gone + [tx];
        } else if tx.sender in locals {
          save := save + [tx];
        } else {
          drop := drop + [tx];
          left := left - 1;
        }
      }
    }

    /** The cheapest entries of live remote transactions leave the heap, as many as asked for if there
        are, and how many of each. The count is then right if and only if no transaction went twice, and else
        fewer go than asked for. */
    method Discard(count: int, locals: set<Address>) returns (drop: seq<Tx>)
      requires Valid() && Covers(items, all.all)
      modifies this
      ensures Valid() && Covers(items, all.all - Elems(drop)) && Follows(old(Entries()), Entries(), [])
      ensures forall tx :: tx in drop ==> tx in all.all && tx.sender !in locals
      ensures forall d, t :: d in drop && t in all.all && t.sender !in locals && t !in drop ==>
                d.price < t.price || (d.price == t.price && d.nonce >= t.nonce)
      ensures |drop| <= (if count > 0 then count else 0)
      ensures forall t :: t in all.all && t.sender !in locals ==>
                && Shares(old(items), drop, all.all, locals, count, t)
                && (|drop| < count ==> multiset(drop)[t] == multiset(old(items))[t] > 0)
      ensures lost == old(lost) + |drop| - |Elems(drop)| && (lost == old(lost) <==> NoRepeat(drop))
      ensures Tally(old(Entries()), |all.all|) ==> Tally(Entries(), |all.all - Elems(drop)|)
      ensures Counted(old(items), all.all, old(stales)) ==>
                (Counted(items, all.all - Elems(drop), stales) <==> NoRepeat(drop))
      ensures !NoRepeat(drop) ==> |Elems(drop)| < count && Wasteful(old(items), all.all, locals, count)
      ensures DoublesUntied(old(items), all.all, locals) ==>
                (NoRepeat(drop) <==> !Wasteful(old(items), all.all, locals, count))
    {
      hide PriceHeap, NoRepeat, Elems, Number, Tally, Shares, Wasteful, DoublesUntied, Follows;
      var save;
      ghost var gone;
      drop, save, gone := DrainCheapest(count, locals);
      ghost var rest := items;
      forall x ensures x in old(items) <==> x in rest || x in save || x in drop || x in gone {
        DrainedMember(old(items), rest, save, drop, gone, x);
      }
      items := PushAll(items, save);
      ElemsSize(drop);
      lost := lost + |drop| - |Elems(drop)|;
      DrainedFollows(old(items), rest, save, drop, gone, all.all, items);
      DrainedTally(old(items), rest, save, drop, gone, all.all, old(Entries()), Entries());
      DrainedEntries(old(Entries()), Entries(), drop);
      if Counted(old(items), all.all, old(stales)) {
        DrainedCounted(old(items), rest, save, drop, gone, all.all, old(stales), items);
      }
      forall t | t in all.all && t.sender !in locals
        ensures Shares(old(items), drop, all.all, locals, count, t)
        ensures |drop| < count ==> multiset(drop)[t] == multiset(old(items))[t] > 0
      {
        assert t in multiset(old(items));
        SharesAre(old(items), rest, save, drop, gone, all.all, locals, count, t);
      }
      WastefulIff(old(items), drop, all.all, locals, count);
      TooFew(drop, count);
    }
  }
}
