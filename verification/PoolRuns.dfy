/** Runs of a small pool that show what it does not promise. */
module PoolRuns {
  import opened Options
  import opened Sequences
  import opened Sets
  import opened Transactions
  import opened AccountLists
  import opened PoolAccounts
  import opened PoolResets
  import opened PoolViews
  import opened Fairness
  import opened Pricing
  import opened PoolBooks
  import opened Pool

  function Transfer(sender: Address, nonce: int, price: int): Tx {
    Tx(sender, nonce, price, 21000, 0, [], false, 100, true)
  }

  /** A state in which accounts 1 to 4 can pay for any of these transfers. */
  function Funded(nonces: map<Address, int>): ChainState {
    var m := map[1 := 1_000_000_000_000_000_000, 2 := 1_000_000_000_000_000_000,
                 3 := 1_000_000_000_000_000_000, 4 := 1_000_000_000_000_000_000];
    ChainState(nonces, m, m, 8_000_000, true)
  }

  lemma Welcome(nonces: map<Address, int>, sender: Address, nonce: int, price: int)
    requires 1 <= sender <= 4 && 0 <= price <= 1000 && Funded(nonces).Nonce(sender) <= nonce
    ensures Objection(Funded(nonces), 1, {}, Transfer(sender, nonce, price), false)
            == if price < 1 then Some(Underpriced) else None
    ensures Fits(Transfer(sender, nonce, price), Funded(nonces).LimitsOf(sender))
  {
    assert price * 21000 <= 1000 * 21000;
    assert Transfer(sender, nonce, price).Cost() == price * 21000;
  }

  lemma CheapestOne(known: set<Tx>, dropped: set<Tx>, a: Tx, b: Tx)
    requires known == {a, b} && a != b && PriceLess(b, a) && Cheapest(dropped, known, {}) && dropped != {}
    requires |dropped| <= 1
    ensures dropped == {b}
  {
    var d :| d in dropped;
    if a in dropped {
      assert b in dropped;
      assert {a, b} <= dropped;
      SubsetSize({a, b}, dropped);
    }
    assert dropped == {b};
  }

  /** Where there is room and its place is free, an admissible transaction goes in. */
  lemma Roomy(known: set<Tx>, c: Config, tx: Tx, local: bool, r: AddResult, dropped: set<Tx>)
    requires Verdict(known, {}, c, tx, local, None, r, dropped) && tx !in known
    requires |known| < Capacity(c) && forall o :: o in known ==> !SamePlace(o, tx)
    ensures r == Added(None) && dropped == {}
  {}

  /** A full pool drops the cheapest for a better offer, also when this is then refused. */
  lemma Outsider(a: Tx, b: Tx, c: Tx, config: Config, r: AddResult, dropped: set<Tx>)
    requires Verdict({a, b}, {}, config, c, false, None, r, dropped) && Capacity(config) == 2 && c !in {a, b} && a != b
    requires b.price < c.price && PriceLess(b, a) && SamePlace(a, c) && !Outbids(c, a, config.priceBump)
    ensures dropped == {b} && r == Rejected(ReplaceUnderpriced)
  {
    hide Outbids;
    var known := {a, b};
    assert |known| == 2 && b in known;
    CheapestOne(known, dropped, a, b);
    assert a in known - dropped;
  }

  /** A pool for two transactions holds one of each of two accounts. A cheaper offer for the place of the first is
      turned away, but not before the other account's transaction has been dropped to make room for it. */
  method RefusedYetDropped() returns (r: AddResult, before: set<Tx>, after: set<Tx>)
    ensures r == Rejected(ReplaceUnderpriced)
    ensures before == {Transfer(1, 0, 10), Transfer(2, 0, 1)} && after == {Transfer(1, 0, 10)}
  {
    hide Consistent, Covers, Tally, Exact, Courses, StaysSettled, Placed, Objection, Booked, BatchBooked, Silent,
         Verdict;
    var a, b, c := Transfer(1, 0, 10), Transfer(2, 0, 1), Transfer(1, 0, 5);
    Welcome(map[], 1, 0, 10);
    Welcome(map[], 2, 0, 1);
    Welcome(map[], 1, 0, 5);
    var config := Config(10, 16, 1, 64, 1, 100);
    var pool := new TxPool(config, 1, {}, Funded(map[]));
    ghost var dropped;
    r, dropped := pool.Add(a, false);
    Roomy({}, config, a, false, r, dropped);
    assert pool.all.all == {a};
    r, dropped := pool.Add(b, false);
    Roomy({a}, config, b, false, r, dropped);
    assert pool.all.all == {a, b};
    before := pool.all.all;
    r, dropped := pool.Add(c, false);
    after := pool.all.all;
    Outsider(a, b, c, config, r, dropped);
    assert {a, b} - {b} == {a};
  }

  // ---- new heads -------------------------------------------------------------------------------

  lemma PromotedOne(tx: Tx, l: Limits, cap: Option<nat>)
    requires Fits(tx, l)
    ensures Promoted(Acct(map[], map[tx.nonce := tx], tx.nonce), tx.nonce, l, cap)
            == Acct(map[tx.nonce := tx], map[], tx.nonce + 1)
  {
    hide Fits, Lowest;
    var x := Acct(map[], map[tx.nonce := tx], tx.nonce);
    var q := Swept(x, tx.nonce, l);
    assert q == x.queue;
    RunEndUnique(q, tx.nonce, tx.nonce + 1);
    assert From(q, tx.nonce + 1) == map[];
    assert Below(q, tx.nonce + 1) == q;
    CappedPart(map[], cap);
    assert Capped(map[], cap) == map[];
    assert map[] + q == q;
  }

  /** An account within its slots and with an empty queue is not touched by the limits. */
  lemma LimitedSpares(ph: Phases, w: View, locals: set<Address>, c: Config, a: Address)
    requires Limited(ph, w, locals, c) && Loose(ph.ready.At(a), a)
    requires |ph.ready.At(a).pending| <= c.accountSlots && ph.ready.At(a).queue == map[]
    ensures w.At(a) == ph.ready.At(a)
  {
    hide CutPending, Lowest, TotalAt, Total, CutDown, Trimmed, NewestFirst, WithinLimit, Tight;
    LimitedAt(ph, w, locals, c, a);
    assert ph.ready.At(a).pending == ListOf(ph.ready.pending, a);
    assert Size(ph.fair.pending, a) == Size(ph.ready.pending, a);
    CutNothing(ph.ready.At(a), a, Size(ph.fair.pending, a));
    LowestAll(map[], Size(w.queue, a));
  }

  lemma GoesIn(s: Stage, s': Stage, dropped: set<Tx>, tx: Tx, r: AddResult, c: Config)
    requires Staged(s, s', dropped, tx, r, c, 1, false) && Objection(s.view.chain, 1, {}, tx, false).None?
    requires s.locals == {}
    requires |s.known| < Capacity(c) && forall o :: o in s.known ==> !SamePlace(o, tx)
    ensures r == Added(None) && s'.known == s.known + {tx} && s'.locals == s.locals
    ensures SameBut(s.view, s'.view, tx.sender) && s'.view.At(tx.sender) == Submitted(s.view.At(tx.sender), tx)
  {
    hide Objection, SameBut, Submitted, Verdict, Booked, Marked;
    Roomy(s.known, c, tx, false, r, dropped);
  }

  lemma StaysOut(s: Stage, s': Stage, dropped: set<Tx>, tx: Tx, r: AddResult, c: Config)
    requires Staged(s, s', dropped, tx, r, c, 1, false) && Objection(s.view.chain, 1, s.locals, tx, false).Some?
    requires tx !in s.known
    ensures r.Rejected? && s'.view == s.view && s'.known == s.known && s'.locals == s.locals
  {
    hide Objection;
  }

  /** An account that has gained a transaction and has nothing left in its queue once promoted. */
  lemma LandedAt(last: Stage, gained: set<Address>, ph: Phases, s: Stage, c: Config, a: Address)
    requires Landed(last, gained, ph, s, c) && a in gained
    requires var x := PromotedAt(last.view, s.locals, c, a);
             Loose(x, a) && |x.pending| <= c.accountSlots && x.queue == map[]
    ensures s.view.At(a) == PromotedAt(last.view, s.locals, c, a)
  {
    hide Limited, Promoted;
    LimitedSpares(ph, s.view, s.locals, c, a);
  }

  lemma LandedKnown(last: Stage, gained: set<Address>, ph: Phases, s: Stage, c: Config)
    requires Landed(last, gained, ph, s, c)
    ensures s.known <= last.known && s.locals == last.locals && s.view.chain == last.view.chain
  {}

  lemma StillKnown(v: View, known: set<Tx>, tx: Tx)
    requires Consistent(v, known) && Holds(v.At(tx.sender).pending, tx)
    ensures tx in known
  {}

  /** The first transaction in an empty pool becomes pending. */
  method Opening(c: Config, nonces: map<Address, int>, sender: Address, price: int) returns (pool: TxPool, tx: Tx)
    requires c.accountSlots >= 1 && c.globalSlots >= 1 && 1 <= sender <= 4 && 1 <= price <= 1000
    ensures fresh(pool) && fresh(pool.all) && fresh(pool.priced) && pool.Valid()
    ensures pool.config == c && pool.gasPrice == 1 && pool.locals == {} && pool.chain == Funded(nonces)
    ensures tx == Transfer(sender, Funded(nonces).Nonce(sender), price) && pool.all.all == {tx}
    ensures pool.Now().At(sender) == Acct(map[tx.nonce := tx], map[], tx.nonce + 1)
  {
    hide Consistent, Covers, Tally, Exact, Courses, StaysSettled, Objection, Booked, BatchBooked, Silent, Heard,
         Promoted, Limited, PendingKept, Staged, Landed, AllSound;
    tx := Transfer(sender, Funded(nonces).Nonce(sender), price);
    Welcome(nonces, sender, tx.nonce, price);
    pool := new TxPool(c, 1, {}, Funded(nonces));
    ghost var v := pool.Now();
    assert v.At(sender) == Acct(map[], map[], tx.nonce);
    var results;
    ghost var b, ph;
    results, b, ph := pool.AddTxs([tx], false, 0);
    assert StageAt(b, [tx], results, c, 1, false, 0);
    GoesIn(b.stages[0], b.stages[1], b.drops[0], tx, results[0], c);
    assert sender in Gained([tx], results) by { assert [tx][0].sender == sender; }
    PromotedOne(tx, Funded(nonces).LimitsOf(sender), QueueCap({}, c, sender));
    LandedAt(b.stages[1], Gained([tx], results), ph, pool.Snapshot(), c, sender);
    StillKnown(pool.Now(), pool.all.all, tx);
    LandedKnown(b.stages[1], Gained([tx], results), ph, pool.Snapshot(), c);
  }

  /** In a pool for one, a better offer takes the place of what is there. */
  lemma MakesWay(s: Stage, s': Stage, dropped: set<Tx>, tx: Tx, back: Tx, r: AddResult, c: Config)
    requires Staged(s, s', dropped, back, r, c, 1, false) && Objection(s.view.chain, 1, {}, back, false).None?
    requires s.known == {tx} && s.locals == {} && Capacity(c) == 1 && tx.price < back.price
    ensures tx !in s'.known
  {
    hide Objection, Placed;
    assert |s.known| == 1 && tx in s.known;
    var d :| d in dropped;
    assert d == tx;
  }

  lemma OpeningGapless(v: View, tx: Tx)
    requires v.At(tx.sender) == Acct(map[tx.nonce := tx], map[], tx.nonce + 1) && v.chain.Nonce(tx.sender) == tx.nonce
    ensures v.GaplessAt(tx.sender)
  {}

  lemma NotKept(v: View, mid: View, known: set<Tx>, tx: Tx)
    requires Consistent(mid, known) && tx !in known && Holds(v.At(tx.sender).pending, tx)
    requires tx.nonce < mid.chain.Nonce(tx.sender)
    ensures !MinedKept(v.At(tx.sender), mid.At(tx.sender), mid.chain.Nonce(tx.sender))
  {
    assert !Carries(mid.At(tx.sender), tx);
  }

  lemma Fallen(v: View, mid: View, ready: View, w: View, a: Address)
    requires v.GaplessAt(a) && Outcome(v, mid, ready, w, a) && v.chain.Nonce(a) <= mid.chain.Nonce(a)
    requires !MinedKept(v.At(a), mid.At(a), mid.chain.Nonce(a))
    ensures w.At(a).next < mid.chain.Nonce(a)
  {}

  /** A full pool holds one transaction, and a new head mines it and brings back another account's. The mined one is
      dropped to make room before the lists are demoted; and then the pool's next nonce for its account is the
      one just mined, below the account's own. */
  method MinedDropped() returns (nonce: int, next: int)
    ensures nonce == 1 && next < nonce
  {
    hide Consistent, Covers, Tally, Exact, Booked, BatchBooked, Heard, Promoted, Limited, Outcome, Objection, Demoted,
         Staged, Landed, AllSound, AllGapless, MinedKept;
    var c := Config(10, 1, 1, 64, 0, 100);
    var pool, tx := Opening(c, map[], 1, 5);
    var back := Transfer(2, 0, 9);
    var head := Funded(map[1 := 1]);
    Welcome(map[1 := 1], 2, 0, 9);
    ghost var v := pool.Now();
    ghost var re := pool.Reset(head, [back], 0);
    assert StageAt(re.batch, [back], re.results, c, 1, false, 0);
    MakesWay(re.batch.stages[0], re.batch.stages[1], re.batch.drops[0], tx, back, re.results[0], c);
    LandedKnown(re.batch.stages[1], Gained([back], re.results), re.landing, re.mid, c);
    NotKept(v, re.mid.view, re.mid.known, tx);
    nonce, next := pool.chain.Nonce(1), NextOf(pool.nonces, pool.chain, 1);
    OpeningGapless(v, tx);
    Fallen(v, re.mid.view, re.ph.ready, pool.Now(), 1);
  }

  lemma PromotedBelow(p: TxMap, tx: Tx, l: Limits, cap: Option<nat>)
    requires Fits(tx, l) && tx.nonce !in p
    ensures Promoted(Acct(p, map[tx.nonce := tx], tx.nonce), tx.nonce, l, cap)
            == Acct(p + map[tx.nonce := tx], map[], tx.nonce + 1)
  {
    hide Fits, Lowest;
    var x := Acct(p, map[tx.nonce := tx], tx.nonce);
    var q := Swept(x, tx.nonce, l);
    assert q == x.queue;
    RunEndUnique(q, tx.nonce, tx.nonce + 1);
    assert From(q, tx.nonce + 1) == map[];
    assert Below(q, tx.nonce + 1) == q;
    CappedPart(map[], cap);
    assert Capped(map[], cap) == map[];
  }

  /** Where everything pending is payable and the account's nonce is among it, demotion only sets the next nonce. */
  lemma DemotedWhole(x: Acct, a: Address, nonce: int, l: Limits)
    requires Filed(x.pending, a) && AllFit(x.pending, l) && nonce in x.pending && forall n :: n in x.pending ==>
               nonce <= n
    ensures Demoted(x, nonce, l) == x.(next := Highest(x.pending) + 1)
  {
    hide Fits, Highest;
    var p := From(x.pending, nonce);
    assert p == x.pending;
    assert Retained(p, true, l) == p;
    assert Stranded(p, true, l) == map[];
    assert x.queue + map[] == x.queue;
  }

  lemma GapOpens(last: Stage, gained: set<Address>, re: Replay, c: Config, first: Tx, third: Tx)
    requires first == Transfer(1, 0, 5) && third == Transfer(1, 2, 5) && last.view.chain == Funded(map[])
    requires last.locals == {}
    requires last.view.At(1) == Acct(map[2 := third], map[0 := first], 0) && 1 in gained && c.accountSlots >= 2
    requires Landed(last, gained, re.landing, re.mid, c)
    ensures re.mid.view.At(1) == Acct(map[2 := third, 0 := first], map[], 1)
    ensures re.mid.view.chain == Funded(map[]) && re.mid.locals == {}
  {
    hide Promoted, Limited, Fits, Lowest, Landed;
    Welcome(map[], 1, 0, 5);
    LandedKnown(last, gained, re.landing, re.mid, c);
    PromotedBelow(map[2 := third], first, Funded(map[]).LimitsOf(1), QueueCap({}, c, 1));
    assert map[2 := third] + map[0 := first] == map[2 := third, 0 := first];
    assert |map[2 := third, 0 := first]| == 2;
    LandedAt(last, gained, re.landing, re.mid, c, 1);
  }

  lemma GapStays(re: Replay, w: View, c: Config, first: Tx, third: Tx)
    requires first == Transfer(1, 0, 5) && third == Transfer(1, 2, 5) && c.accountSlots >= 2
    requires re.mid.view.At(1) == Acct(map[2 := third, 0 := first], map[], 1) && re.mid.view.chain == Funded(map[])
    requires Limited(re.ph, w, {}, c)
    requires re.ph.ready.At(1) == Promoted(DemotedAt(re.mid.view, 1), 0, Funded(map[]).LimitsOf(1), QueueCap({}, c, 1))
    ensures w.At(1) == Acct(map[2 := third, 0 := first], map[], 3)
  {
    hide Promoted, Limited, Demoted, Fits, Lowest, Highest;
    var l, both := Funded(map[]).LimitsOf(1), map[2 := third, 0 := first];
    Welcome(map[], 1, 0, 5);
    Welcome(map[], 1, 2, 5);
    assert |both| == 2;
    DemotedWhole(re.mid.view.At(1), 1, 0, l);
    HighestIs(both, 1);
    PromotedNothing(DemotedAt(re.mid.view, 1), 0, l, QueueCap({}, c, 1));
    LimitedSpares(re.ph, w, {}, c, 1);
  }

  lemma TornOutcome(v: View, re: Replay, w: View, c: Config, first: Tx, second: Tx, third: Tx)
    requires first == Transfer(1, 0, 5) && second == Transfer(1, 1, 0) && third == Transfer(1, 2, 5)
    requires c == Config(10, 16, 16, 64, 16, 100)
    requires v.At(1) == Acct(map[2 := third], map[], 3)
    requires Batched(re.batch, [first, second], re.results, c, 1, false)
    requires var s := re.batch.stages[0]; s.view == Moved(v, Funded(map[])) && s.known == {third} && s.locals == {}
    requires Landed(re.batch.stages[2], Gained([first, second], re.results), re.landing, re.mid, c)
    requires re.ph.ready.At(1) == Promoted(DemotedAt(re.mid.view, 1), 0, Funded(map[]).LimitsOf(1), QueueCap({}, c, 1))
    requires Limited(re.ph, w, {}, c)
    ensures w.At(1) == Acct(map[2 := third, 0 := first], map[], 3)
  {
    hide Promoted, Limited, Objection, Demoted, Fits, Lowest, Staged, Landed;
    var b, txs := re.batch, [first, second];
    Welcome(map[], 1, 0, 5);
    Welcome(map[], 1, 1, 0);
    assert StageAt(b, txs, re.results, c, 1, false, 0) && StageAt(b, txs, re.results, c, 1, false, 1);
    GoesIn(b.stages[0], b.stages[1], b.drops[0], first, re.results[0], c);
    StaysOut(b.stages[1], b.stages[2], b.drops[1], second, re.results[1], c);
    assert 1 in Gained(txs, re.results) by { assert txs[0].sender == 1; }
    assert v.At(1).pending == ListOf(v.pending, 1) && v.At(1).queue == ListOf(v.queue, 1);
    GapOpens(b.stages[2], Gained(txs, re.results), re, c, first, third);
    GapStays(re, w, c, first, third);
  }

  /** A new head takes back two of an account's transactions while a third is pending, and only the first of the two
      is let in again. The gap between the first and the third stays in the pending list. */
  method TornApart() returns (list: TxMap, next: int)
    ensures list.Keys == {0, 2} && next == 3
  {
    hide Consistent, Covers, Tally, Exact, Booked, BatchBooked, Heard, Promoted, Limited, Outcome, Objection, Demoted,
         Fits, Lowest, Batched, Landed, AllSound, AllGapless, MinedKept, Current;
    var c := Config(10, 16, 16, 64, 16, 100);
    var pool, third := Opening(c, map[1 := 2], 1, 5);
    var first, second := Transfer(1, 0, 5), Transfer(1, 1, 0);
    var head := Funded(map[]);
    ghost var v := pool.Now();
    ghost var re := pool.Reset(head, [first, second], 0);
    TornOutcome(v, re, pool.Now(), c, first, second, third);
    list, next := ListOf(pool.pending, 1), NextOf(pool.nonces, pool.chain, 1);
    assert pool.Now().At(1) == Acct(map[2 := third, 0 := first], map[], 3);
  }

  // ---- the price heap ---------------------------------------------------------------------------

  /** An exact heap of the given transactions has one entry for each and none that is stale. */
  lemma EntriesOf(items: seq<Tx>, known: set<Tx>, stales: int, txs: seq<Tx>)
    requires Exact(items, known, stales) && known == Elems(txs) && NoRepeat(txs)
    requires forall x :: x in items ==> x in txs
    ensures multiset(items) == multiset(txs) && stales == 0
  {
    OnceEach(items);
    OnceEach(txs);
    ElemsSize(txs);
    forall x ensures multiset(items)[x] == multiset(txs)[x] {
      assert x in items <==> multiset(items)[x] > 0;
      assert x in txs <==> multiset(txs)[x] > 0;
      assert x in txs <==> x in known;
    }
    assert multiset(items) == multiset(txs);
    assert |multiset(items)| == |multiset(txs)|;
  }

  /** The first batch in an empty pool. */
  lemma FirstEntries(e: Ledger, b: Batch, txs: seq<Tx>, results: seq<AddResult>)
    requires |b.stages| == |txs| + 1 && |b.drops| == |results| == |txs| && NoRepeat(txs)
    requires BatchBooked(Ledger([], 0, 0, 0), e, b, txs, results)
    ensures e.doubled == 0 && forall x :: x in e.items ==> x in txs
  {
    hide NoRepeat, Clean, Thrifty;
    assert Unseen(txs, []);
  }

  /** A transaction behind a gap is not promoted. */
  lemma NotPromoted(tx: Tx, nonce: int, l: Limits, cap: Option<nat>)
    requires nonce < tx.nonce
    ensures Promoted(Acct(map[], map[tx.nonce := tx], nonce), nonce, l, cap).pending == map[]
  {
    hide Fits, Lowest;
    var x := Acct(map[], map[tx.nonce := tx], nonce);
    var q := Swept(x, nonce, l);
    assert forall n :: n in q ==> n == tx.nonce;
    assert Start(q, nonce) == nonce;
    RunEndUnique(q, nonce, nonce);
    assert Below(q, nonce) == map[];
  }

  lemma NothingPending(last: Stage, gained: set<Address>, ph: Phases, s: Stage, c: Config, a: Address)
    requires Landed(last, gained, ph, s, c) && a in gained && PromotedAt(last.view, s.locals, c, a).pending == map[]
    ensures s.view.At(a).pending == map[]
  {
    hide Limited, Promoted, Lowest;
    LimitedAt(ph, s.view, s.locals, c, a);
    assert Flat(map[]) == [];
  }

  function Offer(a: Address): Tx { if a == 1 then Transfer(1, 1, 2) else Transfer(a, 0, 5) }

  function Offers(): seq<Tx> { [Offer(1), Offer(2), Offer(3), Offer(4)] }

  function OfferQueued(a: Address): Acct { Acct(map[], map[Offer(a).nonce := Offer(a)], 0) }

  /** The first i offers are queued, and nothing else is there. */
  ghost predicate Offered(s: Stage, i: nat) {
    && i <= 4 && s.known == Elems(Offers()[..i]) && s.locals == {} && s.view.chain == Funded(map[])
    && forall a :: 1 <= a <= 4 ==> s.view.At(a) == if a <= i then OfferQueued(a) else Acct(map[], map[], 0)
  }

  lemma Unoffered(s: Stage)
    requires s == Stage(View(map[], map[], map[], Funded(map[])), {}, {}, Ledger([], 0, 0, 0))
    ensures Offered(s, 0)
  {
    assert forall a :: s.view.At(a) == Acct(map[], map[], 0);
  }

  lemma OffersApart(i: nat)
    requires i < 4
    ensures Offers()[i] == Offer(i + 1) && |Elems(Offers()[..i])| <= i
    ensures Elems(Offers()[..i + 1]) == Elems(Offers()[..i]) + {Offer(i + 1)}
    ensures forall o :: o in Elems(Offers()[..i]) ==> !SamePlace(o, Offer(i + 1))
  {
    assert Offers()[..i + 1] == Offers()[..i] + [Offer(i + 1)];
    ElemsSize(Offers()[..i]);
  }

  lemma OneMore(s: Stage, s': Stage, dropped: set<Tx>, r: AddResult, c: Config, i: nat)
    requires Offered(s, i) && i < 4 && Capacity(c) >= 4 && Staged(s, s', dropped, Offers()[i], r, c, 1, false)
    ensures Offered(s', i + 1) && r == Added(None)
  {
    hide Objection, Staged, NoRepeat, Offers, SamePlace, Elems;
    var tx := Offer(i + 1);
    OffersApart(i);
    Welcome(map[], i + 1, tx.nonce, tx.price);
    GoesIn(s, s', dropped, tx, r, c);
    forall a | 1 <= a <= 4 ensures s'.view.At(a) == if a <= i + 1 then OfferQueued(a) else Acct(map[], map[], 0) {
      if a != i + 1 { assert s'.view.At(a) == s.view.At(a); }
    }
  }

  lemma FourStages(b: Batch, results: seq<AddResult>, c: Config)
    requires Batched(b, Offers(), results, c, 1, false) && Capacity(c) >= 4
    requires b.stages[0] == Stage(View(map[], map[], map[], Funded(map[])), {}, {}, Ledger([], 0, 0, 0))
    ensures Offered(b.stages[4], 4) && forall a :: 1 <= a <= 4 ==> a in Gained(Offers(), results)
  {
    hide Staged, Offered;
    var txs := Offers();
    Unoffered(b.stages[0]);
    for i := 0 to 4
      invariant Offered(b.stages[i], i) && forall j :: 0 <= j < i ==> results[j] == Added(None)
    {
      assert StageAt(b, txs, results, c, 1, false, i);
      OneMore(b.stages[i], b.stages[i + 1], b.drops[i], results[i], c, i);
    }
    forall a | 1 <= a <= 4 ensures a in Gained(txs, results) {
      assert results[a - 1] == Added(None) && txs[a - 1].sender == a;
    }
  }

  /** Where the offers are: the first in the queue, the others pending. */
  ghost predicate InPlace(v: View) {
    v.At(1).pending == map[] && forall a :: 2 <= a <= 4 ==> Holds(v.At(a).pending, Offer(a))
  }

  lemma OffersLand(last: Stage, gained: set<Address>, ph: Phases, s: Stage, c: Config)
    requires Offered(last, 4) && Landed(last, gained, ph, s, c) && c.accountSlots >= 1
    requires forall a :: 1 <= a <= 4 ==> a in gained
    ensures InPlace(s.view)
  {
    hide Landed, Promoted, Fits;
    LandedKnown(last, gained, ph, s, c);
    NotPromoted(Offer(1), 0, Funded(map[]).LimitsOf(1), QueueCap({}, c, 1));
    NothingPending(last, gained, ph, s, c, 1);
    forall a | 2 <= a <= 4 ensures Holds(s.view.At(a).pending, Offer(a)) {
      Welcome(map[], a, 0, 5);
      PromotedOne(Offer(a), Funded(map[]).LimitsOf(a), QueueCap({}, c, a));
      LandedAt(last, gained, ph, s, c, a);
    }
  }

  lemma OfferedKnown(s: Stage)
    requires Offered(s, 4)
    ensures s.known == Elems(Offers()) && s.locals == {}
  {
    assert Offers()[..4] == Offers();
  }

  lemma OffersEncodable()
    ensures Encodable(Offers()) && NoRepeat(Offers()) && |Offers()| == 4
  {}

  /** Four offers to an empty pool. */
  method FourOffers(c: Config) returns (pool: TxPool)
    requires c == Config(10, 16, 16, 64, 16, 100)
    ensures fresh(pool) && fresh(pool.all) && fresh(pool.priced) && pool.Valid() && pool.config == c
    ensures pool.gasPrice == 1 && pool.locals == {} && pool.chain == Funded(map[])
    ensures pool.all.all == Elems(Offers()) && multiset(pool.priced.items) == multiset(Offers())
    ensures pool.priced.stales == 0
    ensures InPlace(pool.Now()) && Heard(map[], pool.beats, 0)
  {
    hide Consistent, Covers, Tally, Exact, Courses, StaysSettled, Objection, Booked, BatchBooked, Silent, Heard,
         Promoted, Limited, PendingKept, StageAt, Landed, AllSound, Offered, InPlace, Offers;
    var txs := Offers();
    OffersEncodable();
    pool := new TxPool(c, 1, {}, Funded(map[]));
    assert pool.beats == map[];
    var results;
    ghost var b, ph;
    results, b, ph := pool.AddTxs(txs, false, 0);
    FourStages(b, results, c);
    OffersLand(b.stages[4], Gained(txs, results), ph, pool.Snapshot(), c);
    OfferedKnown(b.stages[4]);
    FirstEntries(pool.priced.Entries(), b, txs, results);
    EntriesOf(pool.priced.items, pool.all.all, pool.priced.stales, txs);
  }

  lemma FirstKnown(known: set<Tx>)
    requires known == Elems(Offers())
    ensures Offer(1) in known
  {
    assert Offers()[0] == Offer(1);
  }

  lemma OfferPlace(v: View, known: set<Tx>, t: Tx)
    requires Consistent(v, known) && known == Elems(Offers()) && InPlace(v)
    ensures Holds(v.At(t.sender).pending, t) <==> t in known && t != Offer(1)
  {
    hide Loose;
    assert t in known <==> Carries(v.At(t.sender), t);
    if t in known && t != Offer(1) { assert t == Offer(t.sender) && 2 <= t.sender <= 4; }
  }

  lemma OnlyPending(w: View, known: set<Tx>, t: Tx)
    requires Consistent(w, known) && w.At(t.sender).queue == map[]
    ensures t in known <==> Holds(w.At(t.sender).pending, t)
  {
    assert t in known <==> Carries(w.At(t.sender), t);
  }

  /** The queued offer is dropped, the others stay. */
  lemma FirstGone(v: View, known: set<Tx>, w: View, known': set<Tx>)
    requires Consistent(v, known) && Consistent(w, known') && known == Elems(Offers()) && InPlace(v)
    requires forall a :: w.At(a) == v.At(a).(queue := map[])
    ensures known' == known - {Offer(1)} && |known| == 4 && |known'| == 3
  {
    hide NoRepeat, Elems, Offers, Carries, InPlace, Loose;
    OffersEncodable();
    ElemsSize(Offers());
    FirstKnown(known);
    forall t ensures t in known' <==> t in known && t != Offer(1) {
      OfferPlace(v, known, t);
      OnlyPending(w, known', t);
    }
    assert known' == known - {Offer(1)};
  }

  lemma FirstFree(known: set<Tx>)
    requires known == Elems(Offers()) - {Offer(1)}
    ensures forall o :: o in known ==> !SamePlace(o, Offer(1))
  {}

  lemma TwoEntries(items: seq<Tx>)
    requires multiset(items) == multiset(Offers()) + multiset{Offer(1)}
    ensures |items| == 5 && multiset(items)[Offer(1)] == 2
  {
    assert |multiset(items)| == |multiset(Offers())| + 1;
    assert Offer(1) !in Offers()[1..];
    assert Offers() == [Offer(1)] + Offers()[1..];
    assert multiset(Offers()[1..])[Offer(1)] == 0;
  }

  lemma Miscounted(g: Ledger, n: int)
    requires Tally(g, n) && g.lost > 0
    ensures |g.items| != n + g.stales
  {}

  /** The first of four remote transactions times out in the queue, and its entry in the price heap is only counted as
      stale. It comes back and gets a second one; and both are taken out when the price floor is raised above it. The
      count of stale entries is then wrong. */
  method CountedTwice() returns (entries: nat, live: nat, stales: int)
    ensures entries != live + stales
  {
    hide Consistent, Covers, Tally, Exact, Courses, StaysSettled, Objection, Booked, BatchBooked, Silent, Promoted,
         PendingKept, Verdict, Placed, InPlace, PriceHeap, Offers, Follows, Thins, Single, Marked;
    var c := Config(10, 16, 16, 64, 16, 100);
    var pool := FourOffers(c);
    ghost var v, known, items := pool.Now(), pool.all.all, pool.priced.items;
    pool.EvictIdle(1000);
    FirstGone(v, known, pool.Now(), pool.all.all);
    assert |items| == 4 by { OffersEncodable(); assert |multiset(items)| == |multiset(Offers())|; }
    assert pool.priced.items == items && pool.priced.stales == 1;
    Welcome(map[], 1, 1, 2);
    FirstFree(pool.all.all);
    ghost var kept := pool.all.all;
    var r;
    ghost var dropped;
    r, dropped := pool.Add(Offer(1), false);
    Roomy(kept, c, Offer(1), false, r, dropped);
    assert |pool.all.all| == 4;
    TwoEntries(pool.priced.items);
    pool.SetGasPrice(3);
    Miscounted(pool.priced.Entries(), |pool.all.all|);
    entries, live, stales := |pool.priced.items|, |pool.all.all|, pool.priced.stales;
  }

  // ---- locals -------------------------------------------------------------------------------------

  lemma WelcomeLocal(sender: Address, nonce: int, price: int)
    requires 1 <= sender <= 4 && 1 <= price <= 1000 && 0 <= nonce
    ensures Objection(Funded(map[]), 1, {}, Transfer(sender, nonce, price), true).None?
  {
    Welcome(map[], sender, nonce, price);
  }

  /** Where there is room, a sufficiently better offer replaces the one in its place. */
  lemma TakesOver(o: Tx, c: Config, tx: Tx, local: bool, r: AddResult, dropped: set<Tx>)
    requires Verdict({o}, {}, c, tx, local, None, r, dropped) && tx != o && Capacity(c) > 1
    requires SamePlace(o, tx) && Outbids(tx, o, c.priceBump)
    ensures r == Added(Some(o)) && dropped == {}
  {
    hide Outbids;
    assert |{o}| == 1 && {o} - {} == {o};
  }

  lemma SwappedIn(v: View, w: View, o: Tx, tx: Tx, r: AddResult)
    requires v.At(1).pending == map[0 := o] && tx.sender == 1 && tx.nonce == 0 && r == Added(Some(o))
    requires Placed(v, w, tx, r)
    ensures After({o}, tx, r, {}) == {tx} && 1 !in ListOf(w.pending, 1)
  {
    assert w.At(1).pending == ListOf(w.pending, 1);
    assert {o} - {} - {o} + {tx} == {tx};
  }

  /** A local offer that replaces a pending transaction does not make its sender local; the next one, which
      does not, does. */
  method LocalReplacement() returns (r: AddResult, replacing: set<Address>, s: AddResult, queuing: set<Address>)
    ensures r == Added(Some(Transfer(1, 0, 5))) && replacing == {}
    ensures s == Added(None) && queuing == {1}
  {
    hide Consistent, Covers, Tally, Exact, Courses, StaysSettled, Objection, Booked, Silent, Verdict, Single, Entered,
         After, Placed, SetOf;
    var c := Config(10, 16, 16, 64, 16, 100);
    var pool, tx := Opening(c, map[], 1, 5);
    var better, next := Transfer(1, 0, 9), Transfer(1, 1, 5);
    WelcomeLocal(1, 0, 9);
    WelcomeLocal(1, 1, 5);
    ghost var v := pool.Now();
    assert v.At(1).pending == ListOf(pool.pending, 1);
    ghost var dropped;
    r, dropped := pool.Add(better, true);
    TakesOver(tx, c, better, true, r, dropped);
    SwappedIn(v, pool.Now(), tx, better, r);
    replacing := pool.locals;
    s, dropped := pool.Add(next, true);
    Roomy({better}, c, next, true, s, dropped);
    queuing := pool.locals;
  }

  // ---- the price bump -----------------------------------------------------------------------------

  /** Where there is room, only the price of the one in its place decides upon an admissible offer. */
  lemma PriceDecides(o: Tx, c: Config, tx: Tx, r: AddResult, dropped: set<Tx>)
    requires Verdict({o}, {}, c, tx, false, None, r, dropped) && tx != o && Capacity(c) > 1
    ensures dropped == {} && (r.Added? || r == Rejected(ReplaceUnderpriced))
  {
    assert |{o}| == 1;
  }

  /** With a bump of ten percent, an offer of 101 does not replace one of 100; an offer of 110 does. */
  method BelowTheBump() returns (r: AddResult, s: AddResult)
    ensures r == Rejected(ReplaceUnderpriced) && s == Added(Some(Transfer(1, 0, 100)))
  {
    hide Consistent, Covers, Tally, Exact, Courses, StaysSettled, Objection, Booked, Silent, Verdict, Single, Entered,
         Placed, SetOf, Marked;
    var c := Config(10, 16, 16, 64, 16, 100);
    var pool, tx := Opening(c, map[], 1, 100);
    Welcome(map[], 1, 0, 101);
    Welcome(map[], 1, 0, 110);
    ghost var dropped;
    r, dropped := pool.Add(Transfer(1, 0, 101), false);
    PriceDecides(tx, c, Transfer(1, 0, 101), r, dropped);
    assert tx in {tx} - dropped;
    assert pool.all.all == {tx};
    s, dropped := pool.Add(Transfer(1, 0, 110), false);
    PriceDecides(tx, c, Transfer(1, 0, 110), s, dropped);
    assert tx in {tx} - dropped;
  }

  // ---- the queue limit -----------------------------------------------------------------------------

  lemma SumOfTwo(f: Address -> nat, s: set<Address>)
    requires forall a :: a in s && a != 1 && a != 2 ==> f(a) == 0
    requires forall a :: a !in s ==> f(a) == 0
    ensures Sum(f, s) == f(1) + f(2)
  {
    hide Sum;
    var u := s + {1, 2};
    SumSplit(f, u, s);
    SumZero(f, u - s);
    SumPick(f, u, 1);
    SumPick(f, u - {1}, 2);
    SumZero(f, u - {1} - {2});
  }

  lemma TwoQueues(t: Table)
    requires forall a :: a != 1 && a != 2 ==> Size(t, a) == 0
    ensures Total(t) == Size(t, 1) + Size(t, 2)
  {
    hide Sum;
    assert forall a :: Len(t)(a) == Size(t, a);
    SumOfTwo(Len(t), t.Keys);
  }

  /** A transaction behind a gap stays in the queue. */
  lemma Waits(tx: Tx, l: Limits, cap: Option<nat>)
    requires tx.nonce == 1 && Fits(tx, l) && (cap.Some? ==> cap.value >= 1)
    ensures Promoted(Acct(map[], map[1 := tx], 0), 0, l, cap) == Acct(map[], map[1 := tx], 0)
  {
    hide Fits, Lowest;
    var x := Acct(map[], map[1 := tx], 0);
    var q := Swept(x, 0, l);
    assert q == x.queue;
    RunEndUnique(q, 0, 0);
    assert From(q, 0) == q && Below(q, 0) == map[];
    assert |q| == 1;
    if cap.Some? { LowestAll(q, cap.value); }
  }

  /** The next transaction is promoted, the one behind a gap stays in the queue. */
  lemma OneWaits(first: Tx, third: Tx, l: Limits, cap: Option<nat>)
    requires first.nonce == 0 && third.nonce == 2 && Fits(first, l) && Fits(third, l)
    requires cap.Some? ==> cap.value >= 1
    ensures Promoted(Acct(map[], map[0 := first, 2 := third], 0), 0, l, cap)
            == Acct(map[0 := first], map[2 := third], 1)
  {
    hide Fits, Lowest;
    var x := Acct(map[], map[0 := first, 2 := third], 0);
    var q := Swept(x, 0, l);
    assert q == x.queue && Start(q, 0) == 0;
    RunEndUnique(q, 0, 1);
    var ready: TxMap, rest: TxMap := map[0 := first], map[2 := third];
    assert From(q, 1) == rest;
    assert Below(q, 1) == ready && map[] + ready == ready;
    assert |rest| == 1;
    if cap.Some? { LowestAll(rest, cap.value); }
  }

  /** One queued transaction each, and room for one of them: the account heard of later loses its own. */
  lemma LaterLoses(ph: Phases, w: View, c: Config)
    requires Limited(ph, w, {}, c) && c.globalQueue == 1
    requires forall a :: Size(ph.ready.queue, a) == if a == 1 || a == 2 then 1 else 0
    requires Beat(ph.heard, 1) < Beat(ph.heard, 2)
    ensures Size(w.queue, 1) == 1 && Size(w.queue, 2) == 0
  {
    hide CutDown, Fair, Trimmed, Total, Lowest;
    LimitedQueue(ph, w, {}, c);
    TwoQueues(ph.ready.queue);
    TwoQueues(w.queue);
    assert LocalTotal(ph.ready.queue, {}) == 0 by { assert ph.ready.queue.Keys * {} == {}; }
  }

  function Waiting(): seq<Tx> { [Transfer(1, 1, 5), Transfer(2, 0, 5), Transfer(2, 2, 5)] }

  /** The first i of these are queued, and nothing else is there. */
  ghost predicate Waited(v: View, known: set<Tx>, i: nat)
    requires i <= 3
  {
    && v.chain == Funded(map[]) && known == Elems(Waiting()[..i])
    && v.At(1) == Acct(map[], if i >= 1 then map[1 := Transfer(1, 1, 5)] else map[], 0)
    && v.At(2).pending == map[] && v.At(2).next == 0
    && v.At(2).queue == (if i >= 3 then map[0 := Transfer(2, 0, 5), 2 := Transfer(2, 2, 5)]
                         else if i >= 2 then map[0 := Transfer(2, 0, 5)] else map[])
    && forall a :: a != 1 && a != 2 ==> v.At(a) == Acct(map[], map[], 0)
  }

  lemma NothingWaits(v: View, known: set<Tx>)
    requires v == View(map[], map[], map[], Funded(map[])) && known == {}
    ensures Waited(v, known, 0)
  {}

  lemma WaitedKnown(v: View, known: set<Tx>, i: nat)
    requires i <= 3 && Waited(v, known, i)
    ensures |Waiting()| == 3 && known == Elems(Waiting()[..i]) && v.chain == Funded(map[]) && Encodable(Waiting())
  {}

  lemma WaitingApart(i: nat)
    requires i < 3
    ensures Elems(Waiting()[..i + 1]) == Elems(Waiting()[..i]) + {Waiting()[i]} && |Elems(Waiting()[..i])| <= i
    ensures forall o :: o in Elems(Waiting()[..i]) ==> !SamePlace(o, Waiting()[i])
    ensures Objection(Funded(map[]), 1, {}, Waiting()[i], false).None?
  {
    hide Objection;
    var tx := Waiting()[i];
    assert Waiting()[..i + 1] == Waiting()[..i] + [tx];
    ElemsSize(Waiting()[..i]);
    Welcome(map[], tx.sender, tx.nonce, tx.price);
  }

  lemma WaitedStep(v: View, w: View, known: set<Tx>, i: nat, r: AddResult)
    requires i < 3 && Waited(v, known, i) && r == Added(None) && Placed(v, w, Waiting()[i], r)
    ensures Waited(w, known + {Waiting()[i]}, i + 1)
  {
    hide Elems;
    WaitingApart(i);
    assert forall a :: a != Waiting()[i].sender ==> w.At(a) == v.At(a);
  }

  lemma WaitingReady(v: View, ph: Phases, known: set<Tx>, c: Config)
    requires Waited(v, known, 3) && ph.ready.chain == v.chain && c.accountQueue >= 1
    requires forall a :: ph.ready.At(a) == if a in {1, 2} then PromotedAt(v, {}, c, a) else v.At(a)
    ensures ph.ready.At(1) == v.At(1) && ph.ready.At(2).pending != v.At(2).pending
    ensures forall a :: Size(ph.ready.queue, a) == if a == 1 || a == 2 then 1 else 0
  {
    hide Promoted, Fits, Elems;
    var l := Funded(map[]).LimitsOf;
    Welcome(map[], 1, 1, 5);
    Welcome(map[], 2, 0, 5);
    Welcome(map[], 2, 2, 5);
    Waits(Transfer(1, 1, 5), l(1), QueueCap({}, c, 1));
    OneWaits(Transfer(2, 0, 5), Transfer(2, 2, 5), l(2), QueueCap({}, c, 2));
    forall a ensures Size(ph.ready.queue, a) == if a == 1 || a == 2 then 1 else 0 {
      assert ph.ready.At(a).queue == ListOf(ph.ready.queue, a);
    }
  }

  lemma StillSilent(p: Table, q: Table, beats: map<Address, int>)
    requires Silent(p, q, map[], beats)
    ensures beats == map[]
  {
    assert forall a :: a !in beats;
  }

  method WaitOneMore(pool: TxPool, c: Config, i: nat)
    requires i < 3 && pool.Valid() && pool.locals == {} && pool.config == c && pool.gasPrice == 1 && Capacity(c) >= 3
    requires Waited(pool.Now(), pool.all.all, i) && pool.beats == map[]
    modifies pool, pool.all, pool.priced
    ensures pool.Valid() && pool.locals == {} && pool.gasPrice == 1
    ensures Waited(pool.Now(), pool.all.all, i + 1) && pool.beats == map[]
  {
    hide Consistent, Covers, Tally, Exact, Courses, StaysSettled, Objection, Booked, Verdict, Single, Entered, Waited,
         Waiting, Placed, Marked, Elems, PriceHeap, Silent;
    ghost var v, known := pool.Now(), pool.all.all;
    WaitedKnown(v, known, i);
    WaitingApart(i);
    var tx := Waiting()[i];
    assert tx in Waiting();
    var r;
    ghost var dropped;
    r, dropped := pool.Add(tx, false);
    Roomy(known, c, tx, false, r, dropped);
    assert known - {} - {} + {tx} == known + {tx};
    WaitedStep(v, pool.Now(), known, i, r);
    StillSilent(v.pending, pool.pending, pool.beats);
  }

  /** The queue has room for one transaction, and two accounts have one each in it. Of the first nothing has been heard
      yet, and it keeps its own; the second has just been heard of, and it loses its own. */
  method NewcomerLoses() returns (first: nat, second: nat)
    ensures first == 1 && second == 0
  {
    hide Consistent, Covers, Tally, Exact, Courses, Waited, Waiting, Limited, PendingKept, AllSound, Promoted, Elems,
         Thins, PriceHeap;
    var c := Config(10, 16, 16, 64, 1, 100);
    var pool := new TxPool(c, 1, {}, Funded(map[]));
    NothingWaits(pool.Now(), pool.all.all);
    WaitOneMore(pool, c, 0);
    WaitOneMore(pool, c, 1);
    WaitOneMore(pool, c, 2);
    ghost var v, known := pool.Now(), pool.all.all;
    WaitedKnown(v, known, 3);
    ghost var ph := pool.PromoteExecutables({1, 2}, 5);
    WaitingReady(v, ph, known, c);
    LaterLoses(ph, pool.Now(), c);
    first, second := Size(pool.queue, 1), Size(pool.queue, 2);
  }
}
