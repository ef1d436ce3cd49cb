/** The transaction pool. */
module Pool {
  import opened Options
  import opened Sequences
  import opened Sets
  import opened Transactions
  import opened AccountLists
  import opened PoolAccounts
  import opened PoolSteps
  import opened PoolResets
  import opened PoolViews
  import opened Fairness
  import opened Pricing
  import opened PoolBooks

  class TxPool {
    const config: Config
    const all: TxLookup
    const priced: TxPricedList
    var gasPrice: int
    var chain: ChainState
    var nonces: map<Address, int>
    var locals: set<Address>
    var pending: Table
    var queue: Table
    var beats: map<Address, int>

    function Now(): View
      reads this
    {
      View(pending, queue, nonces, chain)
    }

    ghost function Snapshot(): Stage
      reads this, all, priced
    {
      Stage(Now(), all.all, locals, priced.Entries())
    }

    /** Lists and lookup table agree, whatever the chain state. */
    ghost predicate Books()
      reads this, all
    {
      Consistent(Now(), all.all)
    }

    /** The price heap is in order and knows every live transaction. */
    ghost predicate Heaped()
      reads all, priced
    {
      priced.all == all && priced.Valid() && Covers(priced.items, all.all)
    }

    /** And its count of stale entries is wrong by exactly the entries lost. */
    ghost predicate Quotes()
      reads all, priced
    {
      Heaped() && Tally(priced.Entries(), |all.all|)
    }

    ghost predicate Valid()
      reads this, all, priced
    {
      Books() && Quotes()
    }

    /** No account has its next transaction in the queue. */
    ghost predicate Settled()
      reads this
    {
      forall a :: Now().SettledAt(a)
    }

    /** The price heap has one entry for each live transaction and counts its stale ones right. */
    ghost predicate Exactly()
      reads all, priced
    {
      Exact(priced.items, all.all, priced.stales)
    }

    constructor (config: Config, gasPrice: int, locals: set<Address>, chain: ChainState)
      ensures Valid() && Exactly() && Settled() && AllSound(Now()) && fresh(all) && fresh(priced)
      ensures all.all == {} && priced.Entries() == Ledger([], 0, 0, 0) && Now() == View(map[], map[], map[], chain)
      ensures this.config == config && this.gasPrice == gasPrice && this.locals == locals && beats == map[]
    {
      this.config, this.gasPrice, this.locals, this.chain := config, gasPrice, locals, chain;
      nonces, pending, queue, beats := map[], map[], map[], map[];
      var lookup := new TxLookup();
      all := lookup;
      priced := new TxPricedList(lookup);
    }

    // ---- single steps -------------------------------------------------------------------------

    /** Known transactions leave the pool: the lookup forgets them, the price heap counts them. */
    method Forget(txs: seq<Tx>)
      requires Quotes() && NoRepeat(txs) && Elems(txs) <= all.all
      modifies all, priced
      ensures Quotes() && all.all == old(all.all) - Elems(txs)
      ensures Thins(old(priced.Entries()), priced.Entries())
    {
      hide PriceHeap, Covers, Tally, Thins, NoRepeat, Elems;
      ThinsAsIs(priced.Entries());
      assert Elems(txs[..0]) == {} by { NoElems(txs); }
      for i := 0 to |txs|
        invariant Quotes() && all.all == old(all.all) - Elems(txs[..i])
        invariant Thins(old(priced.Entries()), priced.Entries())
      {
        NextElem(txs, i);
        ghost var entries := priced.Entries();
        CoversLess(priced.items, all.all, txs[i]);
        all.all := all.all - {txs[i]};
        priced.Removed();
        ThinsTwice(old(priced.Entries()), entries, priced.Entries());
      }
      assert txs[..|txs|] == txs;
    }

    /** Make tx known, if it is not. */
    method Enter(tx: Tx)
      requires priced.all == all && priced.Valid()
      modifies all, priced
      ensures priced.Valid() && all.all == old(all.all) + {tx} && (old(Heaped()) ==> Heaped())
      ensures if tx in old(all.all) then priced.Entries() == old(priced.Entries())
              else Entered(old(priced.Entries()), priced.Entries(), tx)
      ensures Follows(old(priced.Entries()), priced.Entries(), [tx]) && (old(Quotes()) ==> Quotes())
    {
      hide PriceHeap, Follows, Tally, Entered;
      if tx in all.all {
        assert all.all + {tx} == all.all;
        ThinsAsIs(priced.Entries());
        FollowsMore(priced.Entries(), priced.Entries(), [tx]);
      } else {
        all.all := all.all + {tx};
        priced.Put(tx);
        EnteredFollows(old(priced.Entries()), priced.Entries(), tx, |old(all.all)|);
      }
    }

    /** Insert into the future queue, unless a better one is there. */
    method EnqueueTx(tx: Tx) returns (inserted: bool, replaced: Option<Tx>)
      requires priced.all == all && priced.Valid()
      requires tx.nonce in ListOf(queue, tx.sender) ==> Covers(priced.items, all.all)
      modifies this`queue, all, priced
      ensures priced.Valid() && (old(Heaped()) ==> Heaped())
      ensures inserted <==> Accepts(ListOf(old(queue), tx.sender), tx, config.priceBump)
      ensures !inserted ==> queue == old(queue) && all.all == old(all.all) && replaced == None
      ensures inserted ==> queue == old(queue)[tx.sender := ListOf(old(queue), tx.sender)[tx.nonce := tx]]
      ensures inserted ==> all.all == (if replaced.Some? then old(all.all) - {replaced.value} else old(all.all)) + {tx}
      ensures inserted ==> replaced == (if tx.nonce in ListOf(old(queue), tx.sender)
                                        then Some(ListOf(old(queue), tx.sender)[tx.nonce]) else None)
      ensures !inserted || (replaced.None? && tx in old(all.all)) ==> priced.Entries() == old(priced.Entries())
      ensures inserted && replaced.None? && tx !in old(all.all) ==>
                Entered(old(priced.Entries()), priced.Entries(), tx)
      ensures Booked(old(priced.Entries()), priced.Entries(), tx, inserted, {})
      ensures old(Quotes()) && (replaced.Some? ==> replaced.value in old(all.all)) ==> Quotes()
    {
      hide PriceHeap, Accepts, Covers, Tally, Entered, Booked;
      var list: TxMap := ListOf(queue, tx.sender);
      BookedNot(priced.Entries(), tx);
      if !Accepts(list, tx, config.priceBump) { return false, None; }
      replaced := if tx.nonce in list then Some(list[tx.nonce]) else None;
      queue := queue[tx.sender := list[tx.nonce := tx]];
      ThinsAsIs(priced.Entries());
      if replaced.Some? {
        CoversLess(priced.items, all.all, replaced.value);
        assert replaced.value in all.all ==> |all.all - {replaced.value}| == |all.all| - 1;
        all.all := all.all - {replaced.value};
        priced.Removed();
      }
      ghost var entries := priced.Entries();
      ghost var known := tx in all.all;
      Enter(tx);
      BookedEnter(old(priced.Entries()), entries, priced.Entries(), tx, known);
      inserted := true;
    }

    /** Insert into the pending list, unless a better one is there; the loser leaves the pool. */
    method PromoteTx(a: Address, tx: Tx, now: int) returns (inserted: bool)
      requires Heaped()
      modifies this`pending, this`nonces, this`beats, all, priced
      ensures Heaped()
      ensures inserted <==> Accepts(ListOf(old(pending), a), tx, config.priceBump)
      ensures !inserted ==> pending == old(pending) && nonces == old(nonces) && all.all == old(all.all) - {tx}
      ensures inserted ==> pending == old(pending)[a := ListOf(old(pending), a)[tx.nonce := tx]]
      ensures inserted ==> nonces == old(nonces)[a := tx.nonce + 1]
      ensures inserted && tx.nonce !in ListOf(old(pending), a) && tx in old(all.all) ==>
                all.all == old(all.all) && priced.Entries() == old(priced.Entries())
      ensures inserted && tx.nonce in ListOf(old(pending), a) ==>
                all.all == old(all.all) - {ListOf(old(pending), a)[tx.nonce]} + {tx}
      ensures old(Quotes()) && tx in old(all.all) ==>
                (tx.nonce in ListOf(old(pending), a) ==> ListOf(old(pending), a)[tx.nonce] in old(all.all)) ==> Quotes()
      ensures beats == if inserted then old(beats)[a := now] else old(beats)
    {
      hide Accepts, Tally, Covers, PriceHeap;
      var list: TxMap := ListOf(pending, a);
      if !Accepts(list, tx, config.priceBump) {
        CoversLess(priced.items, all.all, tx);
        assert tx in all.all ==> |all.all - {tx}| == |all.all| - 1;
        all.all := all.all - {tx};
        priced.Removed();
        return false;
      }
      pending := pending[a := list[tx.nonce := tx]];
      if tx.nonce in list {
        CoversLess(priced.items, all.all, list[tx.nonce]);
        assert list[tx.nonce] in all.all ==> |all.all - {list[tx.nonce]}| == |all.all| - 1;
        all.all := all.all - {list[tx.nonce]};
        priced.Removed();
      }
      Enter(tx);
      beats := beats[a := now];
      nonces := nonces[a := tx.nonce + 1];
      inserted := true;
    }

    /** Enqueue transactions of one account whose queue has no other for their nonces. */
    method EnqueueAll(a: Address, txs: seq<Tx>)
      requires priced.all == all && priced.Valid()
      requires DistinctNonces(txs) && forall t :: t in txs ==>
                 t.sender == a && t in all.all && t.nonce !in ListOf(queue, a)
      modifies this`queue, all, priced
      ensures all.all == old(all.all) && priced.Valid()
      ensures priced.Entries() == old(priced.Entries())
      ensures queue == if txs == [] then old(queue) else old(queue)[a := ListOf(old(queue), a) + Collect(txs)]
    {
      hide PriceHeap, Covers, Tally, Booked, Entered;
      for i := 0 to |txs|
        invariant all.all == old(all.all) && priced.Valid()
        invariant priced.Entries() == old(priced.Entries())
        invariant queue == if i == 0 then old(queue) else old(queue)[a := ListOf(old(queue), a) + Collect(txs[..i])]
      {
        var tx := txs[i];
        assert txs[..i + 1][..i] == txs[..i];
        assert tx in txs;
        if tx.nonce in Collect(txs[..i]) {
          CollectHolds(txs[..i], tx);
          assert false;
        }
        assert ListOf(queue, a) == ListOf(old(queue), a) + Collect(txs[..i]);
        var inserted, replaced := EnqueueTx(tx);
        assert ListOf(old(queue), a) + Collect(txs[..i + 1])
               == (ListOf(old(queue), a) + Collect(txs[..i]))[tx.nonce := tx];
      }
      assert txs[..|txs|] == txs;
    }

    /** Send part of an account's list back to its queue. */
    method Postpone(a: Address, back: TxMap)
      requires priced.all == all && priced.Valid() && Filed(back, a)
      requires forall n :: n in back ==> back[n] in all.all && n !in ListOf(queue, a)
      modifies this`queue, all, priced
      ensures all.all == old(all.all) && priced.Valid()
      ensures priced.Entries() == old(priced.Entries())
      ensures Updated(old(queue), queue, a, ListOf(old(queue), a) + back)
    {
      var txs := Listing(back);
      CollectLists(txs, back);
      forall t | t in txs ensures t.sender == a && t in all.all && t.nonce !in ListOf(queue, a) {
        assert Holds(back, t);
      }
      EnqueueAll(a, txs);
    }

    /** Take a transaction out of the pending list; those behind it return to the queue. */
    method TakePending(a: Address, nonce: int)
      requires priced.all == all && priced.Valid() && Now().Tidy() && Now().LooseAt(a) && nonce in ListOf(pending, a)
      requires forall t: Tx :: t.sender == a && t.nonce > nonce && Carries(Now().At(a), t) ==> t in all.all
      modifies this`pending, this`queue, this`nonces, this`beats, all, priced
      ensures SameBut(old(Now()), Now(), a) && Now().Tidy() && Now().At(a) == Without(old(Now()).At(a), nonce)
      ensures all.all == old(all.all) && priced.Valid()
      ensures priced.Entries() == old(priced.Entries())
      ensures Silent(old(pending), pending, old(beats), beats)
    {
      hide Fits, Updated, Covers, Tally, Silent, PriceHeap;
      ghost var v := Now();
      var kept: TxMap := Remaining(pending[a], true, nonce);
      var back: TxMap := Invalidated(pending[a], true, nonce);
      SilentStore(pending, a, kept, beats);
      if kept == map[] { beats := beats - {a}; }
      pending := Store(pending, a, kept);
      assert forall n :: n in back ==> Carries(v.At(a), back[n]);
      Postpone(a, back);
      if NextOf(nonces, chain, a) > nonce { nonces := nonces[a := nonce]; }
      UpdatedTables(v, Now(), a, kept, v.At(a).queue + back);
    }

    method TakeQueued(a: Address, nonce: int)
      requires Now().Tidy() && nonce !in ListOf(pending, a)
      modifies this`queue
      ensures SameBut(old(Now()), Now(), a) && Now().Tidy() && Now().At(a) == Without(old(Now()).At(a), nonce)
    {
      var list: TxMap := ListOf(queue, a) - {nonce};
      queue := Store(queue, a, list);
    }

    /** Remove one transaction, wherever it is. */
    method RemoveTx(tx: Tx, outofbound: bool)
      requires Books() && priced.all == all && priced.Valid()
      requires outofbound ==> Covers(priced.items, all.all)
      modifies this`pending, this`queue, this`nonces, this`beats, all, priced
      ensures Books() && priced.Valid() && all.all == old(all.all) - {tx}
      ensures SameBut(old(Now()), Now(), tx.sender)
      ensures Now().At(tx.sender) == if tx in old(all.all) then Without(old(Now()).At(tx.sender), tx.nonce)
                                     else old(Now()).At(tx.sender)
      ensures StaysSettled(old(Now()), Now(), {}) && Courses(old(Now()), Now())
      ensures tx.nonce !in ListOf(old(pending), tx.sender) ==> beats == old(beats)
      ensures !outofbound ==> priced.Entries() == old(priced.Entries())
      ensures outofbound ==> Covers(priced.items, all.all) && (old(Quotes()) ==> Quotes())
      ensures outofbound && old(Exactly()) ==> Exactly()
      ensures Thins(old(priced.Entries()), priced.Entries())
      ensures outofbound ==> Lapsed(old(priced.Entries()), priced.Entries(), if tx in old(all.all) then 1 else 0)
      ensures Silent(old(pending), pending, old(beats), beats)
    {
      hide Without, Carries, Loose, Courses, Do, PriceHeap, Silent;
      SilentAsIs(pending, pending, beats);
      if tx !in all.all { CoursesNone(Now()); return; }
      var a := tx.sender;
      ghost var v, x := Now(), Now().At(a);
      assert v.LooseAt(a) && Carries(x, tx);
      all.all := all.all - {tx};
      if outofbound { priced.Removed(); }
      if tx.nonce in ListOf(pending, a) {
        TakePending(a, tx.nonce);
      } else {
        TakeQueued(a, tx.nonce);
      }
      OnePlace(x, a, tx);
      RemovedLoose(x, a, tx.nonce);
      RemovedSettled(v, Now(), tx);
      RemovedCourse(v, Now(), tx);
      UpdatedConsistent(v, Now(), old(all.all), all.all, a);
    }

    /** Every transaction of a list leaves the pool, in whatever order. */
    method ForgetAll(m: TxMap)
      requires Quotes() && Keyed(m) && forall n :: n in m ==> m[n] in all.all
      modifies all, priced
      ensures Quotes() && forall t :: t in all.all <==> t in old(all.all) && !Holds(m, t)
      ensures Thins(old(priced.Entries()), priced.Entries())
    {
      hide PriceHeap, Covers, Tally, Thins;
      var txs := Listing(m);
      forall t | t in Elems(txs) ensures Holds(m, t) {}
      Forget(txs);
    }

    // ---- promotion ------------------------------------------------------------------------------

    /** One step along a run: promoting a known transaction to the next, free nonce. */
    method PromoteNext(a: Address, tx: Tx, now: int, ghost p0: Table, ghost run: TxMap)
      requires Quotes() && tx in all.all && Holds(run, tx)
      requires tx.nonce !in ListOf(p0, a) && Updated(p0, pending, a, ListOf(p0, a) + Below(run, tx.nonce))
      modifies this`pending, this`nonces, this`beats, all, priced
      ensures Quotes() && all.all == old(all.all)
      ensures priced.Entries() == old(priced.Entries())
      ensures Updated(p0, pending, a, ListOf(p0, a) + Below(run, tx.nonce + 1))
      ensures nonces == old(nonces)[a := tx.nonce + 1]
      ensures beats == old(beats)[a := now]
    {
      hide Covers, Updated, Below, Tally, PriceHeap;
      RunStep(p0, pending, a, run, tx.nonce);
      var inserted := PromoteTx(a, tx, now);
    }

    /** Move a run of queued transactions into the pending list. */
    method PromoteRun(a: Address, run: TxMap, first: int, end: int, now: int)
      requires Quotes() && Filed(run, a) && Interval(run, first, end) && first < end
      requires forall n :: n in run ==> run[n] in all.all && n !in ListOf(pending, a)
      modifies this`pending, this`nonces, this`beats, all, priced
      ensures Quotes() && all.all == old(all.all)
      ensures priced.Entries() == old(priced.Entries())
      ensures Updated(old(pending), pending, a, ListOf(old(pending), a) + run)
      ensures NextOf(nonces, chain, a) == end
      ensures forall b :: b != a ==> NextOf(nonces, chain, b) == NextOf(old(nonces), chain, b)
      ensures beats == old(beats)[a := now]
    {
      hide Covers, Updated, Below, Tally, PriceHeap;
      ghost var base, p0 := ListOf(pending, a), pending;
      RunStart(p0, a, run, first, end);
      var n := first;
      while n < end
        invariant first <= n <= end && (first < n ==> NextOf(nonces, chain, a) == n)
        invariant Quotes() && all.all == old(all.all)
        invariant priced.Entries() == old(priced.Entries())
        invariant Updated(p0, pending, a, base + Below(run, n))
        invariant beats == if n == first then old(beats) else old(beats)[a := now]
        invariant forall b :: b != a ==> NextOf(nonces, chain, b) == NextOf(old(nonces), chain, b)
      {
        PromoteNext(a, run[n], now, p0, run);
        n := n + 1;
      }
      RunAll(run, first, end);
    }

    /** Drop what is outdated or unpayable from a queued list. */
    method Sweep(list: TxMap, nonce: int, l: Limits) returns (swept: TxMap)
      requires Quotes() && Keyed(list) && forall n :: n in list ==> list[n] in all.all
      modifies all, priced
      ensures Quotes() && swept == Payable(From(list, nonce), l) && forall n :: n in swept ==> swept[n] in all.all
      ensures forall t :: t in all.all <==>
                t in old(all.all) && !Holds(Below(list, nonce), t) && !Holds(Unpayable(From(list, nonce), l), t)
      ensures Thins(old(priced.Entries()), priced.Entries())
    {
      hide Fits, Covers, Tally;
      ForgetAll(Below(list, nonce));
      var rest: TxMap := From(list, nonce);
      ForgetAll(Unpayable(rest, l));
      swept := Payable(rest, l);
    }

    /** Move over the run that is ready: it starts at the lowest queued nonce if that does not lie
        beyond the next one. */
    method PromoteReady(a: Address, list: TxMap, now: int) returns (rest: TxMap, ghost end: int)
      requires Quotes() && Filed(list, a) && forall n :: n in list ==> list[n] in all.all && n !in ListOf(pending, a)
      modifies this`pending, this`nonces, this`beats, all, priced
      ensures Quotes() && all.all == old(all.all)
      ensures priced.Entries() == old(priced.Entries())
      ensures end == RunEnd(list, Start(list, NextOf(old(nonces), chain, a))) && rest == From(list, end)
      ensures Updated(old(pending), pending, a, ListOf(old(pending), a) + Below(list, end))
      ensures NextOf(nonces, chain, a) == end
      ensures forall b :: b != a ==> NextOf(nonces, chain, b) == NextOf(old(nonces), chain, b)
      ensures beats == if ListOf(pending, a) == ListOf(old(pending), a) then old(beats) else old(beats)[a := now]
    {
      hide RunEnd, Covers, Tally, Updated, PriceHeap;
      var next := NextOf(nonces, chain, a);
      end := RunEnd(list, Start(list, next));
      rest := list;
      if list != map[] && MinKey(list) <= next {
        var stop := RunEnd(list, MinKey(list));
        PromoteRun(a, Below(list, stop), MinKey(list), stop, now);
        RunShows(old(pending), pending, a, Below(list, stop), MinKey(list));
        rest := From(list, stop);
      } else {
        NothingReady(pending, a, list, next);
      }
    }

    /** Drop what exceeds the cap, highest nonces first. */
    method CapQueue(list: TxMap, cap: Option<nat>) returns (rest: TxMap)
      requires Quotes() && Keyed(list) && forall n :: n in list ==> list[n] in all.all
      modifies all, priced
      ensures Quotes() && rest == Capped(list, cap)
      ensures forall t :: t in all.all <==> t in old(all.all) && !Holds(Excess(list, cap), t)
      ensures Thins(old(priced.Entries()), priced.Entries())
    {
      hide Covers, Tally, Lowest;
      rest := list;
      if cap.Some? {
        ForgetAll(Excess(list, cap));
        rest := Capped(list, cap);
      }
    }

    method PromoteQueued(a: Address, now: int)
      requires Valid() && a in queue
      modifies this`pending, this`queue, this`nonces, this`beats, all, priced
      ensures Valid() && SameBut(old(Now()), Now(), a)
      ensures Now().At(a) == PromotedAt(old(Now()), locals, config, a)
      ensures Thins(old(priced.Entries()), priced.Entries()) && all.all <= old(all.all)
      ensures beats == if ListOf(pending, a) == ListOf(old(pending), a) then old(beats) else old(beats)[a := now]
    {
      hide Fits, RunEnd, Covers, Tally, Updated, PriceHeap, Capped, Excess, NoneEmpty, Unpayable, Promoted, Start,
           Consistent, Holds, Payable, Below;
      ghost var v := Now();
      QueueKnown(v, all.all, a);
      var swept := Sweep(queue[a], chain.Nonce(a), chain.LimitsOf(a));
      var rest: TxMap;
      ghost var end;
      rest, end := PromoteReady(a, swept, now);
      rest := CapQueue(rest, QueueCap(locals, config, a));
      queue := Store(queue, a, rest);
      PromotedBooks(v, Now(), old(all.all), all.all, a, QueueCap(locals, config, a));
    }

    /** One account's turn in the promotion round. */
    method PromoteAccount(a: Address, now: int)
      requires Valid()
      modifies this`pending, this`queue, this`nonces, this`beats, all, priced
      ensures Valid() && SameBut(old(Now()), Now(), a)
      ensures Now().At(a) == PromotedAt(old(Now()), locals, config, a)
      ensures Thins(old(priced.Entries()), priced.Entries()) && all.all <= old(all.all)
      ensures beats == if ListOf(pending, a) == ListOf(old(pending), a) then old(beats) else old(beats)[a := now]
    {
      hide Consistent, Covers, Tally, PriceHeap, Promoted;
      if a in queue {
        PromoteQueued(a, now);
      } else {
        PromotedNothing(Now().At(a), chain.Nonce(a), chain.LimitsOf(a), QueueCap(locals, config, a));
      }
    }

    /** Promote the given accounts, in any order. */
    method PromoteAccounts(accounts: set<Address>, now: int)
      requires Valid()
      modifies this`pending, this`queue, this`nonces, this`beats, all, priced
      ensures Valid()
      ensures Thins(old(priced.Entries()), priced.Entries()) && all.all <= old(all.all)
      ensures forall a :: Now().At(a) == if a in accounts
                then PromotedAt(old(Now()), locals, config, a) else old(Now()).At(a)
      ensures Stirred(old(Now()), Now(), old(beats), beats, now)
    {
      hide Consistent, Covers, Tally, PriceHeap, Promoted, Thins, Stirred;
      ghost var v := Now();
      var todo := accounts;
      ThinsAsIs(priced.Entries());
      assert Stirred(v, v, beats, beats, now) by { StirredNone(v, beats, now); }
      while todo != {}
        invariant todo <= accounts && Valid()
        invariant Stirred(v, Now(), old(beats), beats, now)
        invariant Thins(old(priced.Entries()), priced.Entries()) && all.all <= old(all.all)
        invariant forall a :: Now().At(a) == if a in accounts && a !in todo
                    then PromotedAt(v, locals, config, a) else v.At(a)
      {
        EmptyOrMember(todo);
        var a :| a in todo;
        ghost var w, heard, entries := Now(), beats, priced.Entries();
        PromoteAccount(a, now);
        StirredStep(v, w, Now(), old(beats), heard, beats, a, now);
        ThinsTwice(old(priced.Entries()), entries, priced.Entries());
        todo := todo - {a};
      }
    }

    // ---- equalising the pending lists --------------------------------------------------------------

    /** Drop the highest pending transaction of an account that has more than one. */
    method DropLast(a: Address)
      requires Valid() && |ListOf(pending, a)| >= 2
      modifies this`pending, this`nonces, all, priced
      ensures Valid()
      ensures Thins(old(priced.Entries()), priced.Entries()) && all.all <= old(all.all)
      ensures SameBut(old(Now()), Now(), a) && pending.Keys == old(pending).Keys
      ensures Now().At(a) == CutPending(old(Now()).At(a), |ListOf(old(pending), a)| - 1)
      ensures Size(pending, a) == Size(old(pending), a) - 1
      ensures forall b :: b != a ==> Size(pending, b) == Size(old(pending), b)
    {
      hide Consistent, CutPending, Quotes, Flat, Lowest, SameBut, NextOf;
      ghost var v := Now();
      LastPending(v, all.all, a);
      var list: TxMap := pending[a];
      var tx := Flat(list)[|list| - 1];
      pending := pending[a := Lowest(list, |list| - 1)];
      Forget([tx]);
      if NextOf(nonces, chain, a) > tx.nonce { nonces := nonces[a := tx.nonce]; }
      LastDropped(v, Now(), old(all.all), all.all, a, tx);
    }

    /** One round: every offender loses its highest pending transaction. */
    method Round(offenders: seq<Address>, total: int, ghost v0: View, ghost level: nat) returns (left: int)
      requires Valid() && (forall a :: v0.LooseAt(a)) && CutDown(v0, Now()) && NoRepeat(offenders)
      requires total == Total(pending)
      requires level >= 1 && forall a :: a in offenders ==> Size(pending, a) == level + 1
      modifies this`pending, this`nonces, all, priced
      ensures Valid() && CutDown(v0, Now())
      ensures Thins(old(priced.Entries()), priced.Entries()) && all.all <= old(all.all)
      ensures left == Total(pending) == total - |offenders| && pending.Keys == old(pending).Keys
      ensures forall a :: Size(pending, a) == if a in offenders then level else Size(old(pending), a)
    {
      hide Consistent, Quotes, Tally, CutPending, Total, CutDown, Thins, Loose;
      left := total;
      ThinsAsIs(priced.Entries());
      for i := 0 to |offenders|
        invariant Valid() && CutDown(v0, Now())
        invariant Thins(old(priced.Entries()), priced.Entries()) && all.all <= old(all.all)
        invariant left == Total(pending) == total - i && pending.Keys == old(pending).Keys
        invariant forall a :: Size(pending, a) == if a in offenders[..i] then level else Size(old(pending), a)
      {
        var a := offenders[i];
        assert a in offenders && a !in offenders[..i];
        ghost var v, entries := Now(), priced.Entries();
        DropLast(a);
        ThinsTwice(old(priced.Entries()), entries, priced.Entries());
        assert v0.LooseAt(a);
        CutDownStep(v0, v, Now(), a);
        TotalDrop(v.pending, pending, a);
        left := left - 1;
        assert offenders[..i + 1] == offenders[..i] + [a];
      }
      assert offenders[..|offenders|] == offenders;
    }

    /** Rounds over a list of offenders at one level, until the total fits or the floor is reached. */
    method LevelDown(list: seq<Address>, total: int, floor: nat, ghost v0: View, ghost level: nat)
      returns (left: int, ghost low: nat)
      requires Valid() && (forall a :: v0.LooseAt(a)) && CutDown(v0, Now()) && list != [] && NoRepeat(list)
      requires total == Total(pending)
      requires 1 <= config.accountSlots <= floor <= level
      requires Levelled(v0.pending, pending, locals, config.accountSlots, level)
      requires forall a :: a in list ==>
                 Offends(v0.pending, locals, config.accountSlots, a) && Size(pending, a) == level
      requires forall a :: Offends(v0.pending, locals, config.accountSlots, a) && a !in list ==>
                 Size(v0.pending, a) <= floor
      modifies this`pending, this`nonces, all, priced
      ensures Valid() && CutDown(v0, Now())
      ensures Thins(old(priced.Entries()), priced.Entries()) && all.all <= old(all.all)
      ensures left == Total(pending) && floor <= low <= level
      ensures Levelled(v0.pending, pending, locals, config.accountSlots, low)
      ensures forall a :: a in list ==> Size(pending, a) == low
      ensures left <= config.globalSlots || low == floor
      ensures low == level ==> pending == old(pending)
      ensures low < level ==> TotalAt(v0.pending, locals, config.accountSlots, low + 1) > config.globalSlots
    {
      hide Consistent, Quotes, Tally, Total, CutDown, Levelled, Offends, TotalAt, Thins, Loose;
      left, low := total, level;
      ThinsAsIs(priced.Entries());
      while left > config.globalSlots && Size(pending, list[|list| - 1]) > floor
        invariant Valid() && CutDown(v0, Now())
        invariant Thins(old(priced.Entries()), priced.Entries()) && all.all <= old(all.all)
        invariant left == Total(pending) && floor <= low <= level
        invariant Levelled(v0.pending, pending, locals, config.accountSlots, low)
        invariant forall a :: a in list ==> Size(pending, a) == low
        invariant low == level ==> pending == old(pending)
        invariant low < level ==> TotalAt(v0.pending, locals, config.accountSlots, low + 1) > config.globalSlots
        decreases low
      {
        assert list[|list| - 1] in list;
        LevelledTotal(v0.pending, pending, locals, config.accountSlots, low);
        ghost var before, entries := pending, priced.Entries();
        left := Round(list, left, v0, low - 1);
        ThinsTwice(old(priced.Entries()), entries, priced.Entries());
        RoundLevels(v0.pending, before, pending, locals, config.accountSlots, low - 1, list);
        low := low - 1;
      }
      assert list[|list| - 1] in list;
    }

    /** The account with the longest pending list among the given ones. */
    method Largest(accounts: set<Address>) returns (a: Address)
      requires accounts != {}
      ensures a in accounts && forall b :: b in accounts ==> Size(pending, b) <= Size(pending, a)
    {
      EmptyOrMember(accounts);
      a :| a in accounts;
      var todo := accounts;
      while todo != {}
        invariant todo <= accounts && a in accounts
        invariant forall b :: b in accounts && b !in todo ==> Size(pending, b) <= Size(pending, a)
      {
        EmptyOrMember(todo);
        var b :| b in todo;
        if Size(pending, b) > Size(pending, a) { a := b; }
        todo := todo - {b};
      }
    }

    /** Cut the pending lists of offending accounts to a fair level. */
    method EqualizePending() returns (ghost level: nat)
      requires Valid() && config.accountSlots >= 1
      modifies this`pending, this`nonces, all, priced
      ensures Valid()
      ensures Thins(old(priced.Entries()), priced.Entries()) && all.all <= old(all.all)
      ensures CutDown(old(Now()), Now()) && queue == old(queue)
      ensures Fair(old(pending), pending, locals, config.accountSlots, config.globalSlots, level)
    {
      hide Consistent, Quotes, Tally, Total, CutDown, Levelled, TotalAt, Equalizing, Offends, Fair, Thins, Loose;
      ghost var v0 := Now();
      LooseEverywhere(v0, all.all);
      CutDownStart(v0, all.all);
      ThinsAsIs(priced.Entries());
      var total := Count(pending);
      var slots, limit := config.accountSlots, config.globalSlots;
      var spammers := set a | a in pending && a !in locals && |pending[a]| > slots;
      assert forall a :: a in spammers <==> Offends(pending, locals, slots, a) by {
        SpammersOffend(pending, locals, slots);
      }
      var offenders: seq<Address> := [];
      level := total + slots;
      EqualizingStart(pending, locals, slots, limit, spammers);
      while total > limit && spammers != {}
        invariant Valid() && CutDown(v0, Now()) && total == Total(pending)
        invariant Thins(old(priced.Entries()), priced.Entries()) && all.all <= old(all.all)
        invariant Equalizing(v0.pending, pending, locals, slots, limit, level, total, offenders, spammers)
        decreases spammers
      {
        var offender := Largest(spammers);
        if |offenders| > 0 {
          ghost var before, high, was, entries := pending, level, total, priced.Entries();
          Participants(v0.pending, pending, locals, slots, limit, level, total, offenders, spammers, offender);
          total, level := LevelDown(offenders, total, Size(pending, offender), v0, level);
          ThinsTwice(old(priced.Entries()), entries, priced.Entries());
          NextOffender(v0.pending, before, pending, locals, slots, limit, high, level, was, total, offenders, spammers,
                       offender);
        } else {
          assert offenders == [] && offenders + [offender] == [offender];
          FirstOffender(v0.pending, pending, locals, slots, limit, level, total, spammers, offender);
          level := Size(pending, offender);
        }
        offenders, spammers := offenders + [offender], spammers - {offender};
      }
      if total > limit && |offenders| > 0 {
        ghost var before, high, was, entries := pending, level, total, priced.Entries();
        LastStretch(v0.pending, pending, locals, slots, limit, level, total, offenders);
        total, level := LevelDown(offenders, total, slots, v0, level);
        ThinsTwice(old(priced.Entries()), entries, priced.Entries());
        LastLevel(v0.pending, before, pending, locals, slots, limit, high, level, was, total, offenders);
      }
      EqualizedFair(v0.pending, pending, locals, slots, limit, level, offenders, spammers);
    }

    // ---- truncating the queue --------------------------------------------------------------------

    /** Remove one queued transaction. */
    method RemoveQueued(a: Address, n: int)
      requires Valid() && n in ListOf(queue, a)
      modifies this`pending, this`queue, this`nonces, this`beats, all, priced
      ensures Valid() && SameBut(old(Now()), Now(), a) && beats == old(beats)
      ensures Now().At(a) == old(Now()).At(a).(queue := ListOf(old(queue), a) - {n})
      ensures all.all <= old(all.all) && |all.all| == |old(all.all)| - 1
      ensures Thins(old(priced.Entries()), priced.Entries())
      ensures Lapsed(old(priced.Entries()), priced.Entries(), 1)
    {
      hide Covers, Tally, PriceHeap, Lapsed, Courses;
      QueuedOnly(Now(), all.all, a, n);
      RemoveTx(queue[a][n], true);
    }

    /** Remove everything an account has queued. */
    method EmptyQueue(a: Address)
      requires Valid()
      modifies this`pending, this`queue, this`nonces, this`beats, all, priced
      ensures Valid() && SameBut(old(Now()), Now(), a) && beats == old(beats)
      ensures Now().At(a) == old(Now()).At(a).(queue := map[])
      ensures all.all <= old(all.all) && |all.all| <= |old(all.all)| && Thins(old(priced.Entries()), priced.Entries())
      ensures Lapsed(old(priced.Entries()), priced.Entries(), |old(all.all)| - |all.all|)
    {
      hide Consistent, Quotes, Thins, Lapsed;
      ghost var v := Now();
      ThinsAsIs(priced.Entries());
      while ListOf(queue, a) != map[]
        invariant Valid() && SameBut(v, Now(), a) && beats == old(beats)
        invariant Now().At(a) == v.At(a).(queue := ListOf(queue, a))
        invariant all.all <= old(all.all) && |all.all| <= |old(all.all)|
        invariant Thins(old(priced.Entries()), priced.Entries())
        invariant Lapsed(old(priced.Entries()), priced.Entries(), |old(all.all)| - |all.all|)
        decreases |ListOf(queue, a)|
      {
        var n := MinKey(queue[a]);
        ghost var before: TxMap := ListOf(queue, a);
        ghost var entries := priced.Entries();
        RemoveQueued(a, n);
        ThinsTwice(old(priced.Entries()), entries, priced.Entries());
        LapsedTwice(old(priced.Entries()), entries, priced.Entries(), |old(all.all)| - |all.all| - 1, 1);
        assert ListOf(queue, a) == before - {n} && (before - {n}).Keys == before.Keys - {n};
      }
    }

    /** Remove the highest nonces an account has queued, down to a number to keep. */
    method TrimQueue(a: Address, keep: nat)
      requires Valid() && keep <= |ListOf(queue, a)|
      modifies this`pending, this`queue, this`nonces, this`beats, all, priced
      ensures Valid() && SameBut(old(Now()), Now(), a) && beats == old(beats)
      ensures Now().At(a) == old(Now()).At(a).(queue := Lowest(ListOf(old(queue), a), keep)) && Size(queue, a) == keep
      ensures all.all <= old(all.all) && Thins(old(priced.Entries()), priced.Entries())
    {
      hide Consistent, Covers, Tally, PriceHeap, Flat, Lowest, Thins, Lapsed;
      ghost var v := Now();
      ThinsAsIs(priced.Entries());
      var list: TxMap := ListOf(queue, a);
      assert Keyed(list) by { QueueKeyed(v, all.all, a); }
      var txs := Flat(list);
      FlatLowest(list, |list|);
      assert Lowest(list, |list|) == list by { LowestAll(list, |list|); }
      var i := |txs|;
      while i > keep
        invariant keep <= i <= |txs| == |list|
        invariant Valid() && SameBut(v, Now(), a) && beats == old(beats)
        invariant Now().At(a) == v.At(a).(queue := Lowest(list, i))
        invariant all.all <= old(all.all) && Thins(old(priced.Entries()), priced.Entries())
      {
        i := i - 1;
        LowestStep(list, i);
        assert Now().At(a).queue == ListOf(queue, a);
        ghost var entries := priced.Entries();
        RemoveQueued(a, txs[i].nonce);
        ThinsTwice(old(priced.Entries()), entries, priced.Entries());
      }
      FlatLowest(list, keep);
      assert Now().At(a).queue == ListOf(queue, a);
    }

    /** One account loses the highest nonces it has queued, as many as are too many, or all of them. */
    method TruncateAccount(a: Address, drop: nat) returns (left: nat)
      requires Valid()
      modifies this`pending, this`queue, this`nonces, this`beats, all, priced
      ensures Valid() && SameBut(old(Now()), Now(), a) && beats == old(beats)
      ensures Now().At(a) == old(Now()).At(a).(queue := Lowest(old(Now()).At(a).queue, Size(queue, a)))
      ensures Size(queue, a) <= Size(old(queue), a) && (left > 0 ==> Size(queue, a) == 0)
      ensures left <= drop && Total(queue) == Total(old(queue)) - (drop - left)
      ensures all.all <= old(all.all) && Thins(old(priced.Entries()), priced.Entries())
    {
      hide Consistent, Covers, Tally, PriceHeap, Lowest, Total, Lapsed, SameBut, Thins;
      ghost var v := Now();
      TidyQueue(v, all.all);
      QueueKeyed(v, all.all, a);
      var size := Size(queue, a);
      if size <= drop {
        EmptyQueue(a);
        LowestNone(v.At(a).queue);
        left := drop - size;
      } else {
        TrimQueue(a, size - drop);
        left := 0;
      }
      TidyQueue(Now(), all.all);
      QueueStep(v, Now(), a, if size <= drop then 0 else size - drop);
    }

    /** Cut the queue down to its global limit, sparing local accounts. */
    method TruncateQueue()
      requires Valid()
      modifies this`pending, this`queue, this`nonces, this`beats, all, priced
      ensures Valid() && beats == old(beats)
      ensures Trimmed(old(Now()), Now())
      ensures NewestFirst(old(queue), queue, locals, old(beats))
      ensures WithinLimit(old(queue), queue, locals, config.globalQueue)
      ensures all.all <= old(all.all) && Thins(old(priced.Entries()), priced.Entries())
    {
      hide Consistent, Quotes, Lowest, Total, Truncating, Trimmed, SameBut, Thins;
      ghost var v0 := Now();
      ThinsAsIs(priced.Entries());
      var queued := Count(queue);
      TrimmedStart(v0, all.all);
      if queued <= config.globalQueue { return; }
      var addresses := ByHeartbeat(queue, locals, beats);
      var drop, k := queued - config.globalQueue, |addresses|;
      TruncatingStart(v0, all.all, addresses, drop);
      while drop > 0 && k > 0
        invariant Valid() && beats == old(beats)
        invariant drop == Total(queue) - config.globalQueue >= 0
        invariant 0 <= k <= |addresses| && Truncating(v0, Now(), addresses, k, drop)
        invariant all.all <= old(all.all) && Thins(old(priced.Entries()), priced.Entries())
        decreases k
      {
        k := k - 1;
        ghost var v, was, entries := Now(), drop, priced.Entries();
        drop := TruncateAccount(addresses[k], drop);
        ThinsTwice(old(priced.Entries()), entries, priced.Entries());
        TruncatingStep(v0, v, Now(), addresses, k, was, drop);
      }
      TidyQueue(Now(), all.all);
      TruncatingDone(v0, Now(), addresses, k, drop, config.globalQueue, locals, old(beats));
      TruncatingTrimmed(v0, Now(), addresses, k, drop);
    }

    // ---- whole operations ------------------------------------------------------------------------

    /** Promote, then bring the pending lists and the queue back within their limits. */
    method PromoteExecutables(accounts: set<Address>, now: int) returns (ghost ph: Phases)
      requires Valid() && config.accountSlots >= 1
      modifies this`pending, this`queue, this`nonces, this`beats, all, priced
      ensures Valid() && (old(Exactly()) ==> Exactly())
      ensures Thins(old(priced.Entries()), priced.Entries()) && all.all <= old(all.all)
      ensures forall a :: ph.ready.At(a) == if a in accounts
                then PromotedAt(old(Now()), locals, config, a) else old(Now()).At(a)
      ensures ph.ready.chain == chain && Limited(ph, Now(), locals, config)
      ensures Settles(old(Now()), Now(), accounts) && Courses(old(Now()), Now()) && Courses(ph.ready, Now())
      ensures forall t :: t in old(all.all) && t.sender in locals && Current(chain, t) ==> t in all.all
      ensures forall a :: a in accounts && a !in locals ==> Size(queue, a) <= config.accountQueue
      ensures |old(all.all)| <= config.globalSlots ==> PendingKept(old(Now()), Now())
      ensures AllSound(old(Now())) && Small(|old(all.all)|, config) ==> all.all == old(all.all)
      ensures beats == ph.heard && Heard(old(beats), beats, now)
      ensures Stirred(old(Now()), ph.ready, old(beats), beats, now)
    {
      hide Consistent, Exact, Covers, Tally, PriceHeap, Fair, CutDown, Trimmed, NewestFirst, WithinLimit, Promoted,
           Courses, Thins, PendingKept, AllSound, Stirred, Heard, Current;
      ghost var v := Now();
      PromoteAccounts(accounts, now);
      ghost var ready, known, entries := Now(), all.all, priced.Entries();
      ghost var level := EqualizePending();
      ThinsTwice(old(priced.Entries()), entries, priced.Entries());
      ghost var fair, heard := Now(), beats;
      entries := priced.Entries();
      TruncateQueue();
      ThinsTwice(old(priced.Entries()), entries, priced.Entries());
      ThinsExact(old(priced.Entries()), priced.Entries(), old(all.all), all.all);
      ph := Phases(ready, fair, level, heard);
      StirredHeard(v, ready, old(beats), beats, now);
      PromotedCourses(v, ready, accounts, locals, config);
      LimitedCourses(ph, Now(), locals, config);
      CoursesTwice(v, ready, Now());
      if |old(all.all)| <= config.globalSlots {
        LimitedKept(v, old(all.all), ph, known, Now(), locals, config, accounts);
      }
      if AllSound(v) && Small(|old(all.all)|, config) {
        NothingLost(v, old(all.all), ph, known, Now(), all.all, locals, config, accounts);
      }
      LooseEverywhere(v, old(all.all));
      forall t | t in old(all.all) && t.sender in locals && Current(chain, t) ensures t in all.all {
        LocalPromotion(v, old(all.all), ph, Now(), all.all, locals, config, accounts, t);
      }
      forall a | a in accounts && a !in locals ensures Size(queue, a) <= config.accountQueue {
        assert v.LooseAt(a);
        RemoteCapped(v.At(a), ph, Now(), locals, config, a, chain.Nonce(a), chain.LimitsOf(a));
      }
      forall a | a in accounts || v.SettledAt(a) ensures Now().SettledAt(a) {
        assert v.LooseAt(a);
        PhasesSettle(v, ph, Now(), locals, config, a, a in accounts, QueueCap(locals, config, a));
      }
    }

    /** Remove transactions whose price entries are already gone. */
    method RemoveAll(txs: seq<Tx>)
      requires Books() && priced.all == all && priced.Valid()
      modifies this`pending, this`queue, this`nonces, this`beats, all, priced
      ensures Books() && priced.Valid() && all.all == old(all.all) - Elems(txs)
      ensures priced.Entries() == old(priced.Entries())
      ensures StaysSettled(old(Now()), Now(), {}) && Courses(old(Now()), Now()) && (txs == [] ==> Now() == old(Now()))
      ensures Silent(old(pending), pending, old(beats), beats)
    {
      hide Consistent, PriceHeap, Without, SameBut, StaysSettled, Courses, Silent;
      StaysAsIs(Now());
      CoursesNone(Now());
      SilentAsIs(pending, pending, beats);
      for i := 0 to |txs|
        invariant Books() && priced.Valid() && all.all == old(all.all) - Elems(txs[..i])
        invariant priced.Entries() == old(priced.Entries())
        invariant Silent(old(pending), pending, old(beats), beats)
        invariant StaysSettled(old(Now()), Now(), {}) && Courses(old(Now()), Now()) && (i == 0 ==> Now() == old(Now()))
      {
        ghost var v, heard := Now(), beats;
        RemoveTx(txs[i], false);
        SilentTwice(old(pending), v.pending, pending, old(beats), heard, beats);
        StaysOn(old(Now()), v, Now());
        CoursesTwice(old(Now()), v, Now());
        assert txs[..i + 1] == txs[..i] + [txs[i]];
      }
      assert txs[..|txs|] == txs;
    }

    /** Raise or lower the price floor; exactly the remote transactions below it leave. Entries are lost to the count of
        stale ones if and only if one of these had two. */
    method SetGasPrice(price: int)
      requires Valid()
      modifies this`gasPrice, this`pending, this`queue, this`nonces, this`beats, all, priced
      ensures Valid() && gasPrice == price && (old(Exactly()) ==> Exactly())
      ensures forall t :: t in all.all <==> t in old(all.all) && (t.price >= price || t.sender in locals)
      ensures StaysSettled(old(Now()), Now(), {}) && Courses(old(Now()), Now())
      ensures Follows(old(priced.Entries()), priced.Entries(), []) && priced.lost >= old(priced.lost)
      ensures priced.lost == old(priced.lost) <==>
                forall t :: t in old(all.all) && t.price < price && t.sender !in locals ==>
                  multiset(old(priced.items))[t] == 1
      ensures Silent(old(pending), pending, old(beats), beats)
    {
      hide Consistent, PriceHeap, StaysSettled, Courses, Counted, Exact, Follows, Tally, Covers;
      gasPrice := price;
      var drop := priced.Cap(price, locals);
      ElemsSize(drop);
      RemoveAll(drop);
      FollowsNone(old(priced.Entries()), priced.Entries());
      FollowsExact(old(priced.Entries()), priced.Entries(), [], old(all.all), all.all);
    }

    ghost predicate Idle(a: Address, now: int)
      reads this
    {
      a !in locals && (a !in beats || now - beats[a] > config.lifetime)
    }

    /** Drop the queues of remote accounts that have been silent for too long. */
    method EvictIdle(now: int)
      requires Valid()
      modifies this`pending, this`queue, this`nonces, this`beats, all, priced
      ensures Valid() && (old(Exactly()) ==> Exactly())
      ensures forall a :: Now().At(a)
                == if a in locals || (a in old(beats) && now - old(beats)[a] <= config.lifetime) then old(Now()).At(a)
                   else old(Now()).At(a).(queue := map[])
      ensures StaysSettled(old(Now()), Now(), {}) && Courses(old(Now()), Now())
      ensures all.all <= old(all.all) && Thins(old(priced.Entries()), priced.Entries())
      ensures Lapsed(old(priced.Entries()), priced.Entries(), |old(all.all)| - |all.all|)
    {
      hide Consistent, Exact, Covers, Tally, PriceHeap, Thins, Lapsed, Courses, StaysSettled, Emptied, SameBut;
      ghost var v := Now();
      ghost var gone: set<Address> := {};
      ThinsAsIs(priced.Entries());
      EmptiedNone(v);
      var todo := queue.Keys;
      while todo != {}
        invariant Valid() && todo <= v.queue.Keys && beats == old(beats)
        invariant Emptied(v, Now(), gone) && forall a :: a in gone <==> Idle(a, now) && a in v.queue && a !in todo
        invariant all.all <= old(all.all) && |all.all| <= |old(all.all)|
        invariant Thins(old(priced.Entries()), priced.Entries())
        invariant Lapsed(old(priced.Entries()), priced.Entries(), |old(all.all)| - |all.all|)
      {
        EmptyOrMember(todo);
        var a :| a in todo;
        todo := todo - {a};
        if a !in locals && (a !in beats || now - beats[a] > config.lifetime) {
          ghost var w, entries, size := Now(), priced.Entries(), |all.all|;
          EmptyQueue(a);
          EmptiedStep(v, w, Now(), gone, a);
          gone := gone + {a};
          ThinsTwice(old(priced.Entries()), entries, priced.Entries());
          LapsedTwice(old(priced.Entries()), entries, priced.Entries(), |old(all.all)| - size, size - |all.all|);
        }
      }
      ThinsExact(old(priced.Entries()), priced.Entries(), old(all.all), all.all);
      EmptiedCourses(v, old(all.all), Now(), gone);
      forall a ensures Now().At(a) == if old(Idle(a, now)) then v.At(a).(queue := map[]) else v.At(a) {
        EmptiedAt(v, Now(), gone, a);
      }
    }

    // ---- adding ------------------------------------------------------------------------------------

    method ValidateTx(tx: Tx, local: bool) returns (r: Option<AddError>)
      requires |tx.data| <= Gas.MAX_UINT64 && tx.gas <= Gas.MAX_UINT64
      ensures r == Objection(chain, gasPrice, locals, tx, local)
      ensures r.None? <==> Admissible(chain, gasPrice, locals, tx, local)
      ensures r.None? <==> forall e :: !Flawed(chain, gasPrice, locals, tx, local, e)
      ensures r.Some? ==> Flawed(chain, gasPrice, locals, tx, local, r.value)
      ensures r.Some? ==>
                forall e :: CheckedBefore(e, r.value) ==> !Flawed(chain, gasPrice, locals, tx, local, e)
    {
      hide Flawed, CheckedBefore;
      NoObjection(chain, gasPrice, locals, tx, local);
      ObjectionIsFlaw(chain, gasPrice, locals, tx, local);
      if tx.size > MAX_TX_SIZE { return Some(OversizedData); }
      if tx.value < 0 { return Some(NegativeValue); }
      if chain.gasLimit < tx.gas { return Some(ExceedsGasLimit); }
      if !tx.signed { return Some(InvalidSender); }
      if !(local || tx.sender in locals) && gasPrice > tx.price { return Some(Underpriced); }
      if chain.Nonce(tx.sender) > tx.nonce { return Some(NonceTooLow); }
      if chain.Balance(tx.sender) < tx.value { return Some(InsufficientFunds); }
      if chain.Balance(tx.sender) < MIN_BALANCE { return Some(InsufficientMinFunds); }
      if chain.Power(tx.sender) < tx.Cost() { return Some(InsufficientPower); }
      var intrinsic := Gas.IntrinsicGas(tx.data, tx.creation, chain.homestead);
      if intrinsic.None? { return Some(IntrinsicOverflow); }
      if tx.gas < intrinsic.value { return Some(IntrinsicGas); }
      r := None;
    }

    /** Make room in a full pool by dropping the cheapest remote transactions. There is room then, unless one of these
        had two entries. */
    method MakeRoom() returns (ghost dropped: set<Tx>)
      requires Valid()
      modifies this`pending, this`queue, this`nonces, this`beats, all, priced
      ensures Valid() && all.all == old(all.all) - dropped
      ensures Cheapest(dropped, old(all.all), locals)
      ensures dropped == {} <==> |old(all.all)| < Capacity(config) || OnlyLocal(old(all.all), locals)
      ensures dropped != {} ==> |dropped| <= |old(all.all)| + 1 - Capacity(config)
      ensures dropped == {} ==> Now() == old(Now())
      ensures forall d, t :: d in dropped && t in all.all && t.sender == d.sender && t.price == d.price ==>
                t.nonce < d.nonce
      ensures Single(old(priced.items), dropped) ==>
                |all.all| < Capacity(config) || Capacity(config) == 0 || OnlyLocal(all.all, locals)
      ensures StaysSettled(old(Now()), Now(), {}) && Courses(old(Now()), Now())
      ensures Follows(old(priced.Entries()), priced.Entries(), [])
      ensures Single(old(priced.items), dropped) ==> priced.lost == old(priced.lost)
      ensures Silent(old(pending), pending, old(beats), beats)
    {
      hide Consistent, PriceHeap, PriceLess, StaysSettled, Courses, Follows, Number, Cheapest, OnlyLocal, Covers, Tally,
           Counted, Shares, Wasteful, DoublesUntied, Single, NoRepeat, Silent;
      ghost var v, count := Now(), |all.all| - (Capacity(config) - 1);
      var drop := priced.Discard(|all.all| - (Capacity(config) - 1), locals);
      dropped := Elems(drop);
      if Single(old(priced.items), dropped) { SharesSingle(old(priced.items), drop, all.all, locals, count); }
      RoomMade(all.all, locals, Capacity(config), drop, dropped);
      forall d, t | d in dropped && t in all.all - dropped && t.sender == d.sender && t.price == d.price
        ensures t.nonce < d.nonce
      {
        CheapestFromTop(v, dropped, all.all, locals, d, t);
      }
      RemoveAll(drop);
    }

    /** A known transaction makes way for a new one. */
    method Exchange(incumbent: Tx, tx: Tx)
      requires Quotes() && incumbent in all.all && tx !in all.all
      modifies all, priced
      ensures Quotes() && all.all == old(all.all) - {incumbent} + {tx}
      ensures Booked(old(priced.Entries()), priced.Entries(), tx, true, {})
    {
      hide PriceHeap, Covers, Tally, Thins, Follows, Booked, Entered;
      CoversLess(priced.items, all.all, incumbent);
      assert |all.all - {incumbent}| == |all.all| - 1;
      all.all := all.all - {incumbent};
      priced.Removed();
      ghost var entries := priced.Entries();
      Enter(tx);
      BookedEnter(old(priced.Entries()), entries, priced.Entries(), tx, false);
    }

    /** Insert a validated transaction over its pending predecessor, if it outbids it. */
    method ReplacePending(tx: Tx) returns (inserted: bool)
      requires Valid() && tx !in all.all && tx.nonce in ListOf(pending, tx.sender)
      modifies this`pending, all, priced
      ensures Valid() && Booked(old(priced.Entries()), priced.Entries(), tx, inserted, {})
      ensures inserted <==> Outbids(tx, old(pending)[tx.sender][tx.nonce], config.priceBump)
      ensures !inserted ==> pending == old(pending) && all.all == old(all.all)
      ensures pending.Keys == old(pending).Keys
      ensures inserted ==> all.all == old(all.all) - {old(pending)[tx.sender][tx.nonce]} + {tx}
      ensures inserted ==> SameBut(old(Now()), Now(), tx.sender)
                           && Now().At(tx.sender) == Submitted(old(Now()).At(tx.sender), tx)
    {
      hide Quotes, Booked, Outbids, Consistent, SameBut, Submitted;
      var a := tx.sender;
      ghost var v := Now();
      var list: TxMap := pending[a];
      var incumbent := list[tx.nonce];
      BookedNot(priced.Entries(), tx);
      if !Outbids(tx, incumbent, config.priceBump) { return false; }
      assert incumbent in all.all && incumbent.sender == a by { PendingKnown(v, all.all, a, tx.nonce); }
      pending := pending[a := list[tx.nonce := tx]];
      Exchange(incumbent, tx);
      ReplacedIn(v, Now(), old(all.all), all.all, tx);
      inserted := true;
    }

    /** Insert a validated transaction that has no pending predecessor into the queue. */
    method EnqueueNew(tx: Tx) returns (inserted: bool, replaced: Option<Tx>)
      requires Valid() && tx !in all.all && tx.nonce !in ListOf(pending, tx.sender)
      modifies this`queue, all, priced
      ensures Valid() && Booked(old(priced.Entries()), priced.Entries(), tx, inserted, {})
      ensures inserted <==> Accepts(ListOf(old(queue), tx.sender), tx, config.priceBump)
      ensures !inserted ==> queue == old(queue) && all.all == old(all.all)
      ensures inserted ==> replaced == Incumbent(old(Now()).At(tx.sender), tx)
      ensures inserted ==> all.all == old(all.all) - SetOf(replaced) + {tx}
      ensures inserted ==> SameBut(old(Now()), Now(), tx.sender)
                           && Now().At(tx.sender) == Submitted(old(Now()).At(tx.sender), tx)
      ensures inserted && replaced.None? ==> Entered(old(priced.Entries()), priced.Entries(), tx)
    {
      hide PriceHeap, Accepts, Consistent, Covers, Tally, Booked, Entered, SameBut, Submitted, Incumbent;
      ghost var v := Now();
      if tx.nonce in ListOf(queue, tx.sender) { QueuedOnly(v, all.all, tx.sender, tx.nonce); }
      inserted, replaced := EnqueueTx(tx);
      if inserted { QueuedIn(v, Now(), old(all.all), all.all, tx, replaced); }
    }

    /** Into the pending list or the queue, marking the sender local where asked for. */
    method Insert(tx: Tx, local: bool) returns (r: AddResult)
      requires Valid() && tx !in all.all
      modifies this`pending, this`queue, this`locals, all, priced
      ensures Valid() && Booked(old(priced.Entries()), priced.Entries(), tx, r.Added?, {})
      ensures r.Added? || r == Rejected(ReplaceUnderpriced)
      ensures var rival := Incumbent(old(Now()).At(tx.sender), tx);
              && (r.Added? <==> rival.Some? ==> Outbids(tx, rival.value, config.priceBump))
              && (r.Added? ==> r.replaced == rival)
      ensures all.all == After(old(all.all), tx, r, {}) && Placed(old(Now()), Now(), tx, r)
      ensures Marked(old(Now()), old(locals), locals, tx, local, r) && pending.Keys == old(pending).Keys
      ensures r == Added(None) ==> Entered(old(priced.Entries()), priced.Entries(), tx)
    {
      hide Quotes, Outbids, Consistent, SameBut, Submitted, Booked, Entered, After, Placed, SetOf;
      ghost var v := Now();
      if tx.nonce in ListOf(pending, tx.sender) {
        var rival := pending[tx.sender][tx.nonce];
        var inserted := ReplacePending(tx);
        r := if inserted then Added(Some(rival)) else Rejected(ReplaceUnderpriced);
      } else {
        var inserted, replaced := EnqueueNew(tx);
        if inserted && local { locals := locals + {tx.sender}; }
        r := if inserted then Added(replaced) else Rejected(ReplaceUnderpriced);
      }
      if r.Added? {
        PlacedIs(v, Now(), old(all.all), tx, r.replaced);
      } else {
        PlacedNot(v, tx, r);
        AfterNothing(all.all, tx, r);
      }
    }

    /** Insertion as the lookup table sees it. */
    method Place(tx: Tx, local: bool) returns (r: AddResult)
      requires Valid() && tx !in all.all
      requires chain.Nonce(tx.sender) <= tx.nonce && Fits(tx, chain.LimitsOf(tx.sender))
      modifies this`pending, this`queue, this`locals, all, priced
      ensures Valid() && Booked(old(priced.Entries()), priced.Entries(), tx, r.Added?, {})
      ensures Placement(old(all.all), config.priceBump, tx, r)
      ensures all.all == After(old(all.all), tx, r, {}) && Placed(old(Now()), Now(), tx, r)
      ensures Marked(old(Now()), old(locals), locals, tx, local, r) && pending.Keys == old(pending).Keys
      ensures locals == old(locals) || (local && r.Added? && locals == old(locals) + {tx.sender})
      ensures local && r == Added(None) ==> locals == old(locals) + {tx.sender}
      ensures r == Added(None) ==> Entered(old(priced.Entries()), priced.Entries(), tx)
      ensures StaysSettled(old(Now()), Now(), Unsettled(tx, r)) && Courses(old(Now()), Now())
    {
      hide PriceHeap, Covers, Tally, Fits, Outbids, Consistent, SameBut, Submitted, StaysSettled, Courses, Booked,
           Entered, Placed, After, Placement;
      ghost var v, known := Now(), all.all;
      r := Insert(tx, local);
      PlacementIs(v, known, config.priceBump, tx, r);
      if r.Added? {
        PlacedSettled(v, Now(), tx, r);
        PlacedCourses(v, Now(), tx, r);
      } else {
        PlacedSame(v, Now(), tx, r);
        StaysAsIs(v);
        CoursesNone(v);
      }
    }

    /** Turn a remote transaction away from a full pool, or make room for it. */
    method Squeeze(tx: Tx, local: bool) returns (cheap: bool, ghost dropped: set<Tx>)
      requires Valid()
      modifies this`pending, this`queue, this`nonces, this`beats, all, priced
      ensures Valid()
      ensures cheap <==> TooCheap(old(all.all), locals, Capacity(config), tx, local)
      ensures all.all == old(all.all) - dropped && Cheapest(dropped, old(all.all), locals)
      ensures dropped == {} <==> cheap || |old(all.all)| < Capacity(config) || OnlyLocal(old(all.all), locals)
      ensures dropped != {} ==> |dropped| <= |old(all.all)| + 1 - Capacity(config)
      ensures dropped == {} ==> Now() == old(Now())
      ensures Single(old(priced.items), dropped) && !cheap && Capacity(config) > 0 ==>
                |all.all| < Capacity(config) || OnlyLocal(all.all, locals)
      ensures StaysSettled(old(Now()), Now(), {}) && Courses(old(Now()), Now())
      ensures Follows(old(priced.Entries()), priced.Entries(), [])
      ensures Single(old(priced.items), dropped) ==> priced.lost <= old(priced.lost)
      ensures |old(all.all)| < Capacity(config) ==> priced.Entries() == old(priced.Entries())
      ensures Silent(old(pending), pending, old(beats), beats)
    {
      hide PriceHeap, Covers, Tally, Consistent, PriceLess, StaysSettled, Courses, Follows, Thins, OnlyLocal, Cheapest,
           Silent, Single;
      StaysAsIs(Now());
      SilentAsIs(pending, pending, beats);
      CoursesNone(Now());
      ThinsAsIs(priced.Entries());
      NothingDropped(all.all, locals);
      cheap, dropped := false, {};
      if |all.all| >= Capacity(config) {
        if !local { cheap := priced.Underpriced(tx, locals); }
        ghost var entries := priced.Entries();
        ThinsFollows(old(priced.Entries()), entries);
        assert forall t :: t in all.all ==> multiset(entries.items)[t] == multiset(old(priced.items))[t];
        if cheap { return; }
        dropped := MakeRoom();
        FollowsOn(old(priced.Entries()), entries, priced.Entries(), []);
        CheapestKnown(dropped, old(all.all), locals);
        SingleStays(old(priced.items), entries.items, old(all.all), dropped);
      }
    }

    /** Put a validated transaction in the pool, dropping the cheapest remote ones if it is full. */
    method Admit(tx: Tx, local: bool) returns (r: AddResult, ghost dropped: set<Tx>)
      requires Valid() && tx !in all.all && chain.Nonce(tx.sender) <= tx.nonce && Fits(tx, chain.LimitsOf(tx.sender))
      modifies this`pending, this`queue, this`nonces, this`beats, this`locals, all, priced
      ensures Valid() && Booked(old(priced.Entries()), priced.Entries(), tx, r.Added?, dropped)
      ensures Verdict(old(all.all), old(locals), config, tx, local, None, r, dropped)
      ensures all.all == After(old(all.all), tx, r, dropped) && (dropped == {} ==> Placed(old(Now()), Now(), tx, r))
      ensures Single(old(priced.items), dropped) && r.Added? && Capacity(config) > 0 ==>
                |all.all| <= Capacity(config) || forall t :: t in all.all && t != tx ==> t.sender in old(locals)
      ensures locals == old(locals) || (local && r.Added? && locals == old(locals) + {tx.sender})
      ensures local && r == Added(None) ==> locals == old(locals) + {tx.sender}
      ensures dropped == {} ==> Marked(old(Now()), old(locals), locals, tx, local, r)
      ensures r == Added(None) && |old(all.all)| < Capacity(config) ==>
                Entered(old(priced.Entries()), priced.Entries(), tx)
      ensures StaysSettled(old(Now()), Now(), Unsettled(tx, r)) && Courses(old(Now()), Now())
      ensures Silent(old(pending), pending, old(beats), beats)
    {
      hide Quotes, Marked, Fits, Consistent, Cheapest, TooCheap, SetOf, StaysSettled, Courses, Follows,
           Booked, Entered, Placed, Placement, OnlyLocal, After, Silent, Single;
      var cheap;
      cheap, dropped := Squeeze(tx, local);
      ghost var v, kept, entries := Now(), all.all, priced.Entries();
      BookedNot(entries, tx);
      BookedAfter(old(priced.Entries()), entries, entries, tx, false, dropped);
      if cheap {
        r := Rejected(Underpriced);
        PlacedNot(Now(), tx, r);
        MarkedNot(Now(), locals, tx, local, r);
        AfterNothing(all.all, tx, r);
      } else {
        r := Place(tx, local);
        BookedAfter(old(priced.Entries()), entries, priced.Entries(), tx, r.Added?, dropped);
        SilentSame(old(pending), v.pending, pending, old(beats), beats);
        StaysTwice(old(Now()), v, Now(), {}, Unsettled(tx, r));
        assert {} + Unsettled(tx, r) == Unsettled(tx, r);
        CoursesTwice(old(Now()), v, Now());
        AfterTwice(old(all.all), kept, tx, r, dropped);
        AfterSize(kept, tx, r, Capacity(config), old(locals));
      }
    }

    /** Validate a transaction and put it in the pool. The ghost result is what was dropped to make room. */
    method Add(tx: Tx, local: bool) returns (r: AddResult, ghost dropped: set<Tx>)
      requires Valid() && |tx.data| <= Gas.MAX_UINT64 && tx.gas <= Gas.MAX_UINT64
      modifies this`pending, this`queue, this`nonces, this`beats, this`locals, all, priced
      ensures Valid() && Booked(old(priced.Entries()), priced.Entries(), tx, r.Added?, dropped)
      ensures old(Exactly()) && (r.Added? ==> tx !in old(priced.items)) ==> Exactly()
      ensures var objection := Objection(chain, gasPrice, old(locals), tx, local);
              Verdict(old(all.all), old(locals), config, tx, local, objection, r, dropped)
      ensures all.all == After(old(all.all), tx, r, dropped) && (dropped == {} ==> Placed(old(Now()), Now(), tx, r))
      ensures r.Added? || r == Rejected(ReplaceUnderpriced) ==>
                forall o :: o in old(all.all) - dropped && o.sender == tx.sender && o.nonce == tx.nonce ==>
                  r == if o.price < tx.price && o.price * (100 + config.priceBump) <= 100 * tx.price + 99
                       then Added(Some(o)) else Rejected(ReplaceUnderpriced)
      ensures Single(old(priced.items), dropped) && r.Added? && Capacity(config) > 0 ==>
                |all.all| <= Capacity(config) || forall t :: t in all.all && t != tx ==> t.sender in old(locals)
      ensures locals == old(locals) || (local && r.Added? && locals == old(locals) + {tx.sender})
      ensures local && r == Added(None) ==> locals == old(locals) + {tx.sender}
      ensures dropped == {} ==> Marked(old(Now()), old(locals), locals, tx, local, r)
      ensures r == Added(None) && |old(all.all)| < Capacity(config) ==>
                Entered(old(priced.Entries()), priced.Entries(), tx)
      ensures StaysSettled(old(Now()), Now(), Unsettled(tx, r)) && Courses(old(Now()), Now())
      ensures Silent(old(pending), pending, old(beats), beats)
    {
      hide PriceHeap, Covers, Tally, Exact, Fits, Consistent, Cheapest, TooCheap, Objection, SetOf, StaysSettled,
           Courses, Booked, Entered, Placed, Placement, OnlyLocal, After, Silent, Single, Marked;
      var refused := if tx in all.all then Some(AlreadyKnown) else None;
      if tx !in all.all { refused := ValidateTx(tx, local); }
      if refused.Some? {
        r, dropped := Rejected(refused.value), {};
        PlacedNot(Now(), tx, r);
        MarkedNot(Now(), locals, tx, local, r);
        AfterNothing(all.all, tx, r);
        StaysAsIs(Now());
        SilentAsIs(pending, pending, beats);
        CoursesNone(Now());
        BookedNot(priced.Entries(), tx);
      } else {
        AdmissibleFits(chain, gasPrice, locals, tx, local);
        r, dropped := Admit(tx, local);
      }
      BookedExact(old(priced.Entries()), priced.Entries(), tx, r.Added?, dropped, old(all.all), all.all);
      NotItsPrice(chain, gasPrice, old(locals), tx, local);
      if r.Added? || r == Rejected(ReplaceUnderpriced) {
        PricesDecide(old(Now()), old(all.all), old(locals), config, tx, local,
                     Objection(chain, gasPrice, old(locals), tx, local), r, dropped);
      }
    }

    /** Add a batch, then promote the accounts that gained a transaction and bring the pool within its
        limits. The ghost results are the pool before and after each of them, and its phases afterwards. */
    method AddTxs(txs: seq<Tx>, local: bool, now: int)
      returns (results: seq<AddResult>, ghost b: Batch, ghost ph: Phases)
      requires Valid() && config.accountSlots >= 1 && Encodable(txs)
      modifies this`pending, this`queue, this`nonces, this`beats, this`locals, all, priced
      ensures Valid() && (!local ==> locals == old(locals)) && |all.all| <= |old(all.all)| + |txs|
      ensures Batched(b, txs, results, config, gasPrice, local)
      ensures b.stages[0] == old(Snapshot())
      ensures Landed(b.stages[|txs|], Gained(txs, results), ph, Snapshot(), config)
      ensures forall t :: t in b.stages[|txs|].known && t.sender in locals && Current(chain, t) ==> t in all.all
      ensures forall a :: a in Gained(txs, results) && a !in locals ==> Size(queue, a) <= config.accountQueue
      ensures StaysSettled(old(Now()), Now(), {}) && Courses(old(Now()), Now())
      ensures |old(all.all)| + |txs| <= config.globalSlots ==> PendingKept(old(Now()), Now())
      ensures AllSound(old(Now())) && Small(|old(all.all)| + |txs|, config) ==> all.all == b.stages[|txs|].known
      ensures BatchBooked(old(priced.Entries()), priced.Entries(), b, txs, results)
      ensures old(Exactly()) && priced.doubled == old(priced.doubled) ==> Exactly()
      ensures Heard(old(beats), beats, now)
    {
      hide Consistent, Covers, Tally, Exact, PriceHeap, Promoted, Verdict, After, Placed, StaysSettled, Courses,
           Batched, Fair, CutDown, Trimmed, NewestFirst, WithinLimit, Objection, Limited, PendingKept, Thins, AllSound,
           AllGapless, Heard, Silent, Landed, Marked, Booked, Single, BatchBooked, Follows, Entered;
      results, ph := [], Phases(Now(), Now(), 0, beats);
      var dirty: set<Address> := {};
      b := Batch([Snapshot()], []);
      BatchedNone(b.stages[0], config, gasPrice, local);
      BatchStart(Now());
      SilentAsIs(pending, pending, beats);
      assert txs[..0] == [];
      for i := 0 to |txs|
        invariant Valid() && |results| == i && (!local ==> locals == old(locals)) && dirty == Gained(txs[..i], results)
        invariant Batched(b, txs[..i], results, config, gasPrice, local)
        invariant |b.stages| == i + 1 && b.stages[0] == old(Snapshot()) && b.stages[i] == Snapshot()
        invariant StaysSettled(old(Now()), Now(), dirty) && Courses(old(Now()), Now())
        invariant Silent(old(pending), pending, old(beats), beats) && |all.all| <= |old(all.all)| + i
        invariant |old(all.all)| + |txs| <= config.globalSlots ==> PendingKept(old(Now()), Now())
      {
        var tx := txs[i];
        assert tx in txs;
        ghost var v, was, heard := Now(), dirty, beats;
        var r;
        ghost var dropped;
        r, dropped := Add(tx, local);
        assert txs[..i + 1] == txs[..i] + [tx];
        ghost var s := Snapshot();
        BatchedStep(b, txs[..i], results, config, gasPrice, local, tx, r, dropped, s);
        GainedStep(txs[..i], results, tx, r);
        b, results := Batch(b.stages + [s], b.drops + [dropped]), results + [r];
        StaysTwice(old(Now()), v, Now(), dirty, Unsettled(tx, r));
        CoursesTwice(old(Now()), v, Now());
        SilentTwice(old(pending), v.pending, pending, old(beats), heard, beats);
        AfterRoom(b.stages[i], s, dropped, tx, r, config, gasPrice, local);
        if |old(all.all)| + |txs| <= config.globalSlots { KeptTwice(old(Now()), v, Now()); }
        if r.Added? && r.replaced.None? { dirty := dirty + {tx.sender}; }
        assert dirty == was + Unsettled(tx, r);
      }
      assert txs[..|txs|] == txs;
      ghost var last, heard := b.stages[|txs|], beats;
      SilentHeard(old(pending), pending, old(beats), beats, now);
      ThinsAsIs(priced.Entries());
      if dirty == {} {
        Unlanded(last, ph, config);
      } else {
        ghost var v := Now();
        if AllSound(old(Now())) { CoursesKeepAll(old(Now()), v); }
        ph := PromoteExecutables(dirty, now);
        SubsetSize(all.all, last.known);
        HeardTwice(old(beats), heard, beats, now);
        LandedSome(last, dirty, ph, Snapshot(), config);
        SettlesRest(old(Now()), v, Now(), dirty);
        CoursesTwice(old(Now()), v, Now());
        if |old(all.all)| + |txs| <= config.globalSlots { KeptTwice(old(Now()), v, Now()); }
      }
      BatchThins(b, txs, results, config, gasPrice, local, priced.Entries());
      BatchExact(old(priced.Entries()), priced.Entries(), b, txs, results, old(all.all), all.all);
    }

    // ---- a new head --------------------------------------------------------------------------------

    method DropStale(a: Address, list: TxMap, ghost x: Acct)
      requires Quotes() && Loose(x, a) && x.pending == list
      requires forall t: Tx :: t.sender == a ==> (t in all.all <==> Carries(x, t))
      modifies all, priced
      ensures Quotes() && Thins(old(priced.Entries()), priced.Entries())
      ensures all.all <= old(all.all)
      ensures var y := Demoted(x, chain.Nonce(a), chain.LimitsOf(a));
              forall t: Tx :: if t.sender == a then t in all.all <==> Carries(y, t)
                              else t in all.all <==> t in old(all.all)
    {
      hide Fits, Covers, Tally, PriceHeap, Demoted;
      var nonce, l := chain.Nonce(a), chain.LimitsOf(a);
      assert forall n :: n in list ==> Carries(x, list[n]);
      ForgetAll(Below(list, nonce));
      var rest: TxMap := From(list, nonce);
      ForgetAll(Unpayable(rest, l));
      forall t: Tx | t.sender == a ensures t in all.all <==> Carries(Demoted(x, nonce, l), t) {
        DemotedDrops(x, a, nonce, l, t);
      }
    }

    /** Drop mined and unpayable pending transactions of one account, and send back to the queue
        what can no longer be executed. */
    method DemoteAccount(a: Address, ghost x: Acct)
      requires Quotes() && a in pending && Loose(x, a)
      requires x.pending == ListOf(pending, a) && x.queue == ListOf(queue, a)
      requires forall t: Tx :: t.sender == a ==> (t in all.all <==> Carries(x, t))
      modifies this`pending, this`queue, this`beats, all, priced
      ensures Quotes() && Thins(old(priced.Entries()), priced.Entries())
      ensures all.all <= old(all.all)
      ensures var y := Demoted(x, chain.Nonce(a), chain.LimitsOf(a));
              && Updated(old(pending), pending, a, y.pending) && Updated(old(queue), queue, a, y.queue)
              && forall t: Tx :: if t.sender == a then t in all.all <==> Carries(y, t)
                                 else t in all.all <==> t in old(all.all)
      ensures Silent(old(pending), pending, old(beats), beats)
    {
      hide Fits, Blocked, Covers, Tally, PriceHeap, Updated, Loose, Carries, Holds, Survives, Below, Unpayable,
           Retained, Stranded, Thins, Highest, Silent;
      var nonce, l := chain.Nonce(a), chain.LimitsOf(a);
      var list: TxMap := pending[a];
      LooseParts(x, a);
      DropStale(a, list, x);
      ghost var q0 := queue;
      var kept: TxMap := Retained(From(list, nonce), true, l);
      var back: TxMap := Stranded(From(list, nonce), true, l);
      SurvivingParts(x, a, nonce, l);
      SurvivorsKept(x, a, nonce, l, back);
      SurvivorsKept(x, a, nonce, l, kept);
      Postpone(a, back);
      ghost var q1 := queue;
      if kept != map[] && nonce !in kept {
        UpdatedTwice(q0, q1, q1, a, x.queue + back, x.queue + back);
        Postpone(a, kept);
        UpdatedTwice(q0, q1, queue, a, x.queue + back, x.queue + back + kept);
        kept := map[];
      }
      SilentStore(pending, a, kept, beats);
      if kept == map[] { beats := beats - {a}; }
      pending := Store(pending, a, kept);
    }

    /** Demote every account with pending transactions against the chain state. */
    method DemoteUnexecutables()
      requires Valid()
      modifies this`pending, this`queue, this`beats, all, priced
      ensures Quotes() && Thins(old(priced.Entries()), priced.Entries())
      ensures all.all <= old(all.all)
      ensures Demoting(old(Now()), pending, queue, all.all, old(pending).Keys)
      ensures Silent(old(pending), pending, old(beats), beats)
    {
      hide Consistent, Covers, Tally, PriceHeap, Demoting, Loose, Carries, Updated, Thins, Silent;
      ghost var v := Now();
      DemotingStart(v, all.all);
      ThinsAsIs(priced.Entries());
      SilentAsIs(pending, pending, beats);
      var todo := pending.Keys;
      ghost var done := {};
      while todo != {}
        invariant todo + done == v.pending.Keys && todo !! done
        invariant Quotes() && Demoting(v, pending, queue, all.all, done)
        invariant Silent(old(pending), pending, old(beats), beats)
        invariant Thins(old(priced.Entries()), priced.Entries()) && all.all <= old(all.all)
      {
        EmptyOrMember(todo);
        var a :| a in todo;
        todo := todo - {a};
        ghost var p, q, known, entries, heard := pending, queue, all.all, priced.Entries(), beats;
        NotYetDemoted(v, p, q, known, done, a, old(all.all));
        DemoteAccount(a, v.At(a));
        ThinsTwice(old(priced.Entries()), entries, priced.Entries());
        SilentTwice(old(pending), p, pending, old(beats), heard, beats);
        DemotingStep(v, p, q, known, done, a, pending, queue, all.all);
        done := done + {a};
      }
    }

    /** Set every pending account's next nonce from its last pending transaction. */
    method ResetNonces(ghost v: View, ghost all0: set<Tx>)
      requires Consistent(v, all0) && Demoting(v, pending, queue, all.all, v.pending.Keys)
      requires v.nonces == nonces && v.chain == chain
      modifies this`nonces
      ensures forall a :: NextOf(nonces, chain, a) == DemotedAt(v, a).next
    {
      hide Consistent, Demoting, DemotedAt;
      var todo := pending.Keys;
      while todo != {}
        invariant todo <= pending.Keys
        invariant forall a :: NextOf(nonces, chain, a)
                              == if a in pending && a !in todo then DemotedAt(v, a).next else v.At(a).next
      {
        EmptyOrMember(todo);
        var a :| a in todo;
        todo := todo - {a};
        DemotedNext(v, pending, queue, all.all, a, all0);
        var txs := Flat(pending[a]);
        nonces := nonces[a := txs[|txs| - 1].nonce + 1];
      }
      forall a ensures NextOf(nonces, chain, a) == DemotedAt(v, a).next {
        DemotedNext(v, pending, queue, all.all, a, all0);
      }
    }

    /** Bring every account's pending list and next nonce in line with the chain state. */
    method Demote()
      requires Valid()
      modifies this`pending, this`queue, this`nonces, this`beats, all, priced
      ensures Valid() && Thins(old(priced.Entries()), priced.Entries())
      ensures all.all <= old(all.all)
      ensures forall a :: Now().At(a) == DemotedAt(old(Now()), a)
      ensures Silent(old(pending), pending, old(beats), beats)
    {
      hide Consistent, Covers, Tally, PriceHeap, Demoting, DemotedAt, Thins, Silent;
      ghost var v := Now();
      DemoteUnexecutables();
      ResetNonces(v, old(all.all));
      DemotedConsistent(v, Now(), all.all, old(all.all));
    }

    /** Take over a new head's state and add the transactions that come back; nothing is demoted yet. */
    method Reinject(head: ChainState, reinject: seq<Tx>, now: int)
      returns (ghost results: seq<AddResult>, ghost batch: Batch, ghost landing: Phases)
      requires Valid() && config.accountSlots >= 1 && Encodable(reinject)
      modifies this`chain, this`pending, this`queue, this`nonces, this`beats, this`locals, all, priced
      ensures Valid() && chain == head && locals == old(locals)
      ensures Batched(batch, reinject, results, config, gasPrice, false)
      ensures batch.stages[0] == Stage(Moved(old(Now()), head), old(all.all), locals, old(priced.Entries()))
      ensures Landed(batch.stages[|reinject|], Gained(reinject, results), landing, Snapshot(), config)
      ensures Courses(Moved(old(Now()), head), Now())
      ensures forall t :: t in batch.stages[|reinject|].known && t.sender in locals && Current(head, t) ==> t in all.all
      ensures reinject == [] ==> Snapshot() == batch.stages[0]
      ensures |all.all| <= |old(all.all)| + |reinject|
      ensures |old(all.all)| + |reinject| <= config.globalSlots ==> PendingKept(Moved(old(Now()), head), Now())
      ensures Heard(old(beats), beats, now)
      ensures BatchBooked(old(priced.Entries()), priced.Entries(), batch, reinject, results)
    {
      hide Consistent, Covers, Tally, Exact, PriceHeap, Courses, StaysSettled, Batched, BatchBooked, Landed,
           PendingKept, AllSound, Heard, Silent;
      ghost var v0 := Now();
      chain, nonces := head, map[];
      MovedConsistent(v0, all.all, head);
      results, batch, landing := AddTxs(reinject, false, now);
      if reinject == [] { LandedNothing(batch, results, config, gasPrice, landing, Snapshot()); }
    }

    /** Demote, promote, and enforce the limits. */
    method Refresh(now: int) returns (ghost ph: Phases)
      requires Valid() && config.accountSlots >= 1
      modifies this`pending, this`queue, this`nonces, this`beats, all, priced
      ensures Valid() && Settled() && all.all <= old(all.all)
      ensures forall a :: ph.ready.At(a)
                == Promoted(DemotedAt(old(Now()), a), chain.Nonce(a), chain.LimitsOf(a), QueueCap(locals, config, a))
      ensures ph.ready.chain == chain && Limited(ph, Now(), locals, config)
      ensures Heard(old(beats), beats, now) && Thins(old(priced.Entries()), priced.Entries())
    {
      hide Consistent, Covers, Tally, PriceHeap, Limited, Promoted, Demoted, Courses, Thins, PendingKept, AllSound,
           Heard, Silent;
      ghost var v := Now();
      Demote();
      ghost var w, accounts, entries, heard := Now(), queue.Keys, priced.Entries(), beats;
      SilentHeard(old(pending), pending, old(beats), beats, now);
      ph := PromoteExecutables(queue.Keys, now);
      ThinsTwice(old(priced.Entries()), entries, priced.Entries());
      HeardTwice(old(beats), heard, beats, now);
      forall a ensures ph.ready.At(a)
                       == Promoted(DemotedAt(v, a), chain.Nonce(a), chain.LimitsOf(a), QueueCap(locals, config, a)) {
        assert w.At(a) == DemotedAt(v, a);
        if a !in accounts { PromotedNothing(w.At(a), chain.Nonce(a), chain.LimitsOf(a), QueueCap(locals, config, a)); }
      }
    }

    /** The chain has a new head, and the transactions of the blocks it abandons come back. Whatever the new
        state is, the pool is consistent with it afterwards; and what becomes of each account is decided by
        what was pending for it when the lists were demoted. */
    method Reset(head: ChainState, reinject: seq<Tx>, now: int) returns (ghost re: Replay)
      requires Valid() && config.accountSlots >= 1 && Encodable(reinject)
      modifies this`chain, this`pending, this`queue, this`nonces, this`beats, this`locals, all, priced
      ensures Valid() && Settled() && chain == head && locals == old(locals) && |all.all| <= |old(all.all)| + |reinject|
      ensures Batched(re.batch, reinject, re.results, config, gasPrice, false)
      ensures re.batch.stages[0] == Stage(Moved(old(Now()), head), old(all.all), locals, old(priced.Entries()))
      ensures Landed(re.batch.stages[|reinject|], Gained(reinject, re.results), re.landing, re.mid, config)
      ensures Consistent(re.mid.view, re.mid.known) && re.mid.view.chain == head
      ensures reinject == [] ==> re.mid == re.batch.stages[0]
      ensures forall a :: re.ph.ready.At(a)
                == Promoted(DemotedAt(re.mid.view, a), head.Nonce(a), head.LimitsOf(a), QueueCap(locals, config, a))
      ensures re.ph.ready.chain == head && Limited(re.ph, Now(), locals, config)
      ensures forall t :: t in re.batch.stages[|reinject|].known && t.sender in locals && Current(head, t) ==>
                t in re.mid.known
      ensures forall t: Tx :: t.sender in locals ==> (t in all.all <==> t in re.mid.known && Current(head, t))
      ensures forall a :: a !in locals ==> Size(queue, a) <= config.accountQueue
      ensures forall a :: old(Now()).GaplessAt(a) ==> Outcome(old(Now()), re.mid.view, re.ph.ready, Now(), a)
      ensures |old(all.all)| + |reinject| <= config.globalSlots ==>
                && (forall a :: MinedKept(old(Now()).At(a), re.mid.view.At(a), head.Nonce(a)))
                && (AllGapless(old(Now())) && (forall a :: old(chain).Nonce(a) <= head.Nonce(a)) ==> AllSound(Now()))
      ensures Heard(old(beats), beats, now)
      ensures BatchBooked(old(priced.Entries()), priced.Entries(), re.batch, reinject, re.results)
      ensures old(Exactly()) && priced.doubled == old(priced.doubled) ==> Exactly()
    {
      hide Consistent, Covers, Tally, Exact, PriceHeap, Limited, Promoted, DemotedAt, Courses, BatchBooked, Thins,
           Landed, PendingKept, Outcome, MinedKept, AllGapless, AllSound, Heard, Gapless;
      ghost var v0 := Now();
      ghost var results, batch, landing := Reinject(head, reinject, now);
      ghost var mid, heard := Snapshot(), beats;
      ghost var ph := Refresh(now);
      SubsetSize(all.all, mid.known);
      BookedThins(old(priced.Entries()), mid.entries, priced.Entries(), batch, reinject, results);
      BatchExact(old(priced.Entries()), priced.Entries(), batch, reinject, results, old(all.all), all.all);
      HeardTwice(old(beats), heard, beats, now);
      re := Replay(results, batch, landing, mid, ph);
      forall t: Tx | t.sender in locals ensures t in all.all <==> t in mid.known && Current(head, t) {
        LocalsKeepEverything(mid.view, mid.known, ph, Now(), all.all, locals, config, t);
      }
      forall a | a !in locals ensures Size(queue, a) <= config.accountQueue {
        DemotedRemote(mid.view, mid.known, a);
        RemoteCapped(DemotedAt(mid.view, a), ph, Now(), locals, config, a, head.Nonce(a), head.LimitsOf(a));
      }
      forall a | v0.GaplessAt(a) ensures Outcome(v0, mid.view, ph.ready, Now(), a) {
        ResetOutcome(v0, mid.view, ph, Now(), locals, config, QueueCap(locals, config, a), a);
      }
      if |old(all.all)| + |reinject| <= config.globalSlots {
        MinedStay(v0, mid.view);
        if AllGapless(v0) && forall a :: v0.chain.Nonce(a) <= head.Nonce(a) {
          KeptSound(v0, mid.view, ph.ready, Now());
        }
      }
    }

    // ---- runs ----------------------------------------------------------------------------------------

    method Apply(op: Op)
      requires Valid() && config.accountSlots >= 1 && Encodable(Incoming(op))
      modifies this, all, priced
      ensures Valid() && StaysSettled(old(Now()), Now(), {}) && chain == HeadAfter(old(chain), op)
      ensures |all.all| <= |old(all.all)| + |Incoming(op)|
      ensures AllGapless(old(Now())) && SteadyAt(old(chain), op) ==> AllGapless(Now())
      ensures !op.Head? && AllSound(old(Now())) ==> AllSound(Now())
      ensures op.Head? && AllGapless(old(Now())) && SteadyAt(old(chain), op) ==>
                (op.reinject == [] || |old(all.all)| + |op.reinject| <= config.globalSlots) ==> AllSound(Now())
      ensures Follows(old(priced.Entries()), priced.Entries(), Incoming(op))
    {
      hide Consistent, Covers, Tally, Exact, PriceHeap, Limited, Promoted, Courses, Batched, Follows, PendingKept,
           Outcome, MinedKept, Lapsed, Counted, AllGapless, AllSound, Clean, Thrifty, Thins;
      ghost var v := Now();
      match op {
        case Submit(txs, local, now) => var _, _, _ := AddTxs(txs, local, now);
        case Withdraw(tx) =>
          RemoveTx(tx, true);
          ThinsFollows(old(priced.Entries()), priced.Entries());
          SubsetSize(all.all, old(all.all));
        case Price(price) =>
          SetGasPrice(price);
          SubsetSize(all.all, old(all.all));
        case Evict(now) =>
          EvictIdle(now);
          ThinsFollows(old(priced.Entries()), priced.Entries());
          SubsetSize(all.all, old(all.all));
        case Head(head, reinject, now) =>
          ghost var re := Reset(head, reinject, now);
          if AllGapless(v) { Outcomes(v, re.mid.view, re.ph.ready, Now(), op); }
      }
      if !op.Head? { CoursesKeepAll(v, Now()); }
    }

    /** Any run of pool operations keeps the pool consistent, and leaves nothing in the queue that could be
        executed next. As long as reinjection does not meet a lower nonce, there are no gaps; and every account is
        in order, if it was at the beginning or at some new head, as long as every new head from there on finds room
        for what it brings back. As long as nothing is put while it has a price entry, the price heap is exact. */
    method Run(ops: seq<Op>)
      requires Valid() && config.accountSlots >= 1 && Encodable(AllIncoming(ops))
      modifies this, all, priced
      ensures Valid() && (old(Settled()) ==> Settled())
      ensures AllGapless(old(Now())) && Steady(old(chain), ops) ==> AllGapless(Now())
      ensures AllSound(old(Now())) && Quiet(ops) ==> AllSound(Now())
      ensures AllSound(old(Now())) && Steady(old(chain), ops) && Calm(ops, 0, |old(all.all)|, config.globalSlots) ==>
                AllSound(Now())
      ensures AllGapless(old(Now())) && Steady(old(chain), ops) ==>
                forall k :: 0 <= k < |ops| && ops[k].Head? && Calm(ops, k, |old(all.all)|, config.globalSlots) ==>
                  AllSound(Now())
      ensures Follows(old(priced.Entries()), priced.Entries(), AllIncoming(ops))
      ensures old(Exactly()) && priced.doubled == old(priced.doubled) ==> Exactly()
      ensures old(Exactly()) && Unseen(AllIncoming(ops), old(priced.items)) ==> Exactly()
    {
      hide Consistent, Covers, Tally, Exact, PriceHeap, AllGapless, AllSound, SteadyAt, HeadAfter, Calm, Incoming,
           Unseen, NoRepeat;
      ghost var n, limit, sound, gapless := |all.all|, config.globalSlots, AllSound(Now()), AllGapless(Now());
      ghost var even := gapless && Steady(chain, ops);
      assert ops[..0] == [] && ops[0..] == ops;
      ThinsAsIs(priced.Entries());
      for i := 0 to |ops|
        invariant Valid() && (old(Settled()) ==> Settled())
        invariant |all.all| <= n + |AllIncoming(ops[..i])|
        invariant even ==> AllGapless(Now()) && Steady(chain, ops[i..])
        invariant even ==> Recovered(sound, ops, i, n, limit, AllSound(Now()))
        invariant Follows(old(priced.Entries()), priced.Entries(), AllIncoming(ops[..i]))
      {
        assert ops[i..][0] == ops[i] && ops[i..][1..] == ops[i + 1..];
        IncomingStep(ops, i);
        ghost var entries, was := priced.Entries(), AllSound(Now());
        IncomingHead(ops[i]);
        Apply(ops[i]);
        if even { RecoveredStep(sound, ops, i, n, limit, was, AllSound(Now())); }
        FollowsTwice(old(priced.Entries()), entries, priced.Entries(), AllIncoming(ops[..i]), Incoming(ops[i]));
      }
      assert ops[..|ops|] == ops;
      if sound {
        AllSoundGapless(old(Now()));
        if Quiet(ops) { QuietIsCalm(old(chain), ops, n, limit); }
      }
      FollowsExact(old(priced.Entries()), priced.Entries(), AllIncoming(ops), old(all.all), all.all);
    }
  }
}
