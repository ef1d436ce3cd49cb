/** One account's share of the transaction pool, and what every pool operation does to it.
    The pool's invariant is this module's Loose for every account at once; in a pool that is in
    order every account is Sound. */
module PoolAccounts {
  import opened Options
  import opened Transactions
  import opened AccountLists

  /** The executable list, the future queue, and the next nonce the pool hands out. */
  datatype Acct = Acct(pending: TxMap, queue: TxMap, next: int)

  predicate Carries(x: Acct, tx: Tx) { Holds(x.pending, tx) || Holds(x.queue, tx) }

  ghost predicate Filed(m: TxMap, a: Address) {
    Keyed(m) && forall n :: n in m ==> m[n].sender == a
  }

  ghost predicate AllFit(m: TxMap, l: Limits) { forall n :: n in m ==> Fits(m[n], l) }

  /** The pending nonces run without a gap from the account's nonce to the next one, nothing
      queued comes before that, and everything can be paid for. */
  ghost predicate Sound(x: Acct, a: Address, nonce: int, l: Limits) {
    && Filed(x.pending, a) && Filed(x.queue, a)
    && Interval(x.pending, nonce, x.next)
    && (forall n :: n in x.queue ==> x.next <= n)
    && AllFit(x.pending, l) && AllFit(x.queue, l)
  }

  /** The same before the queue has been looked at against a new chain state: it may hold
      outdated and unpayable transactions, but none that belongs among the pending ones. */
  ghost predicate Unswept(x: Acct, a: Address, nonce: int, l: Limits) {
    && Filed(x.pending, a) && Filed(x.queue, a)
    && Interval(x.pending, nonce, x.next)
    && (forall n :: n in x.queue && n >= nonce ==> x.next <= n)
    && AllFit(x.pending, l)
  }

  function Top(x: Acct, nonce: int): int { if x.next < nonce then nonce else x.next }

  /** The pending nonces have no gap and the queue lies beyond them; but the next nonce may have
      fallen below the account's. */
  ghost predicate Gapless(x: Acct, a: Address, nonce: int) {
    && Filed(x.pending, a) && Filed(x.queue, a)
    && Interval(x.pending, nonce, Top(x, nonce))
    && (forall n :: n in x.queue && n >= nonce ==> Top(x, nonce) <= n)
  }

  /** What holds at all times, whatever the chain state. */
  ghost predicate Loose(x: Acct, a: Address) {
    && Filed(x.pending, a) && Filed(x.queue, a)
    && (forall n :: n in x.pending ==> n !in x.queue)
  }

  lemma SoundIsUnswept(x: Acct, a: Address, nonce: int, l: Limits)
    requires Sound(x, a, nonce, l)
    ensures Unswept(x, a, nonce, l)
  {}

  /** An account without gaps is in order if and only if its next nonce has not fallen and everything fits. */
  lemma UnsweptIff(x: Acct, a: Address, nonce: int, l: Limits)
    ensures Unswept(x, a, nonce, l) <==> Gapless(x, a, nonce) && nonce <= x.next && AllFit(x.pending, l)
    ensures Gapless(x, a, nonce) ==> Loose(x, a)
  {
    hide Fits;
  }

  // ---- adding -----------------------------------------------------------------------------------

  function Queued(x: Acct, tx: Tx): Acct { x.(queue := x.queue[tx.nonce := tx]) }
  function Replaced(x: Acct, tx: Tx): Acct { x.(pending := x.pending[tx.nonce := tx]) }
  function Submitted(x: Acct, tx: Tx): Acct { if tx.nonce in x.pending then Replaced(x, tx) else Queued(x, tx) }

  /** The transaction, if any, that tx would take the place of. */
  function Incumbent(x: Acct, tx: Tx): Option<Tx> {
    if tx.nonce in x.pending then Some(x.pending[tx.nonce])
    else if tx.nonce in x.queue then Some(x.queue[tx.nonce]) else None
  }

  lemma AddedLoose(x: Acct, a: Address, tx: Tx)
    requires Loose(x, a) && tx.sender == a
    ensures Loose(Submitted(x, tx), a)
    ensures forall t :: Carries(Submitted(x, tx), t) <==> t == tx || (Carries(x, t) && Incumbent(x, tx) != Some(t))
  {
    var y := Submitted(x, tx);
    forall t ensures Carries(y, t) <==> t == tx || (Carries(x, t) && Incumbent(x, tx) != Some(t)) {
      assert t.nonce in x.queue ==> t.nonce !in x.pending;
    }
  }

  lemma AddedSound(x: Acct, a: Address, nonce: int, l: Limits, tx: Tx)
    requires Sound(x, a, nonce, l) && tx.sender == a && nonce <= tx.nonce && Fits(tx, l)
    ensures Sound(Submitted(x, tx), a, nonce, l)
  {
    hide Fits;
  }

  // ---- removing ------------------------------------------------------------------------------------

  /** Taking out a pending transaction sends everything behind it back to the queue. */
  function Without(x: Acct, nonce: int): Acct {
    if nonce in x.pending then
      Acct(Below(x.pending, nonce), x.queue + From(x.pending, nonce + 1), if x.next > nonce then nonce else x.next)
    else x.(queue := x.queue - {nonce})
  }

  lemma OnePlace(x: Acct, a: Address, tx: Tx)
    requires Loose(x, a) && Carries(x, tx)
    ensures forall t :: Carries(x, t) && t.nonce == tx.nonce ==> t == tx
  {}

  lemma RemovedLoose(x: Acct, a: Address, n: int)
    requires Loose(x, a)
    ensures Loose(Without(x, n), a)
    ensures forall t :: Carries(Without(x, n), t) <==> Carries(x, t) && t.nonce != n
  {}

  lemma RemovedSound(x: Acct, a: Address, nonce: int, l: Limits, n: int)
    requires Sound(x, a, nonce, l)
    ensures Sound(Without(x, n), a, nonce, l)
  {
    hide Fits;
  }

  // ---- promoting ----------------------------------------------------------------------------------------

  /** What is left of the queue once outdated and unpayable transactions are gone. */
  function Swept(x: Acct, nonce: int, l: Limits): TxMap { Payable(From(x.queue, nonce), l) }

  function Capped(m: TxMap, cap: Option<nat>): TxMap { if cap.Some? then Lowest(m, cap.value) else m }

  /** Where the queue is ready to be executed from: at its lowest nonce, if that does not lie beyond the
      next one. */
  function Start(q: TxMap, next: int): int { if q != map[] && MinKey(q) < next then MinKey(q) else next }

  /** The run of queued transactions that is ready joins the pending ones; the rest of the queue may be
      cut down to its lowest nonces. */
  function Promoted(x: Acct, nonce: int, l: Limits, cap: Option<nat>): Acct {
    var q := Swept(x, nonce, l);
    var end := RunEnd(q, Start(q, x.next));
    Acct(x.pending + Below(q, end), Capped(From(q, end), cap), end)
  }

  lemma CappedPart(m: TxMap, cap: Option<nat>)
    requires Keyed(m)
    ensures forall n :: n in Capped(m, cap) ==> n in m && Capped(m, cap)[n] == m[n]
    ensures Capped(m, cap) == m || (cap.Some? && |Capped(m, cap)| == cap.value)
    ensures forall n, k :: n in Capped(m, cap) && k in m && k !in Capped(m, cap) ==> n < k
  {
    if cap.Some? && cap.value <= |m| { FlatLowest(m, cap.value); }
    if cap.Some? && cap.value > |m| { LowestAll(m, cap.value); }
  }

  lemma CappedSize(m: TxMap, cap: nat)
    requires Keyed(m)
    ensures |Capped(m, Some(cap))| <= cap
  {
    if cap <= |m| { FlatLowest(m, cap); } else { LowestAll(m, cap); }
  }

  /** What a cap cuts off. */
  function Excess(m: TxMap, cap: Option<nat>): TxMap { map n | n in m && n !in Capped(m, cap) :: m[n] }

  /** Nothing that is swept is pending. */
  lemma SweptLoose(x: Acct, a: Address, nonce: int, l: Limits)
    requires Loose(x, a)
    ensures var q := Swept(x, nonce, l); Filed(q, a) && AllFit(q, l)
    ensures forall n :: n in Swept(x, nonce, l) ==>
              n in x.queue && n !in x.pending && nonce <= n && Swept(x, nonce, l)[n] == x.queue[n]
  {
    hide Fits;
  }

  /** Where everything in a promotion comes from. */
  lemma PromotedParts(x: Acct, a: Address, nonce: int, l: Limits, cap: Option<nat>)
    requires Filed(x.queue, a)
    ensures var y, q := Promoted(x, nonce, l, cap), Swept(x, nonce, l);
            && y.next == RunEnd(q, Start(q, x.next))
            && (forall n :: n in y.pending <==> n in x.pending || (n in q && n < y.next))
            && (forall n :: n in y.pending ==> y.pending[n] == if n in q && n < y.next then q[n] else x.pending[n])
            && (forall n :: n in y.queue ==> n in q && y.next < n && y.queue[n] == q[n])
  {
    hide Fits, RunEnd, Capped, Lowest, Start;
    var q := Swept(x, nonce, l);
    var e := RunEnd(q, Start(q, x.next));
    CappedPart(From(q, e), cap);
  }

  /** If nothing that can be executed is queued below the next nonce, the run starts there. */
  lemma StartsAtNext(x: Acct, a: Address, nonce: int, l: Limits)
    requires Loose(x, a) && forall n :: n in x.queue && n >= nonce ==> x.next <= n
    ensures Start(Swept(x, nonce, l), x.next) == x.next
  {
    hide Fits;
  }

  lemma PromotedNothing(x: Acct, nonce: int, l: Limits, cap: Option<nat>)
    requires x.queue == map[]
    ensures Promoted(x, nonce, l, cap) == x
  {
    hide Fits, RunEnd;
    var q := Swept(x, nonce, l);
    assert q == map[];
    RunEndUnique(q, x.next, x.next);
    CappedPart(map[], cap);
    assert Capped(map[], cap) == map[];
    assert x.pending + Below(q, x.next) == x.pending;
  }

  lemma PromotedLoose(x: Acct, a: Address, nonce: int, l: Limits, cap: Option<nat>)
    requires Loose(x, a)
    ensures Loose(Promoted(x, nonce, l, cap), a)
    ensures Promoted(x, nonce, l, cap).next !in Promoted(x, nonce, l, cap).queue
    ensures forall n :: n in x.pending ==> Holds(Promoted(x, nonce, l, cap).pending, x.pending[n])
  {
    hide Fits, RunEnd, Promoted, Swept, Start;
    SweptLoose(x, a, nonce, l);
    PromotedParts(x, a, nonce, l, cap);
  }

  /** Promotion puts an account in order if the new state only has left its queue to be looked at. */
  lemma PromotedSound(x: Acct, a: Address, nonce: int, l: Limits, cap: Option<nat>)
    requires Unswept(x, a, nonce, l)
    ensures Sound(Promoted(x, nonce, l, cap), a, nonce, l)
  {
    hide Fits, RunEnd, Promoted, Swept, Start;
    UnsweptIff(x, a, nonce, l);
    SweptLoose(x, a, nonce, l);
    StartsAtNext(x, a, nonce, l);
    PromotedParts(x, a, nonce, l, cap);
  }

  /** Otherwise it keeps it without gaps, and what is then queued fits. */
  lemma PromotedGapless(x: Acct, a: Address, nonce: int, l: Limits, cap: Option<nat>)
    requires Gapless(x, a, nonce)
    ensures var y := Promoted(x, nonce, l, cap);
            Gapless(y, a, nonce) && (y.next < nonce <==> x.next < nonce) && (x.next < nonce ==> y.next == x.next)
  {
    hide Fits, RunEnd, Promoted, Swept, Start;
    var q := Swept(x, nonce, l);
    UnsweptIff(x, a, nonce, l);
    SweptLoose(x, a, nonce, l);
    StartsAtNext(x, a, nonce, l);
    PromotedParts(x, a, nonce, l, cap);
    if x.next < nonce { RunEndUnique(q, x.next, x.next); }
  }

  /** The transactions that leave the pool in a promotion are the outdated, the unpayable and
      the excess part of the queue, and no others. */
  lemma PromotedDrops(x: Acct, a: Address, nonce: int, l: Limits, cap: Option<nat>, t: Tx)
    requires Loose(x, a)
    ensures var q := Swept(x, nonce, l);
            Carries(Promoted(x, nonce, l, cap), t)
            <==> Carries(x, t) && !Holds(Below(x.queue, nonce), t) && !Holds(Unpayable(From(x.queue, nonce), l), t)
                 && !Holds(Excess(From(q, RunEnd(q, Start(q, x.next))), cap), t)
  {
    hide Fits, RunEnd, Lowest, Capped, Start;
    var q := Swept(x, nonce, l);
    var end := RunEnd(q, Start(q, x.next));
    CappedPart(From(q, end), cap);
    var y := Promoted(x, nonce, l, cap);
    assert t.nonce in q ==> t.nonce !in x.pending;
    assert Holds(y.pending, t) <==> Holds(x.pending, t) || (Holds(q, t) && t.nonce < end);
    assert Holds(x.queue, t) <==>
             Holds(Below(x.queue, nonce), t) || Holds(Unpayable(From(x.queue, nonce), l), t) || Holds(q, t);
  }

  /** Promotion brings nothing in, and loses only what is outdated, unpayable, or beyond the cap. */
  lemma PromotedCarries(x: Acct, a: Address, nonce: int, l: Limits, cap: Option<nat>, t: Tx)
    requires Unswept(x, a, nonce, l)
    ensures var y := Promoted(x, nonce, l, cap);
            && (Carries(y, t) ==> Carries(x, t) && t.nonce >= nonce && Fits(t, l))
            && (Carries(x, t) && t.nonce >= nonce && Fits(t, l) ==>
                  Carries(y, t) || (cap.Some? && |y.queue| == cap.value && forall n :: n in y.queue ==> n < t.nonce))
  {
    hide Fits, RunEnd, Lowest, Capped, Start;
    var q := Swept(x, nonce, l);
    var end := RunEnd(q, Start(q, x.next));
    CappedPart(From(q, end), cap);
    var y := Promoted(x, nonce, l, cap);
    assert Holds(q, t) <==> Holds(x.queue, t) && t.nonce >= nonce && Fits(t, l);
    assert Holds(y.pending, t) <==> Holds(x.pending, t) || (Holds(q, t) && t.nonce < end);
  }

  // ---- equalising -----------------------------------------------------------------------------------------

  /** Keep the k pending transactions with the lowest nonces; the rest leaves the pool. */
  function CutPending(x: Acct, k: nat): Acct {
    var s := Flat(x.pending);
    if k < |s| then Acct(Lowest(x.pending, k), x.queue, if x.next > s[k].nonce then s[k].nonce else x.next) else x
  }

  /** Where the cut goes: below the first transaction that is dropped. */
  lemma CutParts(x: Acct, a: Address, k: nat)
    requires Filed(x.pending, a) && k < |x.pending|
    ensures |Flat(x.pending)| == |x.pending| && Holds(x.pending, Flat(x.pending)[k])
    ensures var y, n := CutPending(x, k), Flat(x.pending)[k].nonce;
            && y == Acct(Below(x.pending, n), x.queue, if x.next > n then n else x.next)
            && y.pending == Lowest(x.pending, k) && |y.pending| == k
  {
    FlatLists(x.pending);
    FlatLowest(x.pending, k);
    assert Flat(x.pending)[k] in Flat(x.pending);
  }

  lemma CutNothing(x: Acct, a: Address, k: nat)
    requires Filed(x.pending, a) && |x.pending| <= k
    ensures CutPending(x, k) == x
  {
    FlatLists(x.pending);
  }

  lemma CutLoose(x: Acct, a: Address, k: nat)
    requires Loose(x, a)
    ensures Loose(CutPending(x, k), a) && |CutPending(x, k).pending| == if k < |x.pending| then k else |x.pending|
    ensures CutPending(x, k).next in x.pending || CutPending(x, k).next == x.next
  {
    hide CutPending, Lowest, Flat;
    if k < |x.pending| { CutParts(x, a, k); } else { CutNothing(x, a, k); }
  }

  lemma CutSound(x: Acct, a: Address, nonce: int, l: Limits, k: nat)
    requires Sound(x, a, nonce, l)
    ensures Sound(CutPending(x, k), a, nonce, l)
  {
    hide CutPending, Lowest, Flat, Fits;
    if k < |x.pending| { CutParts(x, a, k); } else { CutNothing(x, a, k); }
  }

  lemma LastIsHighest(m: TxMap, n: int)
    requires Keyed(m) && n in m
    ensures |Flat(m)| == |m| && n <= Flat(m)[|m| - 1].nonce
  {
    FlatLists(m);
    assert Holds(m, m[n]) && m[n] in Flat(m);
  }

  /** Dropping the highest pending transaction. */
  lemma CutLast(x: Acct, a: Address)
    requires Loose(x, a) && |x.pending| >= 1
    ensures |Flat(x.pending)| == |x.pending|
    ensures var y, tx := CutPending(x, |x.pending| - 1), Flat(x.pending)[|x.pending| - 1];
            && Holds(x.pending, tx) && tx.sender == a
            && y == Acct(Lowest(x.pending, |x.pending| - 1), x.queue, if x.next > tx.nonce then tx.nonce else x.next)
            && forall t :: Carries(y, t) <==> Carries(x, t) && t != tx
  {
    hide CutPending, Lowest, Flat;
    var k := |x.pending| - 1;
    CutParts(x, a, k);
    var tx := Flat(x.pending)[k];
    forall n | n in x.pending ensures n <= tx.nonce { LastIsHighest(x.pending, n); }
    forall t ensures Carries(CutPending(x, k), t) <==> Carries(x, t) && t != tx {
      assert Holds(x.queue, t) ==> t.nonce !in x.pending;
    }
  }

  lemma CutTwice(x: Acct, a: Address, k: nat, j: nat)
    requires Filed(x.pending, a) && j <= k
    ensures CutPending(CutPending(x, k), j) == CutPending(x, j)
  {
    hide Lowest, Flat;
    FlatLists(x.pending);
    if j < k < |x.pending| {
      var y := CutPending(x, k);
      FlatLowest(x.pending, k);
      var s := Flat(x.pending);
      assert Flat(y.pending) == s[..k] && s[j].nonce < s[k].nonce;
      CutParts(x, a, j);
      CutParts(x, a, k);
      assert Filed(y.pending, a);
      CutParts(y, a, j);
      assert Below(Below(x.pending, s[k].nonce), s[j].nonce) == Below(x.pending, s[j].nonce);
    } else if k < |x.pending| {
      FlatLowest(x.pending, k);
      CutParts(x, a, k);
    }
  }

  // ---- a new chain state --------------------------------------------------------------------------------------

  function Highest(m: TxMap): int
    requires m != map[]
  {
    var s := Flat(m);
    if s == [] then 0 else s[|s| - 1].nonce
  }

  /** What demoting leaves of the account: mined transactions and unpayable ones are dropped, what
      followed an unpayable one returns to the queue, and so does everything if there is now a gap in
      front. The next nonce is set again where something is still pending. */
  function Demoted(x: Acct, nonce: int, l: Limits): Acct {
    var p := From(x.pending, nonce);
    var kept, stranded := Retained(p, true, l), Stranded(p, true, l);
    if kept == map[] then Acct(map[], x.queue + stranded, x.next)
    else if nonce !in kept then Acct(map[], x.queue + stranded + kept, x.next)
    else Acct(kept, x.queue + stranded, Highest(kept) + 1)
  }

  lemma HighestIs(m: TxMap, a: Address)
    requires Filed(m, a) && m != map[]
    ensures Highest(m) in m && forall n :: n in m ==> n <= Highest(m)
    ensures |Flat(m)| > 0 && Flat(m)[|Flat(m)| - 1].nonce == Highest(m)
  {
    FlatLists(m);
    var s := Flat(m);
    assert s[|s| - 1] in s;
    forall n | n in m ensures n <= Highest(m) { LastIsHighest(m, n); }
  }

  /** What is still pending of a gap-free list is gap-free, and what is put aside lies beyond it. */
  lemma DemotedParts(m: TxMap, a: Address, lo: int, hi: int, l: Limits)
    requires Filed(m, a) && Interval(m, lo, hi)
    ensures var kept, stranded := Retained(m, true, l), Stranded(m, true, l);
            && Filed(kept, a) && Filed(stranded, a) && AllFit(kept, l)
            && (kept != map[] ==> lo in kept && Interval(kept, lo, Highest(kept) + 1) && Highest(kept) < hi)
            && (forall n :: n in stranded ==> lo < n && (kept != map[] ==> Highest(kept) < n))
            && (AllFit(m, l) ==> kept == m) && (lo < hi && Fits(m[lo], l) ==> kept != map[])
  {
    hide Fits, Highest;
    FilterKeepsPrefix(m, l, lo, hi);
    var e, kept := PayableEnd(m, l, lo, hi), Retained(m, true, l);
    if lo < e {
      assert lo in kept;
      HighestIs(kept, a);
      assert e - 1 in kept;
    } else {
      assert forall n :: n !in kept;
    }
  }

  /** Exactly the mined and the unpayable pending transactions are gone. */
  lemma DemotedCarries(x: Acct, a: Address, nonce: int, l: Limits, t: Tx)
    requires Filed(x.pending, a) && Filed(x.queue, a) && forall n :: n in x.pending ==> n !in x.queue
    ensures Carries(Demoted(x, nonce, l), t)
            <==> Holds(x.queue, t) || (Holds(x.pending, t) && t.nonce >= nonce && Fits(t, l))
  {
    hide Fits, Blocked, Highest;
    var p := From(x.pending, nonce);
    assert Holds(p, t) && Fits(t, l) <==> Holds(Retained(p, true, l), t) || Holds(Stranded(p, true, l), t);
    assert t.nonce in x.queue ==> t.nonce !in p;
  }

  lemma DemotedNothing(x: Acct, nonce: int, l: Limits)
    requires x.pending == map[]
    ensures Demoted(x, nonce, l) == x
  {
    hide Fits, Blocked;
    var p := From(x.pending, nonce);
    assert p == map[] && Retained(p, true, l) == map[] && Stranded(p, true, l) == map[];
    assert x.queue + map[] == x.queue;
  }

  /** The same in terms of the lists that are dropped. */
  lemma DemotedDrops(x: Acct, a: Address, nonce: int, l: Limits, t: Tx)
    requires Filed(x.pending, a) && Filed(x.queue, a) && forall n :: n in x.pending ==> n !in x.queue
    ensures Carries(Demoted(x, nonce, l), t)
            <==> Carries(x, t) && !Holds(Below(x.pending, nonce), t) && !Holds(Unpayable(From(x.pending, nonce), l), t)
  {
    hide Fits, Demoted;
    DemotedCarries(x, a, nonce, l, t);
    assert t.nonce in x.queue ==> t.nonce !in x.pending;
  }

  /** A part of the pending list that is neither mined nor unpayable. */
  ghost predicate Survives(x: Acct, nonce: int, l: Limits, m: TxMap) {
    forall n :: n in m ==> Holds(x.pending, m[n]) && m[n].nonce == n && n >= nonce && Fits(m[n], l)
  }

  lemma SurvivingParts(x: Acct, a: Address, nonce: int, l: Limits)
    requires Filed(x.pending, a)
    ensures var p := From(x.pending, nonce);
            && Survives(x, nonce, l, Retained(p, true, l)) && Survives(x, nonce, l, Stranded(p, true, l))
            && forall n :: n in Retained(p, true, l) ==> n !in Stranded(p, true, l)
  {
    hide Fits, Blocked;
  }

  lemma SurvivorsKept(x: Acct, a: Address, nonce: int, l: Limits, m: TxMap)
    requires Filed(x.pending, a) && Filed(x.queue, a) && Survives(x, nonce, l, m)
    requires forall n :: n in x.pending ==> n !in x.queue
    ensures Filed(m, a)
    ensures forall n :: n in m ==> Carries(Demoted(x, nonce, l), m[n]) && n !in x.queue
  {
    hide Fits, Demoted;
    forall n | n in m ensures Carries(Demoted(x, nonce, l), m[n]) {
      DemotedCarries(x, a, nonce, l, m[n]);
    }
  }

  lemma DemotedLoose(x: Acct, a: Address, nonce: int, l: Limits)
    requires Loose(x, a)
    ensures Loose(Demoted(x, nonce, l), a)
  {
    hide Fits, Blocked, Highest;
  }
}
