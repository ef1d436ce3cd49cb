/** One account while transactions are reinjected: the chain state has changed already, and the
    pending lists are demoted only afterwards. Next nonces start again from the state's. */
module PoolResets {
  import opened Options
  import opened Transactions
  import opened AccountLists
  import opened PoolAccounts
  import opened PoolSteps

  /** Every pending transaction that the new state has mined is still pending. */
  ghost predicate MinedKept(x0: Acct, x: Acct, nonce: int) {
    forall n :: n in x0.pending && n < nonce ==> n in x.pending && x.pending[n] == x0.pending[n]
  }

  ghost predicate PayableUpTo(p: TxMap, nonce: int, l: Limits, m: int) {
    m in p && forall k :: k in p && nonce <= k <= m ==> Fits(p[k], l)
  }

  /** What is pending starts at the nonce, and beyond a missing one there is more, all payable up to there. */
  ghost predicate Torn(x: Acct, nonce: int, l: Limits) {
    nonce in x.pending && exists n, m :: nonce < n < m && n !in x.pending && PayableUpTo(x.pending, nonce, l, m)
  }

  /** The pending nonces from the account's own on: those before lo, and those from mid to before end. */
  datatype Runs = Runs(lo: int, mid: int, end: int)

  /** The next nonce is where the first run ends, or has fallen below the account's, and then nothing is
      pending from there on. What has been promoted is payable. */
  ghost predicate InRuns(x: Acct, a: Address, nonce: int, r: Runs, l: Limits) {
    && Loose(x, a) && nonce <= r.lo <= r.mid <= r.end
    && (forall n :: nonce <= n ==> (n in x.pending <==> n < r.lo || r.mid <= n < r.end))
    && (x.next == r.lo || (x.next < nonce && r.end == nonce))
    && (forall n :: n in x.pending && nonce <= n < r.lo ==> Fits(x.pending[n], l))
  }

  /** Mined transactions do not come in, and the next nonce falls exactly when one of them goes. */
  ghost predicate Remembers(x0: Acct, x: Acct, nonce: int) {
    && (forall n :: n in x.pending && n < nonce ==> n in x0.pending && x.pending[n] == x0.pending[n])
    && (nonce <= x.next <==> MinedKept(x0, x, nonce))
  }

  /** The account on its way from x0, under a new nonce. */
  ghost predicate Between(x0: Acct, x: Acct, a: Address, nonce: int, r: Runs, l: Limits) {
    InRuns(x, a, nonce, r, l) && Remembers(x0, x, nonce)
  }

  lemma BetweenStart(x: Acct, a: Address, nonce0: int, nonce: int, l: Limits) returns (r: Runs)
    requires Gapless(x, a, nonce0)
    ensures Between(x, x.(next := nonce), a, nonce, r, l) && r.lo == nonce && (nonce0 <= nonce ==> r.mid == nonce)
  {
    hide Fits;
    var top := Top(x, nonce0);
    r := if nonce < nonce0 then Runs(nonce, nonce0, top) else Runs(nonce, nonce, if nonce < top then top else nonce);
  }

  lemma SubmitBetween(x0: Acct, x: Acct, a: Address, nonce: int, r: Runs, l: Limits, tx: Tx)
    requires Between(x0, x, a, nonce, r, l) && tx.sender == a && nonce <= tx.nonce && Fits(tx, l)
    ensures Between(x0, Submitted(x, tx), a, nonce, r, l)
  {
    hide Fits;
  }

  /** Where the runs end when everything from n on goes. */
  function CutRuns(r: Runs, nonce: int, n: int): Runs {
    if n < nonce then Runs(nonce, nonce, nonce) else if n < r.lo then Runs(n, n, n) else Runs(r.lo, r.mid, n)
  }

  lemma EvictRuns(x: Acct, a: Address, nonce: int, r: Runs, l: Limits, n: int)
    requires InRuns(x, a, nonce, r, l)
    ensures InRuns(Without(x, n), a, nonce, if n in x.pending then CutRuns(r, nonce, n) else r, l)
  {
    hide Fits;
  }

  lemma EvictBetween(x0: Acct, x: Acct, a: Address, nonce: int, r: Runs, l: Limits, n: int)
    requires Between(x0, x, a, nonce, r, l)
    ensures Between(x0, Without(x, n), a, nonce, if n in x.pending then CutRuns(r, nonce, n) else r, l)
  {
    hide InRuns;
    EvictRuns(x, a, nonce, r, l, n);
    if n in x.pending && n < nonce { assert n in x0.pending && n !in Without(x, n).pending; }
    assert n in x.pending && nonce <= n ==> (nonce <= x.next <==> nonce <= Without(x, n).next);
  }

  lemma CutBetween(x0: Acct, x: Acct, a: Address, nonce: int, r: Runs, l: Limits, k: nat) returns (r': Runs)
    requires Between(x0, x, a, nonce, r, l)
    ensures Between(x0, CutPending(x, k), a, nonce, r', l) && (r.lo == r.mid ==> r'.lo == r'.mid)
  {
    hide Fits, CutPending, Lowest, Flat;
    if k < |x.pending| {
      CutParts(x, a, k);
      var n := Flat(x.pending)[k].nonce;
      r' := CutRuns(r, nonce, n);
      if n < nonce { assert n in x0.pending && n !in CutPending(x, k).pending; }
    } else {
      CutNothing(x, a, k);
      r' := r;
    }
  }

  lemma PromoteRuns(x: Acct, a: Address, nonce: int, r: Runs, l: Limits, cap: Option<nat>) returns (r': Runs)
    requires InRuns(x, a, nonce, r, l)
    ensures var y := Promoted(x, nonce, l, cap);
            && InRuns(y, a, nonce, r', l) && (r.lo == r.mid ==> r'.lo == r'.mid) && (y.next < nonce <==> x.next < nonce)
            && forall n :: n < nonce ==>
                 (n in y.pending <==> n in x.pending) && (n in x.pending ==> y.pending[n] == x.pending[n])
  {
    hide Fits, RunEnd, Promoted, Swept, Start;
    var q, y := Swept(x, nonce, l), Promoted(x, nonce, l, cap);
    SweptLoose(x, a, nonce, l);
    StartsAtNext(x, a, nonce, l);
    PromotedLoose(x, a, nonce, l, cap);
    PromotedParts(x, a, nonce, l, cap);
    if x.next < nonce {
      RunEndUnique(q, x.next, x.next);
      r' := r;
    } else if r.mid < r.end {
      assert r.mid !in q;
      r' := r.(lo := y.next);
    } else {
      r' := Runs(y.next, y.next, y.next);
    }
  }

  lemma PromoteBetween(x0: Acct, x: Acct, a: Address, nonce: int, r: Runs, l: Limits, cap: Option<nat>)
    returns (r': Runs)
    requires Between(x0, x, a, nonce, r, l)
    ensures Between(x0, Promoted(x, nonce, l, cap), a, nonce, r', l) && (r.lo == r.mid ==> r'.lo == r'.mid)
  {
    hide InRuns, Promoted;
    r' := PromoteRuns(x, a, nonce, r, l, cap);
  }

  lemma TrimBetween(x0: Acct, x: Acct, a: Address, nonce: int, r: Runs, l: Limits, k: nat)
    requires Between(x0, x, a, nonce, r, l)
    ensures Between(x0, x.(queue := Lowest(x.queue, k)), a, nonce, r, l)
  {
    hide Fits, Lowest;
    LowestIsPart(x.queue, a, k);
  }

  /** Every step keeps the account in that state, and opens no gap. */
  lemma StepBetween(x0: Acct, x: Acct, a: Address, nonce: int, r: Runs, l: Limits, step: Step) returns (r': Runs)
    requires Between(x0, x, a, nonce, r, l) && Possible(a, nonce, l, step)
    ensures Between(x0, Do(x, nonce, l, step), a, nonce, r', l) && (r.lo == r.mid ==> r'.lo == r'.mid)
  {
    hide Fits, Between, Submitted, Promoted, Without, CutPending, Lowest;
    r' := r;
    match step {
      case Submit(tx) => SubmitBetween(x0, x, a, nonce, r, l, tx);
      case Evict(n) =>
        EvictBetween(x0, x, a, nonce, r, l, n);
        r' := if n in x.pending then CutRuns(r, nonce, n) else r;
      case Promote(cap) => r' := PromoteBetween(x0, x, a, nonce, r, l, cap);
      case Cut(kept) => r' := CutBetween(x0, x, a, nonce, r, l, kept);
      case Trim(kept) => TrimBetween(x0, x, a, nonce, r, l, kept);
    }
  }

  lemma {:induction false} StepsBetween(x0: Acct, x: Acct, a: Address, nonce: int, r: Runs, l: Limits, steps: seq<Step>)
    returns (r': Runs)
    requires Between(x0, x, a, nonce, r, l) && AllPossible(a, nonce, l, steps)
    ensures Between(x0, DoAll(x, nonce, l, steps), a, nonce, r', l) && (r.lo == r.mid ==> r'.lo == r'.mid)
    decreases |steps|
  {
    hide Between, Do, Possible;
    r' := r;
    if steps != [] {
      r' := StepBetween(x0, x, a, nonce, r, l, steps[0]);
      r' := StepsBetween(x0, Do(x, nonce, l, steps[0]), a, nonce, r', l, steps[1..]);
    }
  }

  /** A list is torn exactly if the second run is apart from the first and begins with a payable transaction. */
  lemma TornIff(x: Acct, a: Address, nonce: int, r: Runs, l: Limits)
    requires InRuns(x, a, nonce, r, l)
    ensures Torn(x, nonce, l) <==> nonce < r.lo < r.mid < r.end && Fits(x.pending[r.mid], l)
  {
    hide Fits;
    if Torn(x, nonce, l) {
      var n, m :| nonce < n < m && n !in x.pending && PayableUpTo(x.pending, nonce, l, m);
      assert r.lo <= n < r.mid <= m < r.end;
    }
    if nonce < r.lo < r.mid < r.end && Fits(x.pending[r.mid], l) {
      assert PayableUpTo(x.pending, nonce, l, r.mid) && r.lo !in x.pending;
    }
  }

  /** If the second run begins with an unpayable transaction, the first run is what stays pending. */
  lemma SeveredParts(p: TxMap, a: Address, nonce: int, r: Runs, l: Limits)
    requires Filed(p, a) && nonce < r.lo < r.mid < r.end && !(r.mid in p && Fits(p[r.mid], l))
    requires forall n :: n in p <==> nonce <= n < r.lo || r.mid <= n < r.end
    requires forall n :: n in p && n < r.lo ==> Fits(p[n], l)
    ensures var kept, stranded := Retained(p, true, l), Stranded(p, true, l);
            && Filed(kept, a) && Filed(stranded, a) && AllFit(kept, l)
            && Interval(kept, nonce, r.lo) && nonce in kept && Highest(kept) + 1 == r.lo
            && (forall n :: n in stranded ==> r.mid < n)
  {
    hide Fits, Highest;
    assert forall n :: n in p && n > r.mid ==> Blocked(p, l, n);
    var kept := Retained(p, true, l);
    assert Interval(kept, nonce, r.lo);
    assert nonce in kept && r.lo - 1 in kept;
    HighestIs(kept, a);
  }

  /** What stays pending of a list that is not torn: a run from the nonce on, and nothing if the second run
      is all there is; what is put aside lies beyond it. */
  lemma UntornParts(x: Acct, a: Address, nonce: int, r: Runs, l: Limits)
    requires InRuns(x, a, nonce, r, l) && !Torn(x, nonce, l)
    ensures var p := From(x.pending, nonce);
            var kept, stranded := Retained(p, true, l), Stranded(p, true, l);
            && Filed(kept, a) && Filed(stranded, a) && AllFit(kept, l)
            && (nonce < r.lo ==> nonce in kept)
            && (nonce in kept ==> Interval(kept, nonce, Highest(kept) + 1) && Highest(kept) < r.end
                                  && (r.lo < r.mid ==> Highest(kept) < r.lo))
            && (forall n :: n in stranded ==> nonce < n && (nonce in kept ==> Highest(kept) < n))
  {
    hide Fits, Blocked, Highest, Retained, Stranded, Torn;
    TornIff(x, a, nonce, r, l);
    var p := From(x.pending, nonce);
    if r.lo == nonce {
      DemotedParts(p, a, r.mid, r.end, l);
    } else if r.lo == r.mid || r.mid == r.end {
      DemotedParts(p, a, nonce, if r.lo == r.mid then r.end else r.lo, l);
    } else {
      SeveredParts(p, a, nonce, r, l);
    }
  }

  /** The demotion of a list that is not torn leaves no gap, and puts the account in order, but for its
      queue, if and only if the next nonce has not fallen. */
  lemma DemotionSettles(x: Acct, a: Address, nonce: int, r: Runs, l: Limits)
    requires InRuns(x, a, nonce, r, l) && !Torn(x, nonce, l)
    ensures var y := Demoted(x, nonce, l);
            Gapless(y, a, nonce) && AllFit(y.pending, l) && (nonce <= y.next <==> nonce <= x.next)
  {
    hide Fits, Highest, Retained, Stranded, Torn;
    UntornParts(x, a, nonce, r, l);
  }

  /** The demotion of a torn list leaves the gap in the middle. */
  lemma DemotionLeavesGap(x: Acct, a: Address, nonce: int, r: Runs, l: Limits)
    requires InRuns(x, a, nonce, r, l) && Torn(x, nonce, l)
    ensures var y := Demoted(x, nonce, l);
            nonce in y.pending && r.lo !in y.pending && r.mid in y.pending && nonce < r.lo < r.mid && r.mid < y.next
  {
    hide Fits, Highest, Torn;
    TornIff(x, a, nonce, r, l);
    var p := From(x.pending, nonce);
    var kept := Retained(p, true, l);
    assert !Blocked(p, l, nonce) && !Blocked(p, l, r.mid);
    assert nonce in kept && r.mid in kept;
    assert Filed(kept, a);
    HighestIs(kept, a);
  }

  /** Promotion cannot close it: where it fills the gap, the next nonce is then too low. */
  lemma PromotedGapped(y: Acct, a: Address, nonce: int, l: Limits, cap: Option<nat>, n: int, m: int)
    requires Loose(y, a) && nonce < n < m < y.next && n !in y.pending && m in y.pending
    ensures !Gapless(Promoted(y, nonce, l, cap), a, nonce)
  {
    hide Fits, RunEnd, Promoted, Swept;
    var q, z := Swept(y, nonce, l), Promoted(y, nonce, l, cap);
    SweptLoose(y, a, nonce, l);
    PromotedParts(y, a, nonce, l, cap);
    assert m in z.pending && m !in q;
  }

  lemma SoundIsGapless(x: Acct, a: Address, nonce: int, l: Limits)
    requires Sound(x, a, nonce, l)
    ensures Gapless(x, a, nonce)
  {
    SoundIsUnswept(x, a, nonce, l);
    UnsweptIff(x, a, nonce, l);
  }

  lemma SoundNext(x: Acct, a: Address, nonce: int, l: Limits)
    requires Sound(x, a, nonce, l)
    ensures nonce <= x.next
  {}

  /** A demoted and promoted list has no gap if and only if it was not torn, and is then in order if and only if
      every mined transaction had been kept. */
  lemma SettledIff(x0: Acct, x: Acct, a: Address, nonce: int, r: Runs, l: Limits, cap: Option<nat>)
    requires Between(x0, x, a, nonce, r, l)
    ensures var z := Promoted(Demoted(x, nonce, l), nonce, l, cap);
            && (Gapless(z, a, nonce) <==> !Torn(x, nonce, l))
            && (Sound(z, a, nonce, l) <==> MinedKept(x0, x, nonce) && !Torn(x, nonce, l))
            && (Gapless(z, a, nonce) && !Sound(z, a, nonce, l) ==> z.next < nonce)
  {
    hide Fits, Demoted, Promoted, Torn, Loose, Gapless, Sound, Unswept;
    var y := Demoted(x, nonce, l);
    var z := Promoted(y, nonce, l, cap);
    if Sound(z, a, nonce, l) { SoundIsGapless(z, a, nonce, l); }
    if Torn(x, nonce, l) {
      DemotionLeavesGap(x, a, nonce, r, l);
      DemotedLoose(x, a, nonce, l);
      PromotedGapped(y, a, nonce, l, cap, r.lo, r.mid);
    } else {
      DemotionSettles(x, a, nonce, r, l);
      PromotedGapless(y, a, nonce, l, cap);
      if nonce <= y.next {
        UnsweptIff(y, a, nonce, l);
        PromotedSound(y, a, nonce, l, cap);
      } else if Sound(z, a, nonce, l) {
        SoundNext(z, a, nonce, l);
      }
    }
  }

  lemma BetweenInRuns(x0: Acct, x: Acct, a: Address, nonce: int, r: Runs, l: Limits)
    requires Between(x0, x, a, nonce, r, l)
    ensures InRuns(x, a, nonce, r, l)
  {}

  /** An account without gaps, whatever a new chain state and the adding of reinjected transactions do to it: after
      the reset it has no gap if and only if its list was not torn when it was demoted, and it is in order if and
      only if, besides, every transaction that the new state has mined was still pending. A list can only be torn
      if the nonce has gone down and something was reinjected. */
  lemma ResetSoundIff(x0: Acct, x: Acct, a: Address, nonce0: int, nonce: int, l: Limits, cap: Option<nat>)
    requires Gapless(x0, a, nonce0) && Course(x0.(next := nonce), x, a, nonce, l)
    ensures var z := Promoted(Demoted(x, nonce, l), nonce, l, cap);
            && (Gapless(z, a, nonce) <==> !Torn(x, nonce, l))
            && (Sound(z, a, nonce, l) <==> MinedKept(x0, x, nonce) && !Torn(x, nonce, l))
            && (Gapless(z, a, nonce) && !Sound(z, a, nonce, l) ==> z.next < nonce)
    ensures nonce0 <= nonce || x == x0.(next := nonce) ==> !Torn(x, nonce, l)
    ensures x == x0.(next := nonce) ==> MinedKept(x0, x, nonce)
  {
    hide Fits, Demoted, DoAll, Promoted, Torn, Between, InRuns, Gapless;
    var r0 := BetweenStart(x0, a, nonce0, nonce, l);
    var steps :| AllPossible(a, nonce, l, steps) && x == DoAll(x0.(next := nonce), nonce, l, steps);
    var r := StepsBetween(x0, x0.(next := nonce), a, nonce, r0, l, steps);
    SettledIff(x0, x, a, nonce, r, l, cap);
    BetweenInRuns(x0, x, a, nonce, r, l);
    TornIff(x, a, nonce, r, l);
    if x == x0.(next := nonce) {
      BetweenInRuns(x0, x, a, nonce, r0, l);
      TornIff(x, a, nonce, r0, l);
    }
  }
}
