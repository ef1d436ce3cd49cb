/** What pool operations decide, and what they do to the pool's tables taken as values. */
module PoolBooks {
  import opened Options
  import opened Sequences
  import opened Sets
  import opened Transactions
  import opened AccountLists
  import opened PoolAccounts
  import opened PoolSteps
  import opened PoolResets
  import opened PoolViews
  import opened Fairness
  import opened Pricing
  import Gas

  datatype Config = Config(priceBump: nat, accountSlots: nat, globalSlots: nat, accountQueue: nat, globalQueue: nat,
                           lifetime: int)

  function Capacity(c: Config): nat { c.globalSlots + c.globalQueue }

  datatype AddError = AlreadyKnown | OversizedData | NegativeValue | ExceedsGasLimit | InvalidSender | Underpriced
                    | NonceTooLow | InsufficientFunds | InsufficientMinFunds | InsufficientPower
                    | IntrinsicOverflow | IntrinsicGas | ReplaceUnderpriced

  datatype AddResult = Added(replaced: Option<Tx>) | Rejected(error: AddError)

  const MAX_TX_SIZE: nat := 32 * 1024
  const MIN_BALANCE: nat := 10_000_000_000_000_000

  // ---- what is let in ---------------------------------------------------------------------------

  /** What a transaction must satisfy to be let in, whatever the pool holds. */
  ghost predicate Admissible(chain: ChainState, floor: int, locals: set<Address>, tx: Tx, local: bool) {
    && tx.size <= MAX_TX_SIZE && tx.value >= 0 && tx.signed
    && (local || tx.sender in locals || floor <= tx.price)
    && chain.Nonce(tx.sender) <= tx.nonce && Fits(tx, chain.LimitsOf(tx.sender))
    && MIN_BALANCE <= chain.Balance(tx.sender)
    && Gas.IntrinsicCost(tx.data, tx.creation, chain.homestead) <= tx.gas
  }

  /** The first thing that is wrong with a transaction. */
  ghost function Objection(chain: ChainState, floor: int, locals: set<Address>, tx: Tx, local: bool): Option<AddError> {
    var cost := Gas.IntrinsicCost(tx.data, tx.creation, chain.homestead);
    if tx.size > MAX_TX_SIZE then Some(OversizedData)
    else if tx.value < 0 then Some(NegativeValue)
    else if chain.gasLimit < tx.gas then Some(ExceedsGasLimit)
    else if !tx.signed then Some(InvalidSender)
    else if !local && tx.sender !in locals && tx.price < floor then Some(Underpriced)
    else if tx.nonce < chain.Nonce(tx.sender) then Some(NonceTooLow)
    else if chain.Balance(tx.sender) < tx.value then Some(InsufficientFunds)
    else if chain.Balance(tx.sender) < MIN_BALANCE then Some(InsufficientMinFunds)
    else if chain.Power(tx.sender) < tx.Cost() then Some(InsufficientPower)
    else if cost > Gas.MAX_UINT64 then Some(IntrinsicOverflow)
    else if tx.gas < cost then Some(IntrinsicGas)
    else None
  }

  lemma NoObjection(chain: ChainState, floor: int, locals: set<Address>, tx: Tx, local: bool)
    requires tx.gas <= Gas.MAX_UINT64
    ensures Objection(chain, floor, locals, tx, local).None? <==> Admissible(chain, floor, locals, tx, local)
  {}

  /** The place of a check in the order of the checks. */
  function CheckNumber(e: AddError): nat {
    match e
    case AlreadyKnown => 0
    case OversizedData => 1
    case NegativeValue => 2
    case ExceedsGasLimit => 3
    case InvalidSender => 4
    case Underpriced => 5
    case NonceTooLow => 6
    case InsufficientFunds => 7
    case InsufficientMinFunds => 8
    case InsufficientPower => 9
    case IntrinsicOverflow => 10
    case IntrinsicGas => 11
    case ReplaceUnderpriced => 12
  }

  predicate CheckedBefore(e: AddError, f: AddError) { CheckNumber(e) < CheckNumber(f) }

  /** What is wrong with a transaction, if something is. */
  ghost predicate Flawed(chain: ChainState, floor: int, locals: set<Address>, tx: Tx, local: bool, error: AddError) {
    match error
    case OversizedData => tx.size > 32768
    case NegativeValue => tx.value < 0
    case ExceedsGasLimit => tx.gas > chain.gasLimit
    case InvalidSender => !tx.signed
    case Underpriced => !local && tx.sender !in locals && tx.price < floor
    case NonceTooLow => tx.nonce < chain.Nonce(tx.sender)
    case InsufficientFunds => chain.Balance(tx.sender) < tx.value
    case InsufficientMinFunds => chain.Balance(tx.sender) < 10_000_000_000_000_000
    case InsufficientPower => chain.Power(tx.sender) < tx.price * tx.gas
    case IntrinsicOverflow => Gas.IntrinsicCost(tx.data, tx.creation, chain.homestead) >= 0x1_0000_0000_0000_0000
    case IntrinsicGas => tx.gas < Gas.IntrinsicCost(tx.data, tx.creation, chain.homestead)
    case _ => false
  }

  /** An objection names something that is wrong, and nothing that is checked before it is; none is made if and only if
      nothing is wrong. */
  lemma ObjectionIsFlaw(chain: ChainState, floor: int, locals: set<Address>, tx: Tx, local: bool)
    ensures var r := Objection(chain, floor, locals, tx, local);
            && (r.Some? ==> Flawed(chain, floor, locals, tx, local, r.value))
            && (r.None? ==> forall e :: !Flawed(chain, floor, locals, tx, local, e))
            && (r.Some? ==> forall e :: CheckedBefore(e, r.value) ==> !Flawed(chain, floor, locals, tx, local, e))
  {
    hide Gas.IntrinsicCost;
  }

  lemma NotItsPrice(chain: ChainState, floor: int, locals: set<Address>, tx: Tx, local: bool)
    ensures Objection(chain, floor, locals, tx, local) != Some(ReplaceUnderpriced)
  {}

  lemma AdmissibleFits(chain: ChainState, floor: int, locals: set<Address>, tx: Tx, local: bool)
    requires tx.gas <= Gas.MAX_UINT64 && Objection(chain, floor, locals, tx, local).None?
    ensures chain.Nonce(tx.sender) <= tx.nonce && Fits(tx, chain.LimitsOf(tx.sender))
  {}

  function SetOf(o: Option<Tx>): set<Tx> { if o.Some? then {o.value} else {} }

  /** What is dropped is remote, and no remote transaction that stays is cheaper, or as cheap with a higher nonce. */
  ghost predicate Cheapest(dropped: set<Tx>, known: set<Tx>, locals: set<Address>) {
    && (forall t :: t in dropped ==> t in known && t.sender !in locals)
    && (forall d, t :: d in dropped && t in known && t.sender !in locals && t !in dropped ==>
          d.price < t.price || (d.price == t.price && d.nonce >= t.nonce))
  }

  /** Of one sender's transactions at one price, those that stay have the lower nonces. */
  lemma CheapestFromTop(v: View, dropped: set<Tx>, known: set<Tx>, locals: set<Address>, d: Tx, t: Tx)
    requires Consistent(v, known) && Cheapest(dropped, known, locals) && d in dropped && t in known - dropped
    requires t.sender == d.sender && t.price == d.price
    ensures t.nonce < d.nonce
  {
    hide Loose;
    assert v.LooseAt(d.sender) && Carries(v.At(d.sender), d) && Carries(v.At(t.sender), t);
    OnePlace(v.At(d.sender), d.sender, d);
  }

  lemma NothingDropped(known: set<Tx>, locals: set<Address>)
    ensures Cheapest({}, known, locals)
  {}

  lemma CheapestKnown(dropped: set<Tx>, known: set<Tx>, locals: set<Address>)
    requires Cheapest(dropped, known, locals)
    ensures dropped <= known
  {}

  ghost predicate OnlyLocal(known: set<Tx>, locals: set<Address>) { forall t :: t in known ==> t.sender in locals }

  /** Whether the pool is full and tx, a remote transaction, is no better than anything in it. */
  ghost predicate TooCheap(known: set<Tx>, locals: set<Address>, capacity: nat, tx: Tx, local: bool) {
    && |known| >= capacity && !local && tx.sender !in locals
    && known != {} && forall t :: t in known ==> tx.price <= t.price
  }

  predicate SamePlace(o: Tx, tx: Tx) { o.sender == tx.sender && o.nonce == tx.nonce }

  /** Some known transaction has the place of tx, and tx does not outbid it. */
  ghost predicate Rivalled(known: set<Tx>, tx: Tx, bump: nat) {
    exists o :: o in known && SamePlace(o, tx) && !Outbids(tx, o, bump)
  }

  /** Where there is room, tx takes its place unless it is held by one that it does not outbid. */
  ghost predicate Placement(known: set<Tx>, bump: nat, tx: Tx, r: AddResult) {
    && (r == Rejected(ReplaceUnderpriced) <==> Rivalled(known, tx, bump))
    && (r.Rejected? ==> r.error == ReplaceUnderpriced)
    && (r.Added? && r.replaced.Some? ==> r.replaced.value in known && SamePlace(r.replaced.value, tx))
    && (r.Added? && r.replaced.None? ==> forall o :: o in known ==> !SamePlace(o, tx))
  }

  /** What becomes of tx, and what is dropped to make room for it. */
  ghost predicate Verdict(known: set<Tx>, locals: set<Address>, c: Config, tx: Tx, local: bool,
                          objection: Option<AddError>, r: AddResult, dropped: set<Tx>)
  {
    if tx in known then r == Rejected(AlreadyKnown) && dropped == {}
    else if objection.Some? then r == Rejected(objection.value) && dropped == {}
    else if TooCheap(known, locals, Capacity(c), tx, local) then r == Rejected(Underpriced) && dropped == {}
    else
      && Cheapest(dropped, known, locals)
      && (dropped == {} <==> |known| < Capacity(c) || OnlyLocal(known, locals))
      && (dropped != {} ==> |dropped| <= |known| + 1 - Capacity(c))
      && Placement(known - dropped, c.priceBump, tx, r)
  }

  /** Who wins a place that is taken, in prices. */
  lemma PricesDecide(v: View, known: set<Tx>, locals: set<Address>, c: Config, tx: Tx, local: bool,
                     objection: Option<AddError>, r: AddResult, dropped: set<Tx>)
    requires Consistent(v, known) && Verdict(known, locals, c, tx, local, objection, r, dropped)
    requires objection != Some(ReplaceUnderpriced) && (r.Added? || r == Rejected(ReplaceUnderpriced))
    ensures forall o :: o in known - dropped && o.sender == tx.sender && o.nonce == tx.nonce ==>
              r == if o.price < tx.price && o.price * (100 + c.priceBump) <= 100 * tx.price + 99 then Added(Some(o))
                   else Rejected(ReplaceUnderpriced)
  {
    hide Loose, Cheapest, TooCheap, OnlyLocal;
    forall o | o in known - dropped && o.sender == tx.sender && o.nonce == tx.nonce
      ensures r == if o.price < tx.price && o.price * (100 + c.priceBump) <= 100 * tx.price + 99 then Added(Some(o))
                   else Rejected(ReplaceUnderpriced)
    {
      assert SamePlace(o, tx) && v.LooseAt(o.sender) && Carries(v.At(o.sender), o);
      OnePlace(v.At(o.sender), o.sender, o);
      forall u | u in known && SamePlace(u, tx) ensures u == o { assert Carries(v.At(u.sender), u); }
      var kept := known - dropped;
      if Rivalled(kept, tx, c.priceBump) { var u :| u in kept && SamePlace(u, tx) && !Outbids(tx, u, c.priceBump); }
    }
  }

  function After(known: set<Tx>, tx: Tx, r: AddResult, dropped: set<Tx>): set<Tx> {
    if r.Added? then known - dropped - SetOf(r.replaced) + {tx} else known - dropped
  }

  /** An insertion as its account sees it. */
  ghost predicate Placed(v: View, w: View, tx: Tx, r: AddResult) {
    if r.Added? then SameBut(v, w, tx.sender) && w.At(tx.sender) == Submitted(v.At(tx.sender), tx) else w == v
  }

  /** The sender of a transaction that goes in as a local one is local from then on, unless it replaces a pending
      transaction. */
  ghost predicate Marked(v: View, locals: set<Address>, locals': set<Address>, tx: Tx, local: bool, r: AddResult) {
    locals' == if local && r.Added? && tx.nonce !in ListOf(v.pending, tx.sender) then locals + {tx.sender} else locals
  }

  lemma MarkedNot(v: View, locals: set<Address>, tx: Tx, local: bool, r: AddResult)
    requires r.Rejected?
    ensures Marked(v, locals, locals, tx, local, r)
  {}

  /** The pool before and after each transaction of a batch. */
  datatype Stage = Stage(view: View, known: set<Tx>, locals: set<Address>, entries: Ledger)

  datatype Batch = Batch(stages: seq<Stage>, drops: seq<set<Tx>>)

  ghost predicate Staged(s: Stage, s': Stage, dropped: set<Tx>, tx: Tx, r: AddResult, c: Config, floor: int,
                         local: bool) {
    && Verdict(s.known, s.locals, c, tx, local, Objection(s.view.chain, floor, s.locals, tx, local), r, dropped)
    && s'.known == After(s.known, tx, r, dropped) && (dropped == {} ==> Placed(s.view, s'.view, tx, r))
    && (s'.locals == s.locals || (local && r.Added? && s'.locals == s.locals + {tx.sender}))
    && (local && r == Added(None) ==> s'.locals == s.locals + {tx.sender})
    && (dropped == {} ==> Marked(s.view, s.locals, s'.locals, tx, local, r))
    && Booked(s.entries, s'.entries, tx, r.Added?, dropped)
  }

  ghost predicate StageAt(b: Batch, txs: seq<Tx>, results: seq<AddResult>, c: Config, floor: int, local: bool, i: int)
    requires |b.stages| == |txs| + 1 && |b.drops| == |results| == |txs| && 0 <= i < |txs|
  {
    Staged(b.stages[i], b.stages[i + 1], b.drops[i], txs[i], results[i], c, floor, local)
  }

  /** The transactions of a batch were decided upon one after the other. */
  ghost predicate Batched(b: Batch, txs: seq<Tx>, results: seq<AddResult>, c: Config, floor: int, local: bool) {
    && |b.stages| == |txs| + 1 && |b.drops| == |results| == |txs|
    && forall i :: 0 <= i < |txs| ==> StageAt(b, txs, results, c, floor, local, i)
  }

  lemma BatchedNone(s: Stage, c: Config, floor: int, local: bool)
    ensures Batched(Batch([s], []), [], [], c, floor, local)
  {}

  lemma BatchedStep(b: Batch, txs: seq<Tx>, results: seq<AddResult>, c: Config, floor: int, local: bool,
                    tx: Tx, r: AddResult, dropped: set<Tx>, s: Stage)
    requires Batched(b, txs, results, c, floor, local)
    requires Staged(b.stages[|txs|], s, dropped, tx, r, c, floor, local)
    ensures Batched(Batch(b.stages + [s], b.drops + [dropped]), txs + [tx], results + [r], c, floor, local)
  {
    hide Staged;
    var b' := Batch(b.stages + [s], b.drops + [dropped]);
    forall i | 0 <= i < |txs| + 1 ensures StageAt(b', txs + [tx], results + [r], c, floor, local, i) {
      if i < |txs| { assert StageAt(b, txs, results, c, floor, local, i); }
    }
  }

  /** No transaction of the batch went in while it had a price entry. */
  ghost predicate Clean(b: Batch, txs: seq<Tx>, results: seq<AddResult>)
    requires |b.stages| == |txs| + 1 && |b.drops| == |results| == |txs|
  {
    forall i :: 0 <= i < |txs| && results[i].Added? ==> txs[i] !in b.stages[i].entries.items
  }

  /** No transaction that was dropped for its price had two entries. */
  ghost predicate Thrifty(b: Batch)
    requires |b.stages| == |b.drops| + 1
  {
    forall i :: 0 <= i < |b.drops| ==> Single(b.stages[i].entries.items, b.drops[i])
  }

  /** What a batch does to the price heap. */
  ghost predicate BatchBooked(a: Ledger, e: Ledger, b: Batch, txs: seq<Tx>, results: seq<AddResult>)
    requires |b.stages| == |txs| + 1 && |b.drops| == |results| == |txs|
  {
    && Follows(a, e, txs) && (Clean(b, txs, results) ==> e.doubled == a.doubled)
    && (Thrifty(b) ==> e.lost <= a.lost)
  }

  lemma {:induction false} BatchEntries(b: Batch, txs: seq<Tx>, results: seq<AddResult>, c: Config, floor: int,
                                        local: bool, n: nat)
    requires Batched(b, txs, results, c, floor, local) && n <= |txs|
    ensures Follows(b.stages[0].entries, b.stages[n].entries, txs[..n])
    ensures Clean(b, txs, results) ==> b.stages[n].entries.doubled == b.stages[0].entries.doubled
    ensures Thrifty(b) ==> b.stages[n].entries.lost <= b.stages[0].entries.lost
  {
    hide Follows, Single, Verdict, After, Placed, Marked, Objection;
    if n == 0 {
      ThinsAsIs(b.stages[0].entries);
      assert txs[..0] == [];
    } else {
      BatchEntries(b, txs, results, c, floor, local, n - 1);
      assert StageAt(b, txs, results, c, floor, local, n - 1);
      assert txs[..n] == txs[..n - 1] + [txs[n - 1]];
      FollowsTwice(b.stages[0].entries, b.stages[n - 1].entries, b.stages[n].entries, txs[..n - 1], [txs[n - 1]]);
    }
  }

  /** A batch, and then entries only go. */
  lemma BatchThins(b: Batch, txs: seq<Tx>, results: seq<AddResult>, c: Config, floor: int, local: bool, e: Ledger)
    requires Batched(b, txs, results, c, floor, local) && Thins(b.stages[|txs|].entries, e)
    ensures |b.stages| == |txs| + 1 && |b.drops| == |results| == |txs|
    ensures BatchBooked(b.stages[0].entries, e, b, txs, results)
  {
    hide Follows, Clean, Thrifty, Staged;
    BatchEntries(b, txs, results, c, floor, local, |txs|);
    assert txs[..|txs|] == txs;
    FollowsOn(b.stages[0].entries, b.stages[|txs|].entries, e, txs);
  }

  lemma BatchExact(a: Ledger, e: Ledger, b: Batch, txs: seq<Tx>, results: seq<AddResult>, live: set<Tx>, live': set<Tx>)
    requires |b.stages| == |txs| + 1 && |b.drops| == |results| == |txs|
    requires BatchBooked(a, e, b, txs, results) && Tally(a, |live|) && Tally(e, |live'|) && Covers(e.items, live')
    ensures Exact(a.items, live, a.stales) && e.doubled == a.doubled ==> Exact(e.items, live', e.stales)
  {
    hide Follows, Clean, Thrifty, Tally, Covers, Exact;
    FollowsExact(a, e, txs, live, live');
  }

  lemma BookedThins(a: Ledger, d: Ledger, e: Ledger, b: Batch, txs: seq<Tx>, results: seq<AddResult>)
    requires |b.stages| == |txs| + 1 && |b.drops| == |results| == |txs|
    requires BatchBooked(a, d, b, txs, results) && Thins(d, e)
    ensures BatchBooked(a, e, b, txs, results)
  {
    hide Follows, Clean, Thrifty;
    FollowsOn(a, d, e, txs);
  }

  /** The account that may have to be looked at after an insertion. */
  function Unsettled(tx: Tx, r: AddResult): set<Address> {
    if r.Added? && r.replaced.None? then {tx.sender} else {}
  }

  lemma InsertSettled(v: View, w: View, tx: Tx)
    requires SameBut(v, w, tx.sender) && w.At(tx.sender) == Submitted(v.At(tx.sender), tx)
    ensures StaysSettled(v, w, Unsettled(tx, Added(Incumbent(v.At(tx.sender), tx))))
  {
    assert forall b :: b != tx.sender ==> w.At(b) == v.At(b);
  }

  /** The incumbent is the known transaction in the same place. */
  lemma IncumbentKnown(v: View, known: set<Tx>, tx: Tx, o: Tx)
    requires Consistent(v, known)
    ensures Incumbent(v.At(tx.sender), tx) == Some(o) <==> o in known && SamePlace(o, tx)
  {
    assert v.LooseAt(tx.sender);
    assert o in known <==> Carries(v.At(o.sender), o);
  }

  /** Placing against the incumbent is placing against the lookup table. */
  lemma PlacementIs(v: View, known: set<Tx>, bump: nat, tx: Tx, r: AddResult)
    requires Consistent(v, known) && (r.Added? || r == Rejected(ReplaceUnderpriced))
    requires var rival := Incumbent(v.At(tx.sender), tx);
             (r.Added? <==> rival.Some? ==> Outbids(tx, rival.value, bump)) && (r.Added? ==> r.replaced == rival)
    ensures Placement(known, bump, tx, r)
  {
    hide Consistent, Incumbent, Outbids, SamePlace;
    forall o ensures Incumbent(v.At(tx.sender), tx) == Some(o) <==> o in known && SamePlace(o, tx) {
      IncumbentKnown(v, known, tx, o);
    }
    var rival := Incumbent(v.At(tx.sender), tx);
    if rival.Some? { assert rival.value in known; }
  }

  lemma PlacedIs(v: View, w: View, known: set<Tx>, tx: Tx, replaced: Option<Tx>)
    requires SameBut(v, w, tx.sender) && w.At(tx.sender) == Submitted(v.At(tx.sender), tx)
    ensures Placed(v, w, tx, Added(replaced))
    ensures After(known, tx, Added(replaced), {}) == known - SetOf(replaced) + {tx}
    ensures replaced.Some? ==> After(known, tx, Added(replaced), {}) == known - {replaced.value} + {tx}
  {}

  lemma PlacedNot(v: View, tx: Tx, r: AddResult)
    requires r.Rejected?
    ensures Placed(v, v, tx, r)
  {}

  lemma PlacedSettled(v: View, w: View, tx: Tx, r: AddResult)
    requires Placed(v, w, tx, r) && r.Added? && r.replaced == Incumbent(v.At(tx.sender), tx)
    ensures StaysSettled(v, w, Unsettled(tx, r))
  {
    hide StaysSettled, Incumbent, SameBut, Submitted;
    InsertSettled(v, w, tx);
  }

  lemma PlacedCourses(v: View, w: View, tx: Tx, r: AddResult)
    requires Placed(v, w, tx, r) && r.Added?
    requires v.chain.Nonce(tx.sender) <= tx.nonce && Fits(tx, v.chain.LimitsOf(tx.sender))
    ensures Courses(v, w)
  {
    hide Courses, SameBut, Submitted, Fits;
    CoursesOne(v, w, tx.sender, Step.Submit(tx));
  }

  lemma PlacedSame(v: View, w: View, tx: Tx, r: AddResult)
    requires Placed(v, w, tx, r) && r.Rejected?
    ensures w == v
  {}

  lemma AfterNothing(known: set<Tx>, tx: Tx, r: AddResult)
    requires r.Rejected?
    ensures After(known, tx, r, {}) == known
  {}

  lemma AfterTwice(known: set<Tx>, kept: set<Tx>, tx: Tx, r: AddResult, dropped: set<Tx>)
    requires kept == known - dropped
    ensures After(kept, tx, r, {}) == After(known, tx, r, dropped)
  {}

  lemma AfterSize(kept: set<Tx>, tx: Tx, r: AddResult, capacity: nat, locals: set<Address>)
    ensures |kept| < capacity ==> |After(kept, tx, r, {})| <= capacity
    ensures OnlyLocal(kept, locals) ==> forall t :: t in After(kept, tx, r, {}) && t != tx ==> t.sender in locals
  {
    SubsetSize(kept - {} - (if r.Added? then SetOf(r.replaced) else {}), kept);
    assert r.Rejected? ==> kept - {} == kept;
  }

  /** Dropping the cheapest: as many as are too many, or all the remote ones if these are not enough. */
  lemma RoomMade(known: set<Tx>, locals: set<Address>, capacity: nat, drop: seq<Tx>, dropped: set<Tx>)
    requires forall t :: t in drop ==> t in known && t.sender !in locals
    requires forall d, t :: d in drop && t in known && t.sender !in locals && t !in drop ==>
               d.price < t.price || (d.price == t.price && d.nonce >= t.nonce)
    requires var count := |known| - (capacity - 1);
             && |drop| <= (if count > 0 then count else 0)
             && (|drop| < count ==> forall t :: t in known && t.sender !in locals ==> t in drop)
    requires dropped == Elems(drop)
    ensures Cheapest(dropped, known, locals) && (dropped == {} <==> drop == [])
    ensures dropped == {} <==> |known| < capacity || OnlyLocal(known, locals)
    ensures dropped != {} ==> |dropped| <= |known| + 1 - capacity
    ensures NoRepeat(drop) ==>
              |known - dropped| < capacity || capacity == 0 || OnlyLocal(known - dropped, locals)
  {
    assert drop != [] ==> drop[0] in dropped;
    ElemsSize(drop);
    assert dropped <= known;
    assert |known - dropped| == |known| - |dropped|;
  }

  // ---- listings -----------------------------------------------------------------------------------

  /** Any listing of a list: iteration over a Go map has no fixed order. */
  method Listing(m: TxMap) returns (s: seq<Tx>)
    requires Keyed(m)
    ensures Lists(s, m)
  {
    s := [];
    var todo := m.Keys;
    while todo != {}
      invariant todo <= m.Keys && NoRepeat(s)
      invariant forall t :: t in s <==> Holds(m, t) && t.nonce !in todo
    {
      EmptyOrMember(todo);
      var n :| n in todo;
      todo := todo - {n};
      s := s + [m[n]];
    }
  }

  /** The transactions of s filed by nonce. */
  function Collect(s: seq<Tx>): TxMap {
    if s == [] then map[] else Collect(s[..|s| - 1])[s[|s| - 1].nonce := s[|s| - 1]]
  }

  ghost predicate DistinctNonces(s: seq<Tx>) { forall i, j :: 0 <= i < j < |s| ==> s[i].nonce != s[j].nonce }

  lemma {:induction false} CollectKeyed(s: seq<Tx>)
    ensures Keyed(Collect(s))
  {
    if s != [] { CollectKeyed(s[..|s| - 1]); }
  }

  lemma {:induction false} CollectHolds(s: seq<Tx>, t: Tx)
    requires DistinctNonces(s)
    ensures Holds(Collect(s), t) <==> t in s
    ensures t.nonce in Collect(s) ==> exists u :: u in s && u.nonce == t.nonce
  {
    if s != [] {
      var r, x := s[..|s| - 1], s[|s| - 1];
      CollectHolds(r, t);
      assert s == r + [x];
      assert t in s <==> t in r || t == x;
      if t in r { var i :| 0 <= i < |r| && r[i] == t; }
    }
  }

  lemma CollectLists(s: seq<Tx>, m: TxMap)
    requires Keyed(m) && Lists(s, m)
    ensures DistinctNonces(s) && Collect(s) == m && (s == [] <==> m == map[])
  {
    forall i, j | 0 <= i < j < |s| ensures s[i].nonce != s[j].nonce {
      assert s[i] in s && s[j] in s;
    }
    if s != [] { assert s[0] in s && Holds(m, s[0]); }
    if m != map[] {
      EmptyOrMember(m.Keys);
      var n :| n in m;
      assert Holds(m, m[n]) && m[n] in s;
    }
    forall n ensures n in Collect(s) <==> n in m
    {
      if n in m { CollectHolds(s, m[n]); }
      if n in Collect(s) { CollectHolds(s, Collect(s)[n]); CollectKeyed(s); }
    }
    forall n | n in m ensures Collect(s)[n] == m[n] { CollectHolds(s, m[n]); }
  }

  // ---- what a consistent pool knows -----------------------------------------------------------------

  lemma PendingKnown(v: View, known: set<Tx>, a: Address, n: int)
    requires Consistent(v, known) && n in ListOf(v.pending, a)
    ensures var tx := v.pending[a][n]; tx in known && tx.sender == a && tx.nonce == n
  {
    assert v.LooseAt(a) && Carries(v.At(a), v.pending[a][n]);
  }

  lemma QueuedOnly(v: View, known: set<Tx>, a: Address, n: int)
    requires Consistent(v, known) && n in ListOf(v.queue, a)
    ensures var tx := v.queue[a][n];
            tx in known && tx.sender == a && tx.nonce == n && n !in ListOf(v.pending, a)
  {
    assert v.LooseAt(a) && Carries(v.At(a), v.queue[a][n]);
  }

  lemma QueueKeyed(v: View, known: set<Tx>, a: Address)
    requires Consistent(v, known)
    ensures Keyed(ListOf(v.queue, a)) && Keyed(ListOf(v.pending, a))
  {
    assert v.LooseAt(a);
  }

  lemma TidyQueue(v: View, known: set<Tx>)
    requires Consistent(v, known)
    ensures NoneEmpty(v.queue) && NoneEmpty(v.pending)
  {}

  /** Taking a transaction out leaves a gap, not something that could be executed next. */
  lemma RemovedSettled(v: View, w: View, tx: Tx)
    requires v.LooseAt(tx.sender) && SameBut(v, w, tx.sender)
    requires w.At(tx.sender) == Without(v.At(tx.sender), tx.nonce)
    ensures StaysSettled(v, w, {})
  {
    var a := tx.sender;
    assert v.SettledAt(a) ==> w.SettledAt(a);
  }

  lemma RemovedCourse(v: View, w: View, tx: Tx)
    requires SameBut(v, w, tx.sender) && w.At(tx.sender) == Without(v.At(tx.sender), tx.nonce)
    ensures Courses(v, w)
  {
    hide Courses, Without;
    CoursesOne(v, w, tx.sender, Step.Evict(tx.nonce));
  }

  lemma LooseEverywhere(v: View, known: set<Tx>)
    requires Consistent(v, known)
    ensures forall a :: v.LooseAt(a)
  {}

  /** A new transaction in place of a pending one. */
  lemma ReplacedIn(v: View, w: View, known: set<Tx>, known': set<Tx>, tx: Tx)
    requires Consistent(v, known) && tx !in known && tx.nonce in ListOf(v.pending, tx.sender)
    requires w == v.(pending := v.pending[tx.sender := ListOf(v.pending, tx.sender)[tx.nonce := tx]])
    requires known' == known - {v.pending[tx.sender][tx.nonce]} + {tx}
    ensures Consistent(w, known') && SameBut(v, w, tx.sender)
    ensures w.At(tx.sender) == Submitted(v.At(tx.sender), tx)
  {
    hide Loose, Carries;
    var a := tx.sender;
    PendingKnown(v, known, a, tx.nonce);
    assert v.LooseAt(a);
    AddedLoose(v.At(a), a, tx);
    UpdatedConsistent(v, w, known, known', a);
  }

  /** A new transaction in the queue. */
  lemma QueuedIn(v: View, w: View, known: set<Tx>, known': set<Tx>, tx: Tx, replaced: Option<Tx>)
    requires Consistent(v, known) && tx !in known && tx.nonce !in ListOf(v.pending, tx.sender)
    requires w == v.(queue := v.queue[tx.sender := ListOf(v.queue, tx.sender)[tx.nonce := tx]])
    requires var list := ListOf(v.queue, tx.sender);
             replaced == if tx.nonce in list then Some(list[tx.nonce]) else None
    requires known' == known - SetOf(replaced) + {tx}
    ensures Consistent(w, known') && SameBut(v, w, tx.sender) && replaced == Incumbent(v.At(tx.sender), tx)
    ensures w.At(tx.sender) == Submitted(v.At(tx.sender), tx)
  {
    hide Loose, Carries;
    var a := tx.sender;
    if tx.nonce in ListOf(v.queue, a) { QueuedOnly(v, known, a, tx.nonce); }
    assert v.LooseAt(a);
    AddedLoose(v.At(a), a, tx);
    UpdatedConsistent(v, w, known, known', a);
  }

  // ---- promotion ----------------------------------------------------------------------------------------

  /** Remote accounts may queue only so much. */
  function QueueCap(locals: set<Address>, c: Config, a: Address): Option<nat> {
    if a in locals then None else Some(c.accountQueue)
  }

  function PromotedAt(v: View, locals: set<Address>, c: Config, a: Address): Acct {
    Promoted(v.At(a), v.chain.Nonce(a), v.chain.LimitsOf(a), QueueCap(locals, c, a))
  }

  lemma RunStart(p0: Table, a: Address, run: TxMap, first: int, end: int)
    requires Interval(run, first, end)
    ensures Updated(p0, p0, a, ListOf(p0, a) + Below(run, first))
  {
    assert ListOf(p0, a) + Below(run, first) == ListOf(p0, a);
  }

  lemma RunStep(p0: Table, p: Table, a: Address, run: TxMap, n: int)
    requires n in run && n !in ListOf(p0, a)
    requires Updated(p0, p, a, ListOf(p0, a) + Below(run, n))
    ensures n !in ListOf(p, a)
    ensures Updated(p0, p[a := ListOf(p, a)[n := run[n]]], a, ListOf(p0, a) + Below(run, n + 1))
  {
    var base := ListOf(p0, a);
    var m := ListOf(p, a)[n := run[n]];
    assert base + Below(run, n + 1) == m;
    assert n in m;
    var q := p[a := m];
    forall b ensures ListOf(q, b) == if b == a then m else ListOf(p0, b) {
      assert ListOf(p, b) == if b == a then base + Below(run, n) else ListOf(p0, b);
    }
  }

  lemma RunAll(run: TxMap, first: int, end: int)
    requires Interval(run, first, end)
    ensures Below(run, end) == run
  {}

  lemma NothingReady(p: Table, a: Address, list: TxMap, next: int)
    requires list == map[] || MinKey(list) > next
    ensures Start(list, next) == RunEnd(list, next) == next && From(list, next) == list
    ensures Updated(p, p, a, ListOf(p, a) + Below(list, next))
  {
    RunEndUnique(list, next, next);
    assert Below(list, next) == map[];
    assert ListOf(p, a) + Below(list, next) == ListOf(p, a);
  }

  lemma DropsAreOwn(x: Acct, a: Address, nonce: int, l: Limits, cap: Option<nat>, t: Tx)
    requires Loose(x, a) && t.sender != a
    ensures !Holds(Below(x.queue, nonce), t) && !Holds(Unpayable(From(x.queue, nonce), l), t)
    ensures var q := Swept(x, nonce, l); !Holds(Excess(From(q, RunEnd(q, Start(q, x.next))), cap), t)
  {
    hide Fits, RunEnd, Capped, Start;
  }

  /** If just the outdated, unpayable and excess part of a's queue is forgotten, the lookup table
      is complete for the promoted account. */
  lemma PromotedBooks(v: View, w: View, known: set<Tx>, known': set<Tx>, a: Address, cap: Option<nat>)
    requires Consistent(v, known) && w.chain == v.chain
    requires var x, nonce, l := v.At(a), v.chain.Nonce(a), v.chain.LimitsOf(a);
             var q := Swept(x, nonce, l);
             var end := RunEnd(q, Start(q, x.next));
             && Updated(v.pending, w.pending, a, x.pending + Below(q, end))
             && Updated(v.queue, w.queue, a, Capped(From(q, end), cap))
             && NextOf(w.nonces, w.chain, a) == end
             && forall t :: t in known' <==>
                  t in known && !Holds(Below(x.queue, nonce), t) && !Holds(Unpayable(From(x.queue, nonce), l), t)
                  && !Holds(Excess(From(q, end), cap), t)
    requires forall b :: b != a ==> NextOf(w.nonces, w.chain, b) == NextOf(v.nonces, v.chain, b)
    ensures Consistent(w, known') && SameBut(v, w, a)
    ensures w.At(a) == Promoted(v.At(a), v.chain.Nonce(a), v.chain.LimitsOf(a), cap)
  {
    hide Fits, RunEnd, Capped, Updated, NoneEmpty, Holds, Carries, Below, From, Unpayable, Swept, Excess, Start, Loose;
    var x, nonce, l := v.At(a), v.chain.Nonce(a), v.chain.LimitsOf(a);
    var q := Swept(x, nonce, l);
    var end := RunEnd(q, Start(q, x.next));
    assert v.LooseAt(a);
    UpdatedTables(v, w, a, x.pending + Below(q, end), Capped(From(q, end), cap));
    PromotedLoose(x, a, nonce, l, cap);
    forall t: Tx | t.sender == a ensures t in known' <==> Carries(w.At(a), t) {
      PromotedDrops(x, a, nonce, l, cap, t);
    }
    forall t: Tx | t.sender != a ensures t in known' <==> t in known { DropsAreOwn(x, a, nonce, l, cap, t); }
    UpdatedConsistent(v, w, known, known', a);
  }

  lemma QueueKnown(v: View, known: set<Tx>, a: Address)
    requires Consistent(v, known)
    ensures var x := v.At(a); var q := Swept(x, v.chain.Nonce(a), v.chain.LimitsOf(a));
            && Filed(x.queue, a) && (forall n :: n in x.queue ==> x.queue[n] in known)
            && Filed(q, a) && (forall n :: n in q ==> n !in x.pending)
  {
    hide Fits;
    var x := v.At(a);
    assert v.LooseAt(a);
    forall n | n in x.queue ensures x.queue[n] in known { assert Carries(x, x.queue[n]); }
  }

  /** Promoting some accounts is a step for each of them. */
  lemma PromotedCourses(v: View, w: View, accounts: set<Address>, locals: set<Address>, c: Config)
    requires w.chain == v.chain
    requires forall a :: w.At(a) == if a in accounts then PromotedAt(v, locals, c, a) else v.At(a)
    ensures Courses(v, w)
  {
    hide Course, Promoted;
    forall a ensures Course(v.At(a), w.At(a), a, v.chain.Nonce(a), v.chain.LimitsOf(a)) {
      CourseNone(v.At(a), a, v.chain.Nonce(a), v.chain.LimitsOf(a));
      CourseStep(v.At(a), a, v.chain.Nonce(a), v.chain.LimitsOf(a), Promote(QueueCap(locals, c, a)));
    }
  }

  // ---- limits -----------------------------------------------------------------------------------------

  lemma SizeOfCut(v: View, w: View, a: Address)
    requires v.LooseAt(a) && SameBut(v, w, a) && Size(v.pending, a) >= 1
    requires w.At(a) == CutPending(v.At(a), Size(v.pending, a) - 1)
    ensures Size(w.pending, a) == Size(v.pending, a) - 1
    ensures forall b :: b != a ==> Size(w.pending, b) == Size(v.pending, b)
  {
    hide Loose, CutPending;
    CutLoose(v.At(a), a, Size(v.pending, a) - 1);
    assert w.At(a).pending == ListOf(w.pending, a);
    forall b | b != a ensures Size(w.pending, b) == Size(v.pending, b) {
      assert w.At(b) == v.At(b);
    }
  }

  lemma LastPending(v: View, known: set<Tx>, a: Address)
    requires Consistent(v, known) && Size(v.pending, a) >= 1
    ensures var list := ListOf(v.pending, a);
            && |Flat(list)| == |list|
            && var tx := Flat(list)[|list| - 1];
               tx in known && tx.sender == a && NoRepeat([tx]) && Elems([tx]) == {tx}
  {
    hide Loose, CutPending, Lowest, Flat;
    assert v.LooseAt(a);
    CutLast(v.At(a), a);
    assert Carries(v.At(a), Flat(ListOf(v.pending, a))[Size(v.pending, a) - 1]);
  }

  /** An account's highest pending transaction is gone. */
  lemma LastDropped(v: View, w: View, known: set<Tx>, known': set<Tx>, a: Address, tx: Tx)
    requires Consistent(v, known) && Size(v.pending, a) >= 2
    requires var list := ListOf(v.pending, a);
             && |Flat(list)| == |list| && tx == Flat(list)[|list| - 1]
             && w.pending == v.pending[a := Lowest(list, |list| - 1)]
    requires w.queue == v.queue && w.chain == v.chain && known' == known - {tx}
    requires w.nonces == if NextOf(v.nonces, v.chain, a) > tx.nonce then v.nonces[a := tx.nonce] else v.nonces
    ensures Consistent(w, known') && SameBut(v, w, a) && w.pending.Keys == v.pending.Keys
    ensures w.At(a) == CutPending(v.At(a), Size(v.pending, a) - 1) && Size(w.pending, a) == Size(v.pending, a) - 1
    ensures forall b :: b != a ==> Size(w.pending, b) == Size(v.pending, b)
  {
    hide Loose, Carries, CutPending, Flat, Lowest;
    var x := v.At(a);
    assert v.LooseAt(a);
    CutLast(x, a);
    CutLoose(x, a, |x.pending| - 1);
    UpdatedConsistent(v, w, known, known', a);
    SizeOfCut(v, w, a);
  }

  lemma TruncatingTrimmed(v0: View, v: View, addresses: seq<Address>, k: int, drop: int)
    requires Truncating(v0, v, addresses, k, drop)
    ensures Trimmed(v0, v)
  {}

  lemma TrimmedStart(v: View, known: set<Tx>)
    requires Consistent(v, known)
    ensures Trimmed(v, v)
  {
    TruncatingStart(v, known, [], 0);
  }

  /** The pool after promotion, and after its pending lists were cut to a level; and when it last heard of
      each account. */
  datatype Phases = Phases(ready: View, fair: View, level: nat, heard: map<Address, int>)

  /** From the promoted pool to w: pending lists are cut to a fair level, then the queue is truncated. */
  ghost predicate Limited(ph: Phases, w: View, locals: set<Address>, c: Config) {
    && CutDown(ph.ready, ph.fair) && ph.fair.queue == ph.ready.queue
    && Fair(ph.ready.pending, ph.fair.pending, locals, c.accountSlots, c.globalSlots, ph.level)
    && Trimmed(ph.fair, w) && NewestFirst(ph.fair.queue, w.queue, locals, ph.heard)
    && WithinLimit(ph.fair.queue, w.queue, locals, c.globalQueue)
  }

  lemma LimitedAt(ph: Phases, w: View, locals: set<Address>, c: Config, a: Address)
    requires Limited(ph, w, locals, c)
    ensures w.chain == ph.ready.chain && ph.fair.At(a) == CutPending(ph.ready.At(a), Size(ph.fair.pending, a))
    ensures w.At(a) == ph.fair.At(a).(queue := Lowest(ph.fair.At(a).queue, Size(w.queue, a)))
  {
    hide Lowest, CutPending, Fair, NewestFirst, WithinLimit;
    assert Size(ph.fair.pending, a) <= Size(ph.ready.pending, a);
    assert Size(w.queue, a) <= Size(ph.fair.queue, a);
  }

  lemma LimitedQueue(ph: Phases, w: View, locals: set<Address>, c: Config)
    requires Limited(ph, w, locals, c)
    ensures forall a :: Size(w.queue, a) <= Size(ph.ready.queue, a)
    ensures Total(ph.ready.queue) <= c.globalQueue ==> Total(w.queue) == Total(ph.ready.queue)
  {
    hide CutDown, Fair, NewestFirst, Lowest, Total, LocalTotal;
  }

  /** The limits spare local accounts. */
  lemma LimitedLocal(ph: Phases, w: View, locals: set<Address>, c: Config, a: Address)
    requires Limited(ph, w, locals, c) && a in locals && Loose(ph.ready.At(a), a)
    ensures w.At(a) == ph.ready.At(a)
  {
    hide Lowest, TotalAt, Total, CutPending, CutDown, Trimmed, WithinLimit, Tight;
    LimitedAt(ph, w, locals, c, a);
    assert Size(ph.fair.pending, a) == Size(ph.ready.pending, a);
    CutNothing(ph.ready.At(a), a, Size(ph.fair.pending, a));
    assert w.At(a).queue == ListOf(w.queue, a) && ph.fair.At(a).queue == ListOf(ph.fair.queue, a);
  }

  /** Neither mined, nor more than its sender can pay or a block can hold. */
  ghost predicate Current(chain: ChainState, t: Tx) {
    && chain.Nonce(t.sender) <= t.nonce && t.value <= chain.Balance(t.sender)
    && t.price * t.gas <= chain.Power(t.sender) && t.gas <= chain.gasLimit
  }

  lemma CurrentFits(chain: ChainState, t: Tx)
    ensures Current(chain, t) <==> chain.Nonce(t.sender) <= t.nonce && Fits(t, chain.LimitsOf(t.sender))
  {}

  /** Promotion and limits take nothing from a local account that could still be executed. */
  lemma LocalPromotion(v: View, known: set<Tx>, ph: Phases, w: View, known': set<Tx>, locals: set<Address>, c: Config,
                       accounts: set<Address>, t: Tx)
    requires Consistent(v, known) && Consistent(w, known') && ph.ready.chain == v.chain && Limited(ph, w, locals, c)
    requires forall a :: ph.ready.At(a) == if a in accounts then PromotedAt(v, locals, c, a) else v.At(a)
    requires t in known && t.sender in locals && Current(v.chain, t)
    ensures t in known'
  {
    hide Fits, Promoted, Limited, Loose, RunEnd, Start;
    var a := t.sender;
    var n, l := v.chain.Nonce(a), v.chain.LimitsOf(a);
    assert v.LooseAt(a) && Carries(v.At(a), t);
    CurrentFits(v.chain, t);
    PromotedDrops(v.At(a), a, n, l, None, t);
    PromotedLoose(v.At(a), a, n, l, None);
    LimitedLocal(ph, w, locals, c, a);
    assert Carries(w.At(a), t);
  }

  lemma PromotedCapped(x: Acct, a: Address, nonce: int, l: Limits, cap: nat)
    requires Loose(x, a)
    ensures |Promoted(x, nonce, l, Some(cap)).queue| <= cap
  {
    hide Fits, RunEnd, Start, Capped, Lowest;
    SweptLoose(x, a, nonce, l);
    var q := Swept(x, nonce, l);
    CappedSize(From(q, RunEnd(q, Start(q, x.next))), cap);
  }

  /** A remote account that was promoted has no more queued than it may. */
  lemma RemoteCapped(x: Acct, ph: Phases, w: View, locals: set<Address>, c: Config, a: Address, nonce: int, l: Limits)
    requires Loose(x, a) && Limited(ph, w, locals, c) && a !in locals
    requires ph.ready.At(a) == Promoted(x, nonce, l, QueueCap(locals, c, a))
    ensures Size(w.queue, a) <= c.accountQueue
  {
    hide Promoted, Limited, Loose;
    PromotedCapped(x, a, nonce, l, c.accountQueue);
    LimitedQueue(ph, w, locals, c);
    assert ph.ready.At(a).queue == ListOf(ph.ready.queue, a);
  }

  lemma LimitedCourses(ph: Phases, w: View, locals: set<Address>, c: Config)
    requires Limited(ph, w, locals, c)
    ensures Courses(ph.ready, w)
  {
    hide Course, CutPending, Lowest, Limited;
    var v := ph.ready;
    LimitedAt(ph, w, locals, c, 0);
    forall a ensures Course(v.At(a), w.At(a), a, v.chain.Nonce(a), v.chain.LimitsOf(a)) {
      var n, l := v.chain.Nonce(a), v.chain.LimitsOf(a);
      LimitedAt(ph, w, locals, c, a);
      CourseStep(v.At(a), a, n, l, Cut(Size(ph.fair.pending, a)));
      CourseStep(ph.fair.At(a), a, n, l, Trim(Size(w.queue, a)));
      CourseTwice(v.At(a), ph.fair.At(a), w.At(a), a, n, l);
    }
  }

  lemma CutQueue(x: Acct, k: nat)
    ensures CutPending(x, k).queue == x.queue
  {}

  /** Promoting and keeping the limits leaves no account with its next transaction in the queue. */
  lemma PhasesSettle(v: View, ph: Phases, w: View, locals: set<Address>, c: Config, a: Address, promoted: bool,
                     cap: Option<nat>)
    requires v.LooseAt(a) && (promoted || v.SettledAt(a)) && ph.ready.chain == v.chain && Limited(ph, w, locals, c)
    requires ph.ready.At(a)
             == if promoted then Promoted(v.At(a), v.chain.Nonce(a), v.chain.LimitsOf(a), cap) else v.At(a)
    ensures w.SettledAt(a)
  {
    hide Promoted, Lowest, Fits, CutPending, Limited;
    if promoted { PromotedLoose(v.At(a), a, v.chain.Nonce(a), v.chain.LimitsOf(a), cap); }
    LimitedAt(ph, w, locals, c, a);
    var x := ph.ready.At(a);
    CutLoose(x, a, Size(ph.fair.pending, a));
    CutQueue(x, Size(ph.fair.pending, a));
    LowestIsPart(x.queue, a, Size(w.queue, a));
  }

  /** The queues of some accounts have been emptied. */
  ghost predicate Emptied(v: View, w: View, gone: set<Address>) {
    w.chain == v.chain && forall a :: w.At(a) == if a in gone then v.At(a).(queue := map[]) else v.At(a)
  }

  lemma EmptiedStep(v: View, w: View, u: View, gone: set<Address>, a: Address)
    requires Emptied(v, w, gone) && SameBut(w, u, a) && u.At(a) == w.At(a).(queue := map[])
    ensures Emptied(v, u, gone + {a})
  {
    forall b ensures u.At(b) == if b in gone + {a} then v.At(b).(queue := map[]) else v.At(b) {
      assert w.At(b) == if b in gone then v.At(b).(queue := map[]) else v.At(b);
    }
  }

  lemma EmptiedAt(v: View, w: View, gone: set<Address>, a: Address)
    requires Emptied(v, w, gone)
    ensures w.At(a) == if a in gone then v.At(a).(queue := map[]) else v.At(a)
  {}

  lemma EmptiedNone(v: View)
    ensures Emptied(v, v, {})
  {}

  lemma EmptiedCourses(v: View, known: set<Tx>, w: View, gone: set<Address>)
    requires Consistent(v, known) && Emptied(v, w, gone)
    ensures Courses(v, w) && StaysSettled(v, w, {})
  {
    hide Course, Lowest;
    forall a ensures Course(v.At(a), w.At(a), a, v.chain.Nonce(a), v.chain.LimitsOf(a)) {
      assert v.LooseAt(a);
      LowestNone(v.At(a).queue);
      CourseNone(v.At(a), a, v.chain.Nonce(a), v.chain.LimitsOf(a));
      CourseStep(v.At(a), a, v.chain.Nonce(a), v.chain.LimitsOf(a), Trim(0));
    }
  }

  /** What was pending for an account still is, and the mined part of it has not been replaced. */
  ghost predicate Keeps(x: Acct, y: Acct, nonce: int) {
    forall n :: n in x.pending ==> n in y.pending && (n < nonce ==> y.pending[n] == x.pending[n])
  }

  ghost predicate PendingKept(v: View, w: View) {
    w.chain == v.chain && forall a :: Keeps(v.At(a), w.At(a), v.chain.Nonce(a))
  }

  lemma KeptTwice(u: View, v: View, w: View)
    requires PendingKept(u, v) && PendingKept(v, w)
    ensures PendingKept(u, w)
  {
    forall a ensures Keeps(u.At(a), w.At(a), u.chain.Nonce(a)) {
      assert Keeps(u.At(a), v.At(a), u.chain.Nonce(a)) && Keeps(v.At(a), w.At(a), v.chain.Nonce(a));
    }
  }

  lemma PlacedKept(v: View, w: View, tx: Tx, r: AddResult)
    requires Placed(v, w, tx, r) && v.chain.Nonce(tx.sender) <= tx.nonce
    ensures PendingKept(v, w)
  {
    forall a ensures Keeps(v.At(a), w.At(a), v.chain.Nonce(a)) {
      if a != tx.sender { assert w.At(a) == v.At(a); }
    }
  }

  lemma UncutAt(v: View, w: View, a: Address)
    requires v.LooseAt(a) && SameSizes(v.pending, w.pending)
    ensures CutPending(v.At(a), Size(w.pending, a)) == v.At(a)
  {
    hide CutPending;
    assert Size(w.pending, a) == Size(v.pending, a);
    CutNothing(v.At(a), a, Size(w.pending, a));
  }

  /** Where everything pending fits into the slots, the limits take nothing of it. */
  lemma LimitedUncut(ph: Phases, known: set<Tx>, w: View, locals: set<Address>, c: Config)
    requires Consistent(ph.ready, known) && |known| <= c.globalSlots && Limited(ph, w, locals, c)
    ensures SameSizes(ph.ready.pending, ph.fair.pending)
  {
    hide Consistent, Total, CutDown, Trimmed, NewestFirst, WithinLimit, Fair;
    PoolCount(ph.ready, known);
    FairIsLenient(ph.ready.pending, ph.fair.pending, locals, c.accountSlots, c.globalSlots, ph.level);
  }

  lemma PromotedKeeps(x: Acct, a: Address, nonce: int, l: Limits, cap: Option<nat>, y: Acct)
    requires Loose(x, a) && (y.pending == x.pending || y.pending == Promoted(x, nonce, l, cap).pending)
    ensures Keeps(x, y, nonce)
  {
    hide Promoted;
    PromotedLoose(x, a, nonce, l, cap);
  }

  lemma LimitedKept(v: View, known: set<Tx>, ph: Phases, known': set<Tx>, w: View, locals: set<Address>, c: Config,
                    accounts: set<Address>)
    requires Consistent(v, known) && Consistent(ph.ready, known') && known' <= known && |known| <= c.globalSlots
    requires Limited(ph, w, locals, c) && ph.ready.chain == v.chain
    requires forall a :: ph.ready.At(a) == if a in accounts then PromotedAt(v, locals, c, a) else v.At(a)
    ensures PendingKept(v, w)
  {
    hide Promoted, Lowest, CutPending, Limited, Loose, SameSizes, Complete, Keeps;
    SubsetSize(known', known);
    LimitedUncut(ph, known', w, locals, c);
    LimitedAt(ph, w, locals, c, 0);
    forall a ensures Keeps(v.At(a), w.At(a), v.chain.Nonce(a)) {
      assert v.LooseAt(a) && ph.ready.LooseAt(a);
      LimitedAt(ph, w, locals, c, a);
      UncutAt(ph.ready, ph.fair, a);
      PromotedKeeps(v.At(a), a, v.chain.Nonce(a), v.chain.LimitsOf(a), QueueCap(locals, c, a), w.At(a));
    }
  }

  /** Data and gas have their sizes in 64 bits. */
  ghost predicate Encodable(txs: seq<Tx>) {
    forall t :: t in txs ==> |t.data| <= Gas.MAX_UINT64 && t.gas <= Gas.MAX_UINT64
  }

  /** The accounts that gained a transaction. */
  ghost function Gained(txs: seq<Tx>, results: seq<AddResult>): set<Address>
    requires |txs| == |results|
  {
    set i | 0 <= i < |txs| && results[i] == Added(None) :: txs[i].sender
  }

  lemma GainedStep(txs: seq<Tx>, results: seq<AddResult>, tx: Tx, r: AddResult)
    requires |txs| == |results|
    ensures Gained(txs + [tx], results + [r]) == Gained(txs, results) + Unsettled(tx, r)
  {
    var s, q := txs + [tx], results + [r];
    forall a ensures a in Gained(s, q) <==> a in Gained(txs, results) || a in Unsettled(tx, r) {
      if a in Gained(txs, results) {
        var i :| 0 <= i < |txs| && results[i] == Added(None) && txs[i].sender == a;
        assert q[i] == Added(None) && s[i].sender == a;
      }
      if a in Unsettled(tx, r) { assert q[|txs|] == Added(None) && s[|txs|].sender == a; }
    }
  }

  /** After a batch the accounts that gained a transaction are promoted, and the limits enforced. */
  ghost predicate Landed(last: Stage, gained: set<Address>, ph: Phases, s: Stage, c: Config) {
    && s.locals == last.locals && s.known <= last.known && s.view.chain == last.view.chain
    && if gained == {} then s == last else
         && Limited(ph, s.view, s.locals, c) && ph.ready.chain == s.view.chain
         && forall a :: ph.ready.At(a) == if a in gained then PromotedAt(last.view, s.locals, c, a) else last.view.At(a)
  }

  lemma Unlanded(s: Stage, ph: Phases, c: Config)
    ensures Landed(s, {}, ph, s, c)
  {}

  lemma LandedSome(last: Stage, gained: set<Address>, ph: Phases, s: Stage, c: Config)
    requires s.locals == last.locals && s.known <= last.known && s.view.chain == last.view.chain && gained != {}
    requires Limited(ph, s.view, s.locals, c) && ph.ready.chain == s.view.chain
    requires forall a :: ph.ready.At(a)
                         == if a in gained then PromotedAt(last.view, s.locals, c, a) else last.view.At(a)
    ensures Landed(last, gained, ph, s, c)
  {}

  lemma LandedNothing(b: Batch, results: seq<AddResult>, c: Config, floor: int, ph: Phases, s: Stage)
    requires Batched(b, [], results, c, floor, false) && Landed(b.stages[0], Gained([], results), ph, s, c)
    ensures s == b.stages[0]
  {
    hide Limited;
  }

  /** A reset: how the reinjected transactions were decided upon, the phases after that, the pool when the
      lists were demoted, and the phases after that. */
  datatype Replay = Replay(results: seq<AddResult>, batch: Batch, landing: Phases, mid: Stage, ph: Phases)

  lemma BatchStart(v: View)
    ensures StaysSettled(v, v, {}) && Courses(v, v) && PendingKept(v, v)
  {
    CoursesNone(v);
  }

  lemma UnplacedKept(v: View, w: View, tx: Tx, r: AddResult)
    requires Placed(v, w, tx, r) && r.Rejected?
    ensures PendingKept(v, w)
  {}

  /** In a pool that is not full nothing is dropped, and at most one transaction more is there afterwards. */
  lemma AfterRoom(s: Stage, s': Stage, dropped: set<Tx>, tx: Tx, r: AddResult, c: Config, floor: int, local: bool)
    requires Staged(s, s', dropped, tx, r, c, floor, local) && tx.gas <= Gas.MAX_UINT64
    ensures |s'.known| <= |s.known| + 1
    ensures |s.known| < Capacity(c) ==> dropped == {} && PendingKept(s.view, s'.view)
  {
    hide Objection, PendingKept, Cheapest, TooCheap, OnlyLocal, Placed;
    SubsetSize(s.known - dropped, s.known);
    SubsetSize(s.known - dropped - (if r.Added? then SetOf(r.replaced) else {}), s.known);
    if |s.known| < Capacity(c) {
      if r.Added? {
        AdmissibleFits(s.view.chain, floor, s.locals, tx, local);
        PlacedKept(s.view, s'.view, tx, r);
      } else {
        UnplacedKept(s.view, s'.view, tx, r);
      }
    }
  }

  /** So small that no limit is reached. */
  predicate Small(n: nat, c: Config) { n <= c.globalSlots && n <= c.globalQueue && n <= c.accountQueue }

  lemma AccountShare(v: View, known: set<Tx>, a: Address)
    requires Consistent(v, known)
    ensures Size(v.queue, a) <= Total(v.queue) <= |known|
  {
    hide Consistent, Sum;
    PoolCount(v, known);
    if a in v.queue { SumLeast(Len(v.queue), v.queue.Keys, a); }
  }

  /** Promoting an account that is in order loses nothing if its queue is within the cap. */
  lemma PromotedWhole(x: Acct, a: Address, nonce: int, l: Limits, cap: Option<nat>, t: Tx)
    requires Sound(x, a, nonce, l) && (cap.Some? ==> |x.queue| <= cap.value)
    ensures Carries(Promoted(x, nonce, l, cap), t) <==> Carries(x, t)
  {
    hide Fits, Promoted, RunEnd, Start, Lowest;
    assert Loose(x, a);
    PromotedDrops(x, a, nonce, l, cap, t);
    var q := Swept(x, nonce, l);
    var m := From(q, RunEnd(q, Start(q, x.next)));
    assert m.Keys <= x.queue.Keys;
    SubsetSize(m.Keys, x.queue.Keys);
    assert |m| == |m.Keys| && |x.queue| == |x.queue.Keys|;
    if cap.Some? { LowestAll(m, cap.value); }
    assert Excess(m, cap) == map[];
  }

  lemma PromotedAllKnown(v: View, known: set<Tx>, w: View, known': set<Tx>, locals: set<Address>, c: Config,
                         accounts: set<Address>)
    requires Consistent(v, known) && AllSound(v) && Small(|known|, c) && Consistent(w, known')
    requires forall a :: w.At(a) == if a in accounts then PromotedAt(v, locals, c, a) else v.At(a)
    ensures known' == known
  {
    hide Promoted, Carries, Loose, Sound;
    forall t ensures t in known' <==> t in known {
      var a := t.sender;
      assert v.SoundAt(a);
      AccountShare(v, known, a);
      PromotedWhole(v.At(a), a, v.chain.Nonce(a), v.chain.LimitsOf(a), QueueCap(locals, c, a), t);
    }
  }

  lemma UntrimmedAt(v: View, w: View, a: Address)
    requires v.LooseAt(a) && SameSizes(v.queue, w.queue)
    ensures Lowest(v.At(a).queue, Size(w.queue, a)) == v.At(a).queue
  {
    hide Lowest;
    assert Size(w.queue, a) == Size(v.queue, a);
    LowestAll(v.At(a).queue, Size(w.queue, a));
  }

  lemma LimitedUntrimmed(ph: Phases, known: set<Tx>, w: View, locals: set<Address>, c: Config)
    requires Consistent(ph.ready, known) && Small(|known|, c) && Limited(ph, w, locals, c) && NoneEmpty(w.queue)
    ensures forall a :: w.At(a) == ph.ready.At(a)
  {
    hide Consistent, CutPending, Lowest, Limited, SameSizes, Total, Loose;
    LimitedUncut(ph, known, w, locals, c);
    LimitedQueue(ph, w, locals, c);
    AccountShare(ph.ready, known, 0);
    SameTotals(ph.ready.queue, w.queue);
    LooseEverywhere(ph.ready, known);
    forall a ensures w.At(a) == ph.ready.At(a) {
      assert ph.ready.LooseAt(a);
      LimitedAt(ph, w, locals, c, a);
      UncutAt(ph.ready, ph.fair, a);
      UntrimmedAt(ph.ready, w, a);
    }
  }

  /** A pool that is in order and small loses nothing. */
  lemma NothingLost(v: View, known: set<Tx>, ph: Phases, known1: set<Tx>, w: View, known': set<Tx>,
                    locals: set<Address>, c: Config, accounts: set<Address>)
    requires Consistent(v, known) && AllSound(v) && Small(|known|, c) && ph.ready.chain == v.chain
    requires Consistent(ph.ready, known1) && Consistent(w, known') && Limited(ph, w, locals, c)
    requires forall a :: ph.ready.At(a) == if a in accounts then PromotedAt(v, locals, c, a) else v.At(a)
    ensures known' == known
  {
    hide Promoted, Carries, Loose, Limited, AllSound;
    PromotedAllKnown(v, known, ph.ready, known1, locals, c, accounts);
    LimitedUntrimmed(ph, known, w, locals, c);
    forall t ensures t in known' <==> t in known {
      assert w.At(t.sender) == ph.ready.At(t.sender);
    }
  }

  /** Pending lists may vanish from p to q, and with them exactly their accounts' heartbeats. */
  ghost predicate Silent(p: Table, q: Table, was: map<Address, int>, beats: map<Address, int>) {
    q.Keys <= p.Keys && beats == was - (p.Keys - q.Keys)
  }

  /** Heartbeats are as they were, or from now. */
  ghost predicate Heard(was: map<Address, int>, beats: map<Address, int>, now: int) {
    forall a :: a in beats ==> beats[a] == now || (a in was && beats[a] == was[a])
  }

  /** An account is heard of when something of it is promoted. */
  ghost predicate Stirred(v: View, w: View, was: map<Address, int>, beats: map<Address, int>, now: int) {
    forall a ::
      if w.At(a).pending == v.At(a).pending then (a in beats <==> a in was) && (a in was ==> beats[a] == was[a])
      else a in beats && beats[a] == now
  }

  lemma StirredNone(v: View, beats: map<Address, int>, now: int)
    ensures Stirred(v, v, beats, beats, now)
  {}

  lemma StirredStep(v: View, v1: View, w: View, was: map<Address, int>, b1: map<Address, int>, b2: map<Address, int>,
                    a: Address, now: int)
    requires Stirred(v, v1, was, b1, now) && SameBut(v1, w, a) && v1.At(a).pending == v.At(a).pending
    requires b2 == if w.At(a).pending == v1.At(a).pending then b1 else b1[a := now]
    ensures Stirred(v, w, was, b2, now)
  {
    forall b | b != a ensures w.At(b) == v1.At(b) {}
  }

  lemma StirredHeard(v: View, w: View, was: map<Address, int>, beats: map<Address, int>, now: int)
    requires Stirred(v, w, was, beats, now)
    ensures Heard(was, beats, now)
  {
    forall a | a in beats ensures beats[a] == now || (a in was && beats[a] == was[a]) {
      assert w.At(a).pending == v.At(a).pending || w.At(a).pending != v.At(a).pending;
    }
  }

  lemma RunShows(p: Table, q: Table, a: Address, run: TxMap, n: int)
    requires Updated(p, q, a, ListOf(p, a) + run) && n in run && n !in ListOf(p, a)
    ensures ListOf(q, a) != ListOf(p, a)
  {
    assert n in ListOf(q, a);
  }

  lemma SilentTwice(p: Table, q: Table, r: Table, a: map<Address, int>, b: map<Address, int>, c: map<Address, int>)
    requires Silent(p, q, a, b) && Silent(q, r, b, c)
    ensures Silent(p, r, a, c)
  {
    assert p.Keys - r.Keys == (p.Keys - q.Keys) + (q.Keys - r.Keys);
  }

  lemma SilentAsIs(p: Table, q: Table, a: map<Address, int>)
    requires q.Keys == p.Keys
    ensures Silent(p, q, a, a) && forall now :: Heard(a, a, now)
  {
    assert p.Keys - q.Keys == {};
    assert a - {} == a;
  }

  lemma SilentSame(p: Table, q: Table, r: Table, a: map<Address, int>, b: map<Address, int>)
    requires Silent(p, q, a, b) && r.Keys == q.Keys
    ensures Silent(p, r, a, b)
  {}

  /** One list is stored anew; if nothing is left of it, it vanishes. */
  lemma SilentStore(p: Table, a: Address, m: TxMap, was: map<Address, int>)
    requires a in p
    ensures Silent(p, Store(p, a, m), was, if m == map[] then was - {a} else was)
  {
    var q := Store(p, a, m);
    assert p.Keys - q.Keys == if m == map[] then {a} else {};
    assert was - {} == was;
  }

  lemma HeardTwice(a: map<Address, int>, b: map<Address, int>, c: map<Address, int>, now: int)
    requires Heard(a, b, now) && Heard(b, c, now)
    ensures Heard(a, c, now)
  {}

  lemma SilentHeard(p: Table, q: Table, a: map<Address, int>, b: map<Address, int>, now: int)
    requires Silent(p, q, a, b)
    ensures Heard(a, b, now)
  {}

  // ---- a new head ----------------------------------------------------------------------------------------

  /** The pool when the chain has a new head and nothing has been done about it: next nonces start again. */
  function Moved(v: View, head: ChainState): View { View(v.pending, v.queue, map[], head) }

  lemma MovedConsistent(v: View, known: set<Tx>, head: ChainState)
    requires Consistent(v, known)
    ensures Consistent(Moved(v, head), known)
  {
    var w := Moved(v, head);
    forall a ensures w.LooseAt(a) { assert v.LooseAt(a); }
    forall t ensures t in known <==> Carries(w.At(t.sender), t) {
      assert t in known <==> Carries(v.At(t.sender), t);
    }
  }

  lemma NotYetDemoted(v: View, p: Table, q: Table, known: set<Tx>, done: set<Address>, a: Address, all0: set<Tx>)
    requires Consistent(v, all0) && Demoting(v, p, q, known, done) && a !in done && a in v.pending
    ensures v.LooseAt(a) && a in p && v.At(a).pending == ListOf(p, a) && v.At(a).queue == ListOf(q, a)
    ensures forall t: Tx :: t.sender == a ==> (t in known <==> Carries(v.At(a), t))
  {
    hide Loose, Carries, Demoted;
    assert v.LooseAt(a);
    assert ListOf(p, a) == v.At(a).pending && v.At(a).pending != map[];
  }

  lemma DemotingTidy(v: View, p: Table, q: Table, known: set<Tx>, done: set<Address>)
    requires Demoting(v, p, q, known, done)
    ensures NoneEmpty(p) && NoneEmpty(q)
  {}

  /** The next nonce of a demoted account. */
  lemma DemotedNext(v: View, p: Table, q: Table, known: set<Tx>, a: Address, all0: set<Tx>)
    requires Consistent(v, all0) && Demoting(v, p, q, known, v.pending.Keys)
    ensures if a in p then |Flat(p[a])| > 0 && Flat(p[a])[|Flat(p[a])| - 1].nonce + 1 == DemotedAt(v, a).next
            else DemotedAt(v, a).next == v.At(a).next
  {
    hide Fits, Flat, Highest, Demoting, Retained, Stranded;
    DemotingAll(v, p, q, known, v.pending.Keys, a);
    assert v.LooseAt(a);
    DemotedLoose(v.At(a), a, v.chain.Nonce(a), v.chain.LimitsOf(a));
    assert a in p ==> p[a] != map[] by { DemotingTidy(v, p, q, known, v.pending.Keys); }
    if a in p { HighestIs(p[a], a); }
  }

  /** With every account demoted and the next nonces set, the pool is consistent. */
  lemma DemotedConsistent(v: View, w: View, known: set<Tx>, all0: set<Tx>)
    requires Consistent(v, all0) && Demoting(v, w.pending, w.queue, known, v.pending.Keys) && w.chain == v.chain
    requires forall a :: NextOf(w.nonces, w.chain, a) == DemotedAt(v, a).next
    ensures Consistent(w, known) && forall a :: w.At(a) == DemotedAt(v, a)
  {
    hide Demoted, Loose, Carries, Demoting;
    DemotingDone(v, w, known);
    forall a ensures w.LooseAt(a) {
      assert v.LooseAt(a);
      DemotedLoose(v.At(a), a, v.chain.Nonce(a), v.chain.LimitsOf(a));
    }
  }

  lemma LooseParts(x: Acct, a: Address)
    requires Loose(x, a)
    ensures Filed(x.pending, a) && Filed(x.queue, a) && forall n :: n in x.pending ==> n !in x.queue
  {}

  /** What a reset makes of account a, which had no gap under v0: it has none once promoted if and only if its list
      was not torn when it was demoted, and is in order if and only if, besides, every mined transaction was still
      pending. The limits change nothing of that for a list that was not torn; where it is not in order then, the next
      nonce that the pool hands out is below the account's. */
  ghost predicate Outcome(v0: View, mid: View, ready: View, w: View, a: Address) {
    var nonce, l := mid.chain.Nonce(a), mid.chain.LimitsOf(a);
    var torn, kept := Torn(mid.At(a), nonce, l), MinedKept(v0.At(a), mid.At(a), nonce);
    && (ready.GaplessAt(a) <==> !torn) && (ready.SoundAt(a) <==> kept && !torn)
    && (!torn ==> w.GaplessAt(a) && (w.SoundAt(a) <==> kept) && (w.At(a).next < nonce <==> !kept))
    && (v0.chain.Nonce(a) <= nonce ==> !torn)
    && (mid == Moved(v0, mid.chain) ==> kept && !torn)
  }

  /** Where the next nonce has fallen below the account's, the limits leave it there. */
  lemma FallenStays(x: Acct, a: Address, nonce: int, l: Limits, k: nat, q: TxMap)
    requires Gapless(x, a, nonce) && x.next < nonce
    ensures CutPending(x, k).next == x.next && !Sound(CutPending(x, k).(queue := q), a, nonce, l)
  {
    hide Fits;
    assert forall n :: n !in x.pending;
    assert x.pending == map[];
    CutNothing(x, a, k);
  }

  lemma ResetOutcome(v0: View, mid: View, ph: Phases, w: View, locals: set<Address>, c: Config, cap: Option<nat>,
                     a: Address)
    requires v0.GaplessAt(a) && Courses(Moved(v0, mid.chain), mid) && ph.ready.chain == mid.chain
    requires ph.ready.At(a) == Promoted(DemotedAt(mid, a), mid.chain.Nonce(a), mid.chain.LimitsOf(a), cap)
    requires Limited(ph, w, locals, c)
    ensures Outcome(v0, mid, ph.ready, w, a)
  {
    hide Promoted, Demoted, Torn, MinedKept, Gapless, Sound, Course, Limited, CutPending, Lowest;
    var x0, x, nonce, l := v0.At(a), mid.At(a), mid.chain.Nonce(a), mid.chain.LimitsOf(a);
    var u := Moved(v0, mid.chain);
    assert u.At(a) == x0.(next := nonce);
    assert Course(u.At(a), x, a, nonce, l);
    ResetSoundIff(x0, x, a, v0.chain.Nonce(a), nonce, l, cap);
    LimitedCourses(ph, w, locals, c);
    CoursesKeep(ph.ready, w, a);
    LimitedAt(ph, w, locals, c, a);
    if ph.ready.GaplessAt(a) && !ph.ready.SoundAt(a) {
      FallenStays(ph.ready.At(a), a, nonce, l, Size(ph.fair.pending, a), w.At(a).queue);
    } else if ph.ready.SoundAt(a) {
      SoundNext(w.At(a), a, nonce, l);
    }
  }

  lemma MinedStay(v0: View, mid: View)
    requires PendingKept(Moved(v0, mid.chain), mid)
    ensures forall a :: MinedKept(v0.At(a), mid.At(a), mid.chain.Nonce(a))
  {
    var u := Moved(v0, mid.chain);
    forall a ensures MinedKept(v0.At(a), mid.At(a), mid.chain.Nonce(a)) {
      assert Keeps(u.At(a), mid.At(a), u.chain.Nonce(a));
    }
  }

  /** Where no nonce goes down and all mined transactions were kept, every account is in order. */
  lemma KeptSound(v0: View, mid: View, ready: View, w: View)
    requires AllGapless(v0) && forall a :: v0.GaplessAt(a) ==> Outcome(v0, mid, ready, w, a)
    requires forall a :: MinedKept(v0.At(a), mid.At(a), mid.chain.Nonce(a))
    requires forall a :: v0.chain.Nonce(a) <= mid.chain.Nonce(a)
    ensures AllSound(w)
  {
    hide Torn, MinedKept, Gapless, Sound;
    forall a ensures w.SoundAt(a) {
      assert v0.GaplessAt(a);
      assert Outcome(v0, mid, ready, w, a);
      assert MinedKept(v0.At(a), mid.At(a), mid.chain.Nonce(a));
    }
  }

  /** Demotion and promotion without a cap lose exactly what is mined or can no longer be paid. */
  lemma UncappedCarries(x: Acct, a: Address, nonce: int, l: Limits, t: Tx)
    requires Loose(x, a)
    ensures Carries(Promoted(Demoted(x, nonce, l), nonce, l, None), t)
            <==> Carries(x, t) && t.nonce >= nonce && Fits(t, l)
  {
    hide Fits, Promoted, RunEnd, Start, Highest, Blocked;
    var y := Demoted(x, nonce, l);
    DemotedLoose(x, a, nonce, l);
    DemotedCarries(x, a, nonce, l, t);
    PromotedDrops(y, a, nonce, l, None, t);
    SurvivingParts(x, a, nonce, l);
    assert Holds(y.pending, t) ==> t.nonce >= nonce && Fits(t, l);
    assert Holds(y.queue, t) ==>
             (t.nonce >= nonce && Fits(t, l)
              <==> !Holds(Below(y.queue, nonce), t) && !Holds(Unpayable(From(y.queue, nonce), l), t));
  }

  /** A reset leaves a local account exactly the transactions that are neither mined nor unpayable, whatever the limits
      make of the others. */
  lemma LocalsKeepEverything(mid: View, known: set<Tx>, ph: Phases, w: View, known': set<Tx>, locals: set<Address>,
                             c: Config, t: Tx)
    requires Consistent(mid, known) && Consistent(w, known') && ph.ready.chain == mid.chain
    requires forall a :: ph.ready.At(a) == Promoted(DemotedAt(mid, a), mid.chain.Nonce(a), mid.chain.LimitsOf(a),
                                                    QueueCap(locals, c, a))
    requires Limited(ph, w, locals, c) && t.sender in locals
    ensures t in known' <==> t in known && Current(mid.chain, t)
  {
    hide Fits, Promoted, Demoted, Limited, Carries, Loose;
    var a := t.sender;
    var n, l := mid.chain.Nonce(a), mid.chain.LimitsOf(a);
    assert mid.LooseAt(a) && (t in known <==> Carries(mid.At(a), t)) && (t in known' <==> Carries(w.At(a), t));
    CurrentFits(mid.chain, t);
    UncappedCarries(mid.At(a), a, n, l, t);
    DemotedLoose(mid.At(a), a, n, l);
    PromotedLoose(DemotedAt(mid, a), a, n, l, None);
    LimitedLocal(ph, w, locals, c, a);
  }

  lemma DemotedRemote(v: View, known: set<Tx>, a: Address)
    requires Consistent(v, known)
    ensures Loose(DemotedAt(v, a), a)
  {
    hide Demoted, Loose;
    assert v.LooseAt(a);
    DemotedLoose(v.At(a), a, v.chain.Nonce(a), v.chain.LimitsOf(a));
  }

  // ---- runs ------------------------------------------------------------------------------------------

  datatype Op = Submit(txs: seq<Tx>, local: bool, now: int) | Withdraw(tx: Tx) | Price(price: int) | Evict(now: int)
              | Head(head: ChainState, reinject: seq<Tx>, now: int)

  /** The transactions an operation brings in. */
  function Incoming(op: Op): seq<Tx> { if op.Submit? then op.txs else if op.Head? then op.reinject else [] }

  function AllIncoming(ops: seq<Op>): seq<Tx> {
    if ops == [] then [] else AllIncoming(ops[..|ops| - 1]) + Incoming(ops[|ops| - 1])
  }

  function HeadAfter(c: ChainState, op: Op): ChainState { if op.Head? then op.head else c }

  /** A new head that lowers an account's nonce reinjects nothing. */
  ghost predicate SteadyAt(c: ChainState, op: Op) {
    op.Head? && op.reinject != [] ==> forall a :: c.Nonce(a) <= op.head.Nonce(a)
  }

  ghost predicate Steady(c: ChainState, ops: seq<Op>)
    decreases |ops|
  {
    ops == [] || (SteadyAt(c, ops[0]) && Steady(HeadAfter(c, ops[0]), ops[1..]))
  }

  ghost predicate Quiet(ops: seq<Op>) { forall op :: op in ops && op.Head? ==> op.reinject == [] }

  lemma {:induction false} IncomingFrom(ops: seq<Op>, i: nat)
    requires i < |ops|
    ensures exists rest :: AllIncoming(ops) == AllIncoming(ops[..i]) + Incoming(ops[i]) + rest
  {
    hide Incoming;
    var last := |ops| - 1;
    var r, y := ops[..last], Incoming(ops[last]);
    assert AllIncoming(ops) == AllIncoming(r) + y;
    if i == last {
      assert AllIncoming(ops) == AllIncoming(ops[..i]) + Incoming(ops[i]) + [];
    } else {
      IncomingFrom(r, i);
      assert r[..i] == ops[..i] && r[i] == ops[i];
      var before := AllIncoming(ops[..i]) + Incoming(ops[i]);
      var rest :| AllIncoming(r) == before + rest;
      assert before + rest + y == before + (rest + y);
    }
  }

  lemma IncomingHead(op: Op)
    ensures op.Head? ==> Incoming(op) == op.reinject
  {}

  lemma AllIncomingLast(ops: seq<Op>, i: nat)
    requires i < |ops|
    ensures AllIncoming(ops[..i + 1]) == AllIncoming(ops[..i]) + Incoming(ops[i])
  {
    assert ops[..i + 1][..i] == ops[..i];
  }

  lemma IncomingStep(ops: seq<Op>, i: nat)
    requires i < |ops|
    ensures AllIncoming(ops[..i + 1]) == AllIncoming(ops[..i]) + Incoming(ops[i])
    ensures Encodable(AllIncoming(ops)) ==> Encodable(Incoming(ops[i]))
  {
    hide AllIncoming, Incoming;
    AllIncomingLast(ops, i);
    IncomingFrom(ops, i);
    var rest :| AllIncoming(ops) == AllIncoming(ops[..i]) + Incoming(ops[i]) + rest;
  }

  /** A new head that brings transactions back finds room for them, in a pool that began with n. */
  ghost predicate CalmAt(ops: seq<Op>, i: nat, n: nat, limit: nat)
    requires i < |ops|
  {
    ops[i].Head? && ops[i].reinject != [] ==> n + |AllIncoming(ops[..i + 1])| <= limit
  }

  ghost predicate Calm(ops: seq<Op>, from: nat, n: nat, limit: nat) {
    forall i :: from <= i < |ops| ==> CalmAt(ops, i, n, limit)
  }

  lemma {:induction false} QuietIsCalm(c: ChainState, ops: seq<Op>, n: nat, limit: nat)
    requires Quiet(ops)
    ensures Steady(c, ops) && Calm(ops, 0, n, limit)
    decreases |ops|
  {
    if ops != [] {
      assert ops[0] in ops;
      QuietIsCalm(HeadAfter(c, ops[0]), ops[1..], n, limit);
    }
    forall i | 0 <= i < |ops| ensures CalmAt(ops, i, n, limit) { assert ops[i] in ops; }
  }

  /** After i operations on a pool without gaps every account is in order, if it was so at the beginning or there was
      a new head, and all has been calm since. */
  ghost predicate Recovered(before: bool, ops: seq<Op>, i: nat, n: nat, limit: nat, after: bool)
    requires i <= |ops|
  {
    && (before && Calm(ops, 0, n, limit) ==> after)
    && forall k :: 0 <= k < i && ops[k].Head? && Calm(ops, k, n, limit) ==> after
  }

  lemma RecoveredStep(before: bool, ops: seq<Op>, i: nat, n: nat, limit: nat, was: bool, after: bool)
    requires i < |ops| && Recovered(before, ops, i, n, limit, was)
    requires if ops[i].Head? then CalmAt(ops, i, n, limit) ==> after else was ==> after
    ensures Recovered(before, ops, i + 1, n, limit, after)
  {
    hide CalmAt;
  }

  lemma AllSoundGapless(v: View)
    requires AllSound(v)
    ensures AllGapless(v)
  {
    hide Sound, Gapless;
    forall a ensures v.GaplessAt(a) {
      assert v.SoundAt(a);
      SoundIsGapless(v.At(a), a, v.chain.Nonce(a), v.chain.LimitsOf(a));
    }
  }

  /** What a new head means for a pool without gaps: it stays one, and if nothing is brought back, every account is in
      order afterwards. */
  lemma Outcomes(v0: View, mid: View, ready: View, w: View, op: Op)
    requires op.Head? && mid.chain == op.head && (op.reinject == [] ==> mid == Moved(v0, op.head))
    requires AllGapless(v0) && forall a :: v0.GaplessAt(a) ==> Outcome(v0, mid, ready, w, a)
    ensures SteadyAt(v0.chain, op) ==> AllGapless(w)
    ensures op.reinject == [] ==> AllSound(w)
  {
    hide Torn, MinedKept, Gapless, Sound;
    forall a ensures SteadyAt(v0.chain, op) ==> w.GaplessAt(a) {
      assert v0.GaplessAt(a);
      assert Outcome(v0, mid, ready, w, a);
    }
    forall a ensures op.reinject == [] ==> w.SoundAt(a) {
      assert v0.GaplessAt(a);
      assert Outcome(v0, mid, ready, w, a);
    }
  }
}
