/** Gas accounting: intrinsic gas, the block gas pool, the state transition of one message
    and the processing of a whole block. The virtual machine is an arbitrary function of
    the gas it is given that hands back no more than that. */
module Gas {
  import opened Options
  import opened Transactions

  const MAX_UINT64: nat := 0xFFFF_FFFF_FFFF_FFFF
  const TX_GAS: nat := 21000
  const TX_GAS_CONTRACT_CREATION: nat := 53000
  const TX_DATA_ZERO_GAS: nat := 4
  const TX_DATA_NON_ZERO_GAS: nat := 68

  // ---- intrinsic gas ----------------------------------------------------------------------

  function NonZeros(data: seq<Byte>): (n: nat)
    ensures n <= |data|
  {
    if data == [] then 0
    else NonZeros(data[..|data| - 1]) + if data[|data| - 1] != 0 then 1 else 0
  }

  /** The price of a message before it runs, as an exact integer. */
  function IntrinsicCost(data: seq<Byte>, creation: bool, homestead: bool): nat {
    (if creation && homestead then TX_GAS_CONTRACT_CREATION else TX_GAS)
    + TX_DATA_NON_ZERO_GAS * NonZeros(data) + TX_DATA_ZERO_GAS * (|data| - NonZeros(data))
  }

  /** The positions of the bytes that are not zero. */
  ghost function NonZeroAt(data: seq<Byte>): set<int> { set i | 0 <= i < |data| && data[i] != 0 }

  lemma {:induction false} NonZerosAre(data: seq<Byte>)
    ensures NonZeros(data) == |NonZeroAt(data)|
  {
    if data != [] {
      var n := |data| - 1;
      NonZerosAre(data[..n]);
      assert NonZeroAt(data) == NonZeroAt(data[..n]) + if data[n] != 0 then {n} else {};
    }
  }

  /** None stands for the out-of-gas error; slice lengths fit in 64 bits. */
  method IntrinsicGas(data: seq<Byte>, creation: bool, homestead: bool) returns (r: Option<nat>)
    requires |data| <= MAX_UINT64
    ensures r == if IntrinsicCost(data, creation, homestead) <= MAX_UINT64
                 then Some(IntrinsicCost(data, creation, homestead)) else None
    ensures var nz := |NonZeroAt(data)|;
            var cost := (if creation && homestead then 53000 else 21000) + 68 * nz + 4 * (|data| - nz);
            r == if cost < 0x1_0000_0000_0000_0000 then Some(cost) else None
  {
    NonZerosAre(data);
    var gas := if creation && homestead then TX_GAS_CONTRACT_CREATION else TX_GAS;
    if |data| > 0 {
      var nz := 0;
      for i := 0 to |data|
        invariant nz == NonZeros(data[..i])
      {
        assert data[..i + 1][..i] == data[..i];
        if data[i] != 0 { nz := nz + 1; }
      }
      assert data[..|data|] == data;
      if (MAX_UINT64 - gas) / TX_DATA_NON_ZERO_GAS < nz { return None; }
      gas := gas + nz * TX_DATA_NON_ZERO_GAS;
      var z := |data| - nz;
      if (MAX_UINT64 - gas) / TX_DATA_ZERO_GAS < z { return None; }
      gas := gas + z * TX_DATA_ZERO_GAS;
    }
    return Some(gas);
  }

  // ---- one message ----------------------------------------------------------------------------

  /** AddGas panics on overflow, so not overflowing is what its callers owe. */
  class GasPool {
    var gas: nat

    constructor ()
      ensures gas == 0
    {
      gas := 0;
    }

    method AddGas(amount: nat)
      requires gas + amount <= MAX_UINT64
      modifies this
      ensures gas == old(gas) + amount
    {
      gas := gas + amount;
    }

    method SubGas(amount: nat) returns (ok: bool)
      modifies this
      ensures ok <==> amount <= old(gas)
      ensures gas == if ok then old(gas) - amount else old(gas)
    {
      ok := amount <= gas;
      if ok { gas := gas - amount; }
    }
  }

  datatype Message = Message(from: Address, nonce: nat, checkNonce: bool, gas: nat, price: nat,
                             data: seq<Byte>, creation: bool)
  {
    ghost predicate Valid() { gas <= MAX_UINT64 && |data| <= MAX_UINT64 }
  }

  function Fee(gas: nat, price: nat): int { gas * price }

  lemma FeeSplit(bought: nat, used: nat, price: nat)
    requires used <= bought
    ensures Fee(bought, price) == Fee(used, price) + Fee(bought - used, price)
  {
    assert bought * price == used * price + (bought - used) * price;
  }

  /** Powers after adding up two ledgers, and after one account's entry changes. */
  function Plus(p: Address -> int, q: Address -> int): Address -> int { a => p(a) + q(a) }
  function Credit(p: Address -> int, who: Address, x: int): Address -> int { a => if a == who then p(a) + x else p(a) }

  datatype Outcome = Ran | Reverted | InsufficientBalance

  /** What the virtual machine leaves behind: unused gas, the refund counter, and what it did
      to every account's power on its own account. */
  datatype Execution = Execution(left: nat, refund: nat, power: Address -> int, outcome: Outcome)

  /** A machine returns no more gas than it is given. */
  ghost predicate Frugal(run: nat -> Execution) { forall g: nat :: run(g).left <= g }

  datatype Error = NonceTooHigh | NonceTooLow | InsufficientPower | GasLimitReached
                 | IntrinsicOverflow | OutOfGas | CannotTransfer

  datatype Applied = Done(used: nat, failed: bool) | Refused(error: Error)

  function Min(a: int, b: int): int { if a <= b then a else b }

  /** Of what was spent as much is given back as the counter says, but no more than half. */
  ghost predicate Refunded(spent: int, counter: nat, used: int) {
    var back := spent - used;
    0 <= back <= counter && 2 * back <= spent && (back == counter || spent <= 2 * back + 1)
  }

  /** The gas a message pays for: what is gone when the machine stops, less the refund,
      which is capped at half of it. */
  ghost function GasCharged(msg: Message, homestead: bool, run: nat -> Execution): (used: nat)
    requires Frugal(run) && IntrinsicCost(msg.data, msg.creation, homestead) <= msg.gas
    ensures used <= msg.gas
  {
    var after := run(msg.gas - IntrinsicCost(msg.data, msg.creation, homestead));
    var spent := msg.gas - after.left;
    spent - Min(spent / 2, after.refund)
  }

  lemma ChargeIsRefunded(msg: Message, homestead: bool, run: nat -> Execution)
    requires Frugal(run) && IntrinsicCost(msg.data, msg.creation, homestead) <= msg.gas
    ensures var after := run(msg.gas - IntrinsicCost(msg.data, msg.creation, homestead));
            Refunded(msg.gas - after.left, after.refund, GasCharged(msg, homestead, run))
  {
    hide IntrinsicCost;
  }

  /** msg went through and used gas: what it was charged, and what that did to everybody's power. */
  ghost predicate Settled(msg: Message, homestead: bool, run: nat -> Execution, used: nat,
                          p0: Address -> int, p1: Address -> int)
  {
    var cost := IntrinsicCost(msg.data, msg.creation, homestead);
    && Frugal(run) && cost <= msg.gas && used == GasCharged(msg, homestead, run)
    && forall a :: p1(a) == p0(a) + run(msg.gas - cost).power(a) - if a == msg.from then Fee(used, msg.price) else 0
  }

  /** Why a message is refused, if it is: the first of the checks it fails, of which the last three come after its gas
      has been bought. */
  ghost function Refusal(msg: Message, stateNonce: nat, homestead: bool, run: nat -> Execution,
                         p: Address -> int, blockGas: nat): Option<Error>
  {
    var cost := IntrinsicCost(msg.data, msg.creation, homestead);
    if msg.checkNonce && stateNonce < msg.nonce then Some(NonceTooHigh)
    else if msg.checkNonce && stateNonce > msg.nonce then Some(NonceTooLow)
    else if p(msg.from) < Fee(msg.gas, msg.price) then Some(InsufficientPower)
    else if blockGas < msg.gas then Some(GasLimitReached)
    else if cost > MAX_UINT64 then Some(IntrinsicOverflow)
    else if cost > msg.gas then Some(OutOfGas)
    else if run(msg.gas - cost).outcome == InsufficientBalance then Some(CannotTransfer)
    else None
  }

  /** What is wrong with a message that is refused. */
  ghost predicate Blamed(msg: Message, stateNonce: nat, homestead: bool, run: nat -> Execution, p: Address -> int,
                         blockGas: nat, error: Error) {
    var cost := IntrinsicCost(msg.data, msg.creation, homestead);
    match error
    case NonceTooHigh => msg.checkNonce && stateNonce < msg.nonce
    case NonceTooLow => msg.checkNonce && msg.nonce < stateNonce
    case InsufficientPower => p(msg.from) < msg.gas * msg.price
    case GasLimitReached => blockGas < msg.gas
    case IntrinsicOverflow => cost >= 0x1_0000_0000_0000_0000
    case OutOfGas => msg.gas < cost
    case CannotTransfer => cost <= msg.gas && run(msg.gas - cost).outcome == InsufficientBalance
  }

  lemma RefusalBlames(msg: Message, stateNonce: nat, homestead: bool, run: nat -> Execution, p: Address -> int,
                      blockGas: nat)
    ensures var e := Refusal(msg, stateNonce, homestead, run, p, blockGas);
            e.Some? ==> Blamed(msg, stateNonce, homestead, run, p, blockGas, e.value)
  {
    hide IntrinsicCost;
  }

  lemma SettledPays(msg: Message, homestead: bool, run: nat -> Execution, used: nat, p0: Address -> int,
                    p1: Address -> int)
    requires Settled(msg, homestead, run, used, p0, p1)
    ensures var cost := IntrinsicCost(msg.data, msg.creation, homestead);
            && cost <= msg.gas
            && var after := run(msg.gas - cost);
               && Refunded(msg.gas - after.left, after.refund, used)
               && forall a :: p1(a) == p0(a) + after.power(a) - if a == msg.from then used * msg.price else 0
  {
    hide IntrinsicCost, Refunded, GasCharged;
    ChargeIsRefunded(msg, homestead, run);
  }

  /** What a refused message leaves: everything as it was, or the block without the gas and the sender without the power
      that the purchase took, whatever the machine did to it besides. */
  ghost predicate Withheld(msg: Message, homestead: bool, run: nat -> Execution, error: Error,
                           p0: Address -> int, p1: Address -> int, gas0: nat, gas1: nat)
  {
    if error in {NonceTooHigh, NonceTooLow, InsufficientPower, GasLimitReached} then p1 == p0 && gas1 == gas0
    else
      var cost := IntrinsicCost(msg.data, msg.creation, homestead);
      && gas1 == gas0 - msg.gas
      && forall a :: p1(a) == p0(a) - (if a == msg.from then Fee(msg.gas, msg.price) else 0)
                              + if error == CannotTransfer && cost <= msg.gas then run(msg.gas - cost).power(a) else 0
  }

  /** The purchase, the machine's own effect, and for a message that goes through the refund. */
  lemma AfterPurchase(msg: Message, homestead: bool, run: nat -> Execution, r: Applied,
                      p0: Address -> int, p: Address -> int, p1: Address -> int)
    requires Frugal(run) && p == Credit(p0, msg.from, -Fee(msg.gas, msg.price))
    requires var cost := IntrinsicCost(msg.data, msg.creation, homestead);
             if cost > msg.gas then r.Refused? && r.error in {IntrinsicOverflow, OutOfGas} && p1 == p
             else if r.Refused? then r.error == CannotTransfer && p1 == Plus(p, run(msg.gas - cost).power)
             else && r.used == GasCharged(msg, homestead, run)
                  && p1 == Credit(Plus(p, run(msg.gas - cost).power), msg.from, Fee(msg.gas - r.used, msg.price))
    ensures r.Done? ==> Settled(msg, homestead, run, r.used, p0, p1)
    ensures r.Refused? ==>
              forall g0: nat, g1: nat :: g1 == g0 - msg.gas ==> Withheld(msg, homestead, run, r.error, p0, p1, g0, g1)
  {
    hide Fee, IntrinsicCost, GasCharged;
    if r.Done? { FeeSplit(msg.gas, r.used, msg.price); }
  }

  class StateTransition {
    const gp: GasPool
    const msg: Message
    var gas: nat
    var initialGas: nat
    var power: Address -> int

    constructor (gp: GasPool, msg: Message, power: Address -> int)
      ensures this.gp == gp && this.msg == msg && this.power == power && gas == 0 && initialGas == 0
    {
      this.gp, this.msg, this.power, gas, initialGas := gp, msg, power, 0, 0;
    }

    /** The power is checked before the block's gas is touched. */
    method BuyGas() returns (r: Option<Error>)
      requires gas == 0
      modifies this, gp
      ensures r == if old(power)(msg.from) < Fee(msg.gas, msg.price) then Some(InsufficientPower)
                   else if old(gp.gas) < msg.gas then Some(GasLimitReached) else None
      ensures r.Some? ==> gp.gas == old(gp.gas) && power == old(power) && gas == 0
      ensures r.None? ==> gp.gas == old(gp.gas) - msg.gas && gas == initialGas == msg.gas
      ensures r.None? ==> power == Credit(old(power), msg.from, -Fee(msg.gas, msg.price))
    {
      if power(msg.from) < Fee(msg.gas, msg.price) { return Some(InsufficientPower); }
      var ok := gp.SubGas(msg.gas);
      if !ok { return Some(GasLimitReached); }
      gas := gas + msg.gas;
      initialGas := msg.gas;
      power := Credit(power, msg.from, -Fee(msg.gas, msg.price));
      r := None;
    }

    /** Refund, return the unused gas to the sender's power and to the block. */
    method RefundGas(refundCounter: nat)
      requires gas <= initialGas && gp.gas + initialGas <= MAX_UINT64
      modifies this, gp
      ensures initialGas == old(initialGas)
      ensures gas == old(gas) + Min((initialGas - old(gas)) / 2, refundCounter) <= initialGas
      ensures gp.gas == old(gp.gas) + gas
      ensures power == Credit(old(power), msg.from, Fee(gas, msg.price))
    {
      var refund := (initialGas - gas) / 2;
      if refund > refundCounter { refund := refundCounter; }
      gas := gas + refund;
      power := Credit(power, msg.from, Fee(gas, msg.price));
      gp.AddGas(gas);
    }

    method PreCheck(stateNonce: nat) returns (r: Option<Error>)
      requires gas == 0
      modifies this, gp
      ensures r == if msg.checkNonce && stateNonce < msg.nonce then Some(NonceTooHigh)
                   else if msg.checkNonce && stateNonce > msg.nonce then Some(NonceTooLow)
                   else if old(power)(msg.from) < Fee(msg.gas, msg.price) then Some(InsufficientPower)
                   else if old(gp.gas) < msg.gas then Some(GasLimitReached) else None
      ensures r.Some? ==> gp.gas == old(gp.gas) && power == old(power)
      ensures r.None? ==> gp.gas == old(gp.gas) - msg.gas && gas == initialGas == msg.gas
      ensures r.None? ==> power == Credit(old(power), msg.from, -Fee(msg.gas, msg.price))
    {
      if msg.checkNonce {
        if stateNonce < msg.nonce { return Some(NonceTooHigh); }
        if stateNonce > msg.nonce { return Some(NonceTooLow); }
      }
      r := BuyGas();
    }

    /** Pay the intrinsic gas, run, and refund; the gas has been bought. */
    method Execute(homestead: bool, run: nat -> Execution) returns (r: Applied)
      requires msg.Valid() && Frugal(run) && gas == initialGas == msg.gas && gp.gas + msg.gas <= MAX_UINT64
      modifies this, gp
      ensures r.Refused? ==> gp.gas == old(gp.gas)
      ensures r == Refused(IntrinsicOverflow) <==> IntrinsicCost(msg.data, msg.creation, homestead) > MAX_UINT64
      ensures r in {Refused(IntrinsicOverflow), Refused(OutOfGas)} <==>
                IntrinsicCost(msg.data, msg.creation, homestead) > msg.gas
      ensures r.Refused? ==> r.error in {IntrinsicOverflow, OutOfGas, CannotTransfer}
      ensures IntrinsicCost(msg.data, msg.creation, homestead) <= msg.gas ==>
                var after := run(msg.gas - IntrinsicCost(msg.data, msg.creation, homestead));
                && (r.Refused? <==> after.outcome == InsufficientBalance)
                && (r.Done? ==> r.used == GasCharged(msg, homestead, run) && r.failed == (after.outcome == Reverted))
                && (r.Done? ==> gp.gas == old(gp.gas) + msg.gas - r.used)
                && (r.Done? ==>
                      power == Credit(Plus(old(power), after.power), msg.from, Fee(msg.gas - r.used, msg.price)))
                && (r.Refused? ==> power == Plus(old(power), after.power))
      ensures IntrinsicCost(msg.data, msg.creation, homestead) > msg.gas ==> power == old(power)
    {
      hide Fee, IntrinsicCost, Credit, Plus;
      var intrinsic := IntrinsicGas(msg.data, msg.creation, homestead);
      if intrinsic.None? { return Refused(IntrinsicOverflow); }
      if gas < intrinsic.value { return Refused(OutOfGas); }
      gas := gas - intrinsic.value;
      var after := run(gas);
      gas := after.left;
      power := Plus(power, after.power);
      if after.outcome == InsufficientBalance { return Refused(CannotTransfer); }
      RefundGas(after.refund);
      r := Done(initialGas - gas, after.outcome != Ran);
      assert gas == msg.gas - r.used;
    }

    /** A message that goes through takes from the block exactly the gas it is charged for, and
        from its sender's power exactly that much times the price. A message refused before the
        purchase changes nothing; one refused after it keeps the whole purchase. */
    method TransitionDb(stateNonce: nat, homestead: bool, run: nat -> Execution) returns (r: Applied)
      requires msg.Valid() && gas == 0 && gp.gas <= MAX_UINT64 && Frugal(run)
      modifies this, gp
      ensures Refusal(msg, stateNonce, homestead, run, old(power), old(gp.gas))
              == if r.Refused? then Some(r.error) else None
      ensures r.Refused? ==> Withheld(msg, homestead, run, r.error, old(power), power, old(gp.gas), gp.gas)
      ensures r.Done? ==> Settled(msg, homestead, run, r.used, old(power), power) && gp.gas == old(gp.gas) - r.used
      ensures r.Done? ==>
                r.failed == (run(msg.gas - IntrinsicCost(msg.data, msg.creation, homestead)).outcome == Reverted)
      ensures r.Done? ==>
                var after := run(msg.gas - IntrinsicCost(msg.data, msg.creation, homestead));
                && Refunded(msg.gas - after.left, after.refund, r.used)
                && forall a :: power(a)
                               == old(power)(a) + after.power(a) - if a == msg.from then r.used * msg.price else 0
      ensures r.Refused? ==> Blamed(msg, stateNonce, homestead, run, old(power), old(gp.gas), r.error)
    {
      hide Fee, IntrinsicCost, GasCharged, Settled, Credit, Plus, Refunded, Blamed;
      RefusalBlames(msg, stateNonce, homestead, run, power, gp.gas);
      var refused := PreCheck(stateNonce);
      if refused.Some? { return Refused(refused.value); }
      ghost var p := power;
      r := Execute(homestead, run);
      AfterPurchase(msg, homestead, run, r, old(power), p, power);
      if r.Done? { SettledPays(msg, homestead, run, r.used, old(power), power); }
    }
  }

  // ---- a whole block -----------------------------------------------------------------------------

  datatype Receipt = Receipt(cumulative: nat, gasUsed: nat, failed: bool)

  function TotalUsed(rs: seq<Receipt>): nat {
    if rs == [] then 0 else TotalUsed(rs[..|rs| - 1]) + rs[|rs| - 1].gasUsed
  }

  /** What the fees of a block took from one account. */
  function TotalFees(msgs: seq<Message>, rs: seq<Receipt>, a: Address): int
    requires |msgs| == |rs|
  {
    if rs == [] then 0 else
      var last := |rs| - 1;
      TotalFees(msgs[..last], rs[..last], a)
      + if msgs[last].from == a then Fee(rs[last].gasUsed, msgs[last].price) else 0
  }

  /** What the machine itself did to one account's power over a block. */
  ghost function TotalEffect(msgs: seq<Message>, homestead: bool, runs: nat -> nat -> Execution, a: Address): int {
    if msgs == [] then 0 else
      var m := msgs[|msgs| - 1];
      var cost := IntrinsicCost(m.data, m.creation, homestead);
      TotalEffect(msgs[..|msgs| - 1], homestead, runs, a)
      + if cost <= m.gas then runs(|msgs| - 1)(m.gas - cost).power(a) else 0
  }

  /** Cumulative values are the running totals of the individual ones. */
  ghost predicate Accumulates(rs: seq<Receipt>) {
    forall i :: 0 <= i < |rs| ==> rs[i].cumulative == TotalUsed(rs[..i + 1])
  }

  datatype Processed = Accepted(receipts: seq<Receipt>, usedGas: nat) | Rejected(at: nat, error: Error)

  /** The books after the first |rs| messages of a block. */
  ghost predicate Balanced(msgs: seq<Message>, homestead: bool, runs: nat -> nat -> Execution, rs: seq<Receipt>,
                           p0: Address -> int, p: Address -> int)
    requires forall i: nat :: Frugal(runs(i))
  {
    && |rs| <= |msgs| && Accumulates(rs)
    && (forall k :: 0 <= k < |rs| ==>
          && IntrinsicCost(msgs[k].data, msgs[k].creation, homestead) <= msgs[k].gas
          && rs[k].gasUsed == GasCharged(msgs[k], homestead, runs(k)))
    && (forall a :: p(a) == p0(a) + TotalEffect(msgs[..|rs|], homestead, runs, a) - TotalFees(msgs[..|rs|], rs, a))
  }

  lemma TotalUsedStep(rs: seq<Receipt>, r: Receipt)
    ensures TotalUsed(rs + [r]) == TotalUsed(rs) + r.gasUsed
  {
    assert (rs + [r])[..|rs|] == rs;
  }

  lemma AccumulateStep(before: seq<Receipt>, r: Receipt)
    requires Accumulates(before) && r.cumulative == TotalUsed(before) + r.gasUsed
    ensures Accumulates(before + [r]) && TotalUsed(before + [r]) == r.cumulative
  {
    hide TotalUsed;
    TotalUsedStep(before, r);
    var after := before + [r];
    forall i | 0 <= i < |after| ensures after[i].cumulative == TotalUsed(after[..i + 1]) {
      if i < |before| { assert after[..i + 1] == before[..i + 1]; } else { assert after[..i + 1] == after; }
    }
  }

  lemma BlockStep(msgs: seq<Message>, i: nat, homestead: bool, runs: nat -> nat -> Execution,
                  before: seq<Receipt>, after: seq<Receipt>, a: Address)
    requires i < |msgs| && |before| == i && |after| == i + 1 && after[..i] == before
    requires IntrinsicCost(msgs[i].data, msgs[i].creation, homestead) <= msgs[i].gas
    ensures TotalFees(msgs[..i + 1], after, a)
         == TotalFees(msgs[..i], before, a) + if msgs[i].from == a then Fee(after[i].gasUsed, msgs[i].price) else 0
    ensures TotalEffect(msgs[..i + 1], homestead, runs, a)
         == TotalEffect(msgs[..i], homestead, runs, a)
            + runs(i)(msgs[i].gas - IntrinsicCost(msgs[i].data, msgs[i].creation, homestead)).power(a)
  {
    assert msgs[..i + 1][..i] == msgs[..i];
  }

  lemma BalancedStep(msgs: seq<Message>, homestead: bool, runs: nat -> nat -> Execution, rs: seq<Receipt>,
                     p0: Address -> int, p: Address -> int, r: Receipt, q: Address -> int)
    requires forall i: nat :: Frugal(runs(i))
    requires Balanced(msgs, homestead, runs, rs, p0, p) && |rs| < |msgs|
    requires Settled(msgs[|rs|], homestead, runs(|rs|), r.gasUsed, p, q)
    requires r.cumulative == TotalUsed(rs) + r.gasUsed
    ensures Balanced(msgs, homestead, runs, rs + [r], p0, q) && TotalUsed(rs + [r]) == r.cumulative
  {
    hide GasCharged, TotalEffect, TotalFees, IntrinsicCost, Fee, TotalUsed, Accumulates;
    var after := rs + [r];
    assert after[..|rs|] == rs;
    AccumulateStep(rs, r);
    forall a
      ensures q(a) == p0(a) + TotalEffect(msgs[..|after|], homestead, runs, a) - TotalFees(msgs[..|after|], after, a)
    {
      BlockStep(msgs, |rs|, homestead, runs, rs, after, a);
    }
  }

  /** One transaction of a block, against the block's gas pool and the current power. */
  method ApplyTransaction(gp: GasPool, msg: Message, stateNonce: nat, homestead: bool, run: nat -> Execution,
                          power: Address -> int, usedGas: nat)
    returns (receipt: Option<Receipt>, error: Option<Error>, after: Address -> int)
    requires msg.Valid() && gp.gas <= MAX_UINT64 && Frugal(run)
    modifies gp
    ensures receipt.Some? <==> error.None?
    ensures error == Refusal(msg, stateNonce, homestead, run, power, old(gp.gas))
    ensures error.Some? ==> Withheld(msg, homestead, run, error.value, power, after, old(gp.gas), gp.gas)
    ensures receipt.Some? ==> Settled(msg, homestead, run, receipt.value.gasUsed, power, after)
    ensures receipt.Some? ==> gp.gas == old(gp.gas) - receipt.value.gasUsed
    ensures receipt.Some? ==> receipt.value.cumulative == usedGas + receipt.value.gasUsed
    ensures receipt.Some? ==>
              var cost := IntrinsicCost(msg.data, msg.creation, homestead);
              receipt.value.failed == (run(msg.gas - cost).outcome == Reverted)
  {
    var st := new StateTransition(gp, msg, power);
    var applied := st.TransitionDb(stateNonce, homestead, run);
    after := st.power;
    if applied.Refused? { return None, Some(applied.error), after; }
    receipt, error := Some(Receipt(usedGas + applied.used, applied.used, applied.failed)), None;
  }

  lemma NothingYet(msgs: seq<Message>, homestead: bool, runs: nat -> nat -> Execution, p0: Address -> int)
    requires forall i: nat :: Frugal(runs(i))
    ensures Balanced(msgs, homestead, runs, [], p0, p0) && TotalUsed([]) == 0
  {}

  /** After every transaction of an accepted block, gas left plus gas used is the block's limit;
      every account's power has changed by the machine's own effect less its fees. A rejected block is rejected for
      the first message that is refused, on the books as those before it have left them. */
  method Process(msgs: seq<Message>, stateNonces: nat -> nat, gasLimit: nat, homestead: bool,
                 runs: nat -> nat -> Execution, power0: Address -> int)
    returns (r: Processed, left: nat, power: Address -> int, ghost before: seq<Receipt>, ghost books: Address -> int)
    requires gasLimit <= MAX_UINT64
    requires forall i :: 0 <= i < |msgs| ==> msgs[i].Valid()
    requires forall i: nat :: Frugal(runs(i))
    ensures r.Accepted? ==> left + r.usedGas == gasLimit && |r.receipts| == |msgs| && r.usedGas == TotalUsed(r.receipts)
    ensures r.Accepted? ==> Balanced(msgs, homestead, runs, r.receipts, power0, power)
    ensures r.Rejected? ==>
              && r.at == |before| < |msgs| && TotalUsed(before) <= gasLimit
              && Balanced(msgs, homestead, runs, before, power0, books)
              && Refusal(msgs[r.at], stateNonces(r.at), homestead, runs(r.at), books, gasLimit - TotalUsed(before))
                 == Some(r.error)
              && Withheld(msgs[r.at], homestead, runs(r.at), r.error, books, power, gasLimit - TotalUsed(before), left)
  {
    hide Balanced, Settled, TotalUsed, Refusal, Withheld;
    var gp := new GasPool();
    gp.AddGas(gasLimit);
    var receipts: seq<Receipt> := [];
    var usedGas := 0;
    power := power0;
    NothingYet(msgs, homestead, runs, power0);
    for i := 0 to |msgs|
      invariant gp.gas + usedGas == gasLimit && |receipts| == i
      invariant Balanced(msgs, homestead, runs, receipts, power0, power) && usedGas == TotalUsed(receipts)
    {
      var receipt, error, after := ApplyTransaction(gp, msgs[i], stateNonces(i), homestead, runs(i), power, usedGas);
      if error.Some? { return Rejected(i, error.value), gp.gas, after, receipts, power; }
      BalancedStep(msgs, homestead, runs, receipts, power0, power, receipt.value, after);
      usedGas := receipt.value.cumulative;
      receipts := receipts + [receipt.value];
      power := after;
    }
    return Accepted(receipts, usedGas), gp.gas, power, receipts, power;
  }

  // ---- recovering what is not stored ---------------------------------------------------------------

  function Cumulative(rs: seq<Receipt>): (r: seq<nat>)
    ensures |r| == |rs|
  {
    seq(|rs|, i requires 0 <= i < |rs| => rs[i].cumulative)
  }

  /** The difference of neighbouring running totals, in 64-bit arithmetic. */
  function Difference(cumulative: seq<nat>, k: nat): nat
    requires k < |cumulative|
  {
    if k == 0 then cumulative[0] else (cumulative[k] - cumulative[k - 1]) % (MAX_UINT64 + 1)
  }

  lemma DifferenceRecovers(rs: seq<Receipt>, k: nat)
    requires Accumulates(rs) && k < |rs| && rs[k].cumulative <= MAX_UINT64
    ensures Difference(Cumulative(rs), k) == rs[k].gasUsed
  {
    assert rs[..k + 1][..k] == rs[..k];
    assert rs[k].cumulative == TotalUsed(rs[..k]) + rs[k].gasUsed;
    assert Cumulative(rs)[k] == rs[k].cumulative;
    if k > 0 {
      assert Cumulative(rs)[k - 1] == rs[k - 1].cumulative == TotalUsed(rs[..k]);
    } else {
      assert rs[..0] == [];
    }
  }

  datatype BlockTx = BlockTx(hash: int, from: Address, nonce: nat, creation: bool)

  datatype Log = Log(blockNumber: nat, blockHash: int, txHash: int, txIndex: nat, index: nat)

  datatype Derived = Derived(txHash: int, contract: Option<Address>, gasUsed: nat, logs: seq<Log>)

  /** The logs of a block, one receipt after the other. */
  function AllLogs(ds: seq<Derived>): seq<Log> {
    if ds == [] then [] else AllLogs(ds[..|ds| - 1]) + ds[|ds| - 1].logs
  }

  lemma AllLogsStep(ds: seq<Derived>, d: Derived)
    ensures AllLogs(ds + [d]) == AllLogs(ds) + d.logs
  {
    assert (ds + [d])[..|ds|] == ds;
  }

  /** The logs of one receipt, numbered from a given index on. */
  method DeriveLogs(n: nat, number: nat, hash: int, txHash: int, txIndex: nat, from: nat) returns (logs: seq<Log>)
    ensures |logs| == n && forall k :: 0 <= k < n ==> logs[k] == Log(number, hash, txHash, txIndex, from + k)
  {
    logs := [];
    for k := 0 to n
      invariant |logs| == k && forall i :: 0 <= i < k ==> logs[i] == Log(number, hash, txHash, txIndex, from + i)
    {
      logs := logs + [Log(number, hash, txHash, txIndex, from + k)];
    }
  }

  lemma NoLogs()
    ensures AllLogs([]) == []
  {}

  /** What the receipts of a block leave out, from the block and their running totals: each receipt's own gas, and the
      position of each log, which are numbered through the whole block. There must be one for each transaction. */
  method SetReceiptsData(number: nat, hash: int, txs: seq<BlockTx>, cumulative: seq<nat>, logs: seq<nat>,
                         address: (Address, nat) -> Address) returns (r: Option<seq<Derived>>)
    requires |cumulative| == |logs| && forall i :: 0 <= i < |cumulative| ==> cumulative[i] <= MAX_UINT64
    ensures r.Some? <==> |txs| == |cumulative|
    ensures r.Some? ==> |r.value| == |txs| && forall j :: 0 <= j < |txs| ==>
              && r.value[j].txHash == txs[j].hash && |r.value[j].logs| == logs[j]
              && r.value[j].contract == (if txs[j].creation then Some(address(txs[j].from, txs[j].nonce)) else None)
              && forall l :: l in r.value[j].logs ==>
                   l.blockNumber == number && l.blockHash == hash && l.txHash == txs[j].hash && l.txIndex == j
    ensures r.Some? ==> forall i :: 0 <= i < |AllLogs(r.value)| ==> AllLogs(r.value)[i].index == i
    ensures r.Some? ==> forall rs: seq<Receipt> :: Accumulates(rs) && Cumulative(rs) == cumulative ==>
              forall j :: 0 <= j < |txs| ==> r.value[j].gasUsed == rs[j].gasUsed
  {
    hide Accumulates, AllLogs;
    if |txs| != |cumulative| { return None; }
    var ds: seq<Derived> := [];
    var logIndex := 0;
    assert AllLogs([]) == [] by { NoLogs(); }
    for j := 0 to |txs|
      invariant |ds| == j && logIndex == |AllLogs(ds)|
      invariant forall i :: 0 <= i < j ==>
                  && ds[i].txHash == txs[i].hash && |ds[i].logs| == logs[i]
                  && ds[i].gasUsed == Difference(cumulative, i)
                  && ds[i].contract == (if txs[i].creation then Some(address(txs[i].from, txs[i].nonce)) else None)
                  && forall l :: l in ds[i].logs ==>
                       l.blockNumber == number && l.blockHash == hash && l.txHash == txs[i].hash && l.txIndex == i
      invariant forall i :: 0 <= i < |AllLogs(ds)| ==> AllLogs(ds)[i].index == i
    {
      var contract := if txs[j].creation then Some(address(txs[j].from, txs[j].nonce)) else None;
      var gas := if j == 0 then cumulative[j] else (cumulative[j] - cumulative[j - 1]) % (MAX_UINT64 + 1);
      var own := DeriveLogs(logs[j], number, hash, txs[j].hash, j, logIndex);
      var d := Derived(txs[j].hash, contract, gas, own);
      AllLogsStep(ds, d);
      logIndex := logIndex + logs[j];
      ds := ds + [d];
    }
    forall rs: seq<Receipt>, j | Accumulates(rs) && Cumulative(rs) == cumulative && 0 <= j < |txs|
      ensures ds[j].gasUsed == rs[j].gasUsed
    {
      assert cumulative[j] == Cumulative(rs)[j] == rs[j].cumulative;
      DifferenceRecovers(rs, j);
    }
    r := Some(ds);
  }
}
