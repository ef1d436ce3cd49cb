/** What pool operations can do to one account while the chain state stays the same. */
module PoolSteps {
  import opened Options
  import opened Transactions
  import opened AccountLists
  import opened PoolAccounts

  /** A transaction comes in, one is taken out, the account is promoted, its pending list is cut from
      the top, or its queue is. */
  datatype Step = Submit(tx: Tx) | Evict(nonce: int) | Promote(cap: Option<nat>) | Cut(kept: nat) | Trim(kept: nat)

  /** Only validated transactions come in. */
  ghost predicate Possible(a: Address, nonce: int, l: Limits, step: Step) {
    step.Submit? ==> step.tx.sender == a && nonce <= step.tx.nonce && Fits(step.tx, l)
  }

  function Do(x: Acct, nonce: int, l: Limits, step: Step): Acct {
    match step
    case Submit(tx) => Submitted(x, tx)
    case Evict(n) => Without(x, n)
    case Promote(cap) => Promoted(x, nonce, l, cap)
    case Cut(kept) => CutPending(x, kept)
    case Trim(kept) => x.(queue := Lowest(x.queue, kept))
  }

  lemma LowestIsPart(m: TxMap, a: Address, k: nat)
    requires Filed(m, a)
    ensures Filed(Lowest(m, k), a) && forall n :: n in Lowest(m, k) ==> n in m && Lowest(m, k)[n] == m[n]
  {
    if k <= |m| { FlatLowest(m, k); } else { LowestAll(m, k); }
  }

  lemma StepLoose(x: Acct, a: Address, nonce: int, l: Limits, step: Step)
    requires Loose(x, a) && Possible(a, nonce, l, step)
    ensures Loose(Do(x, nonce, l, step), a)
  {
    hide Fits, Submitted, Without, Promoted, CutPending, Lowest;
    match step {
      case Submit(tx) => AddedLoose(x, a, tx);
      case Evict(n) => RemovedLoose(x, a, n);
      case Promote(cap) => PromotedLoose(x, a, nonce, l, cap);
      case Cut(kept) => CutLoose(x, a, kept);
      case Trim(kept) => LowestIsPart(x.queue, a, kept);
    }
  }

  lemma StepSound(x: Acct, a: Address, nonce: int, l: Limits, step: Step)
    requires Sound(x, a, nonce, l) && Possible(a, nonce, l, step)
    ensures Sound(Do(x, nonce, l, step), a, nonce, l)
  {
    hide Fits, Submitted, Without, Promoted, CutPending, Lowest;
    match step {
      case Submit(tx) => AddedSound(x, a, nonce, l, tx);
      case Evict(n) => RemovedSound(x, a, nonce, l, n);
      case Promote(cap) => SoundIsUnswept(x, a, nonce, l); PromotedSound(x, a, nonce, l, cap);
      case Cut(kept) => CutSound(x, a, nonce, l, kept);
      case Trim(kept) => LowestIsPart(x.queue, a, kept);
    }
  }

  lemma AddedGapless(x: Acct, a: Address, nonce: int, tx: Tx)
    requires Gapless(x, a, nonce) && tx.sender == a && nonce <= tx.nonce
    ensures Gapless(Submitted(x, tx), a, nonce)
  {}

  lemma RemovedGapless(x: Acct, a: Address, nonce: int, n: int)
    requires Gapless(x, a, nonce)
    ensures Gapless(Without(x, n), a, nonce)
  {}

  lemma CutGapless(x: Acct, a: Address, nonce: int, k: nat)
    requires Gapless(x, a, nonce)
    ensures Gapless(CutPending(x, k), a, nonce)
  {
    hide CutPending, Lowest, Flat;
    if k < |x.pending| { CutParts(x, a, k); } else { CutNothing(x, a, k); }
  }

  lemma StepGapless(x: Acct, a: Address, nonce: int, l: Limits, step: Step)
    requires Gapless(x, a, nonce) && Possible(a, nonce, l, step)
    ensures Gapless(Do(x, nonce, l, step), a, nonce)
  {
    hide Fits, Submitted, Without, Promoted, CutPending, Lowest;
    match step {
      case Submit(tx) => AddedGapless(x, a, nonce, tx);
      case Evict(n) => RemovedGapless(x, a, nonce, n);
      case Promote(cap) => PromotedGapless(x, a, nonce, l, cap);
      case Cut(kept) => CutGapless(x, a, nonce, kept);
      case Trim(kept) => LowestIsPart(x.queue, a, kept);
    }
  }

  // ---- courses -----------------------------------------------------------------------------------

  function DoAll(x: Acct, nonce: int, l: Limits, steps: seq<Step>): Acct
    decreases |steps|
  {
    if steps == [] then x else DoAll(Do(x, nonce, l, steps[0]), nonce, l, steps[1..])
  }

  ghost predicate AllPossible(a: Address, nonce: int, l: Limits, steps: seq<Step>) {
    forall i :: 0 <= i < |steps| ==> Possible(a, nonce, l, steps[i])
  }

  /** y is reached from x by possible steps. */
  ghost predicate Course(x: Acct, y: Acct, a: Address, nonce: int, l: Limits) {
    exists steps :: AllPossible(a, nonce, l, steps) && y == DoAll(x, nonce, l, steps)
  }

  lemma CourseNone(x: Acct, a: Address, nonce: int, l: Limits)
    ensures Course(x, x, a, nonce, l)
  {
    assert AllPossible(a, nonce, l, []) && x == DoAll(x, nonce, l, []);
  }

  lemma CourseStep(x: Acct, a: Address, nonce: int, l: Limits, step: Step)
    requires Possible(a, nonce, l, step)
    ensures Course(x, Do(x, nonce, l, step), a, nonce, l)
  {
    hide Do, Possible;
    assert AllPossible(a, nonce, l, [step]);
    assert DoAll(x, nonce, l, [step]) == DoAll(Do(x, nonce, l, step), nonce, l, []);
  }

  lemma {:induction false} DoAllAppend(x: Acct, nonce: int, l: Limits, s: seq<Step>, t: seq<Step>)
    ensures DoAll(x, nonce, l, s + t) == DoAll(DoAll(x, nonce, l, s), nonce, l, t)
    decreases |s|
  {
    hide Do;
    if s == [] {
      assert s + t == t;
    } else {
      assert (s + t)[1..] == s[1..] + t;
      DoAllAppend(Do(x, nonce, l, s[0]), nonce, l, s[1..], t);
    }
  }

  lemma CourseTwice(x: Acct, y: Acct, z: Acct, a: Address, nonce: int, l: Limits)
    requires Course(x, y, a, nonce, l) && Course(y, z, a, nonce, l)
    ensures Course(x, z, a, nonce, l)
  {
    hide DoAll, Possible;
    var s :| AllPossible(a, nonce, l, s) && y == DoAll(x, nonce, l, s);
    var t :| AllPossible(a, nonce, l, t) && z == DoAll(y, nonce, l, t);
    DoAllAppend(x, nonce, l, s, t);
    assert AllPossible(a, nonce, l, s + t);
  }

  lemma {:induction false} DoAllKeeps(x: Acct, a: Address, nonce: int, l: Limits, steps: seq<Step>)
    requires AllPossible(a, nonce, l, steps)
    ensures var y := DoAll(x, nonce, l, steps);
            && (Loose(x, a) ==> Loose(y, a)) && (Gapless(x, a, nonce) ==> Gapless(y, a, nonce))
            && (Sound(x, a, nonce, l) ==> Sound(y, a, nonce, l))
    decreases |steps|
  {
    hide Do, Possible, Loose, Gapless, Sound;
    if steps != [] {
      if Loose(x, a) { StepLoose(x, a, nonce, l, steps[0]); }
      if Gapless(x, a, nonce) { StepGapless(x, a, nonce, l, steps[0]); }
      if Sound(x, a, nonce, l) { StepSound(x, a, nonce, l, steps[0]); }
      DoAllKeeps(Do(x, nonce, l, steps[0]), a, nonce, l, steps[1..]);
    }
  }

  /** Whatever the course, an account that is loose, without gaps or in order remains so. */
  lemma CourseKeeps(x: Acct, y: Acct, a: Address, nonce: int, l: Limits)
    requires Course(x, y, a, nonce, l)
    ensures Loose(x, a) ==> Loose(y, a)
    ensures Gapless(x, a, nonce) ==> Gapless(y, a, nonce)
    ensures Sound(x, a, nonce, l) ==> Sound(y, a, nonce, l)
  {
    hide DoAll, Loose, Gapless, Sound;
    var steps :| AllPossible(a, nonce, l, steps) && y == DoAll(x, nonce, l, steps);
    DoAllKeeps(x, a, nonce, l, steps);
  }
}
