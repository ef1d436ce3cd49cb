/** What equalising the pending lists promises: a common level to which every remote account
    above its guaranteed slots is cut, chosen as high as the global limit allows. */
module Fairness {
  import opened Sorting
  import opened Sequences
  import opened Sets
  import opened Transactions
  import opened PoolAccounts
  import opened PoolViews

  function Size(t: Table, a: Address): nat { |ListOf(t, a)| }

  predicate Offends(t: Table, locals: set<Address>, slots: nat, a: Address) {
    a !in locals && Size(t, a) > slots
  }

  /** What an account is left with when offenders are cut to the given level. */
  function CutTo(t: Table, locals: set<Address>, slots: nat, level: nat): Address -> nat {
    a => if Offends(t, locals, slots, a) && Size(t, a) > level then level else Size(t, a)
  }

  ghost function TotalAt(t: Table, locals: set<Address>, slots: nat, level: nat): nat {
    Sum(CutTo(t, locals, slots, level), t.Keys)
  }

  ghost predicate Levelled(t0: Table, t: Table, locals: set<Address>, slots: nat, level: nat) {
    t.Keys == t0.Keys && forall a :: Size(t, a) == CutTo(t0, locals, slots, level)(a)
  }

  ghost predicate SameSizes(t0: Table, t: Table) { forall a :: Size(t, a) == Size(t0, a) }

  /** The next higher level would have been too much, or nothing was cut. */
  ghost predicate Tight(t0: Table, t: Table, locals: set<Address>, slots: nat, limit: nat, level: nat) {
    SameSizes(t0, t) || TotalAt(t0, locals, slots, level + 1) > limit
  }

  ghost predicate Fair(t0: Table, t: Table, locals: set<Address>, slots: nat, limit: nat, level: nat) {
    && level >= slots && Levelled(t0, t, locals, slots, level)
    && Tight(t0, t, locals, slots, limit, level)
    && (Total(t) <= limit || forall a :: !Offends(t, locals, slots, a))
  }

  lemma LevelledTotal(t0: Table, t: Table, locals: set<Address>, slots: nat, level: nat)
    requires Levelled(t0, t, locals, slots, level)
    ensures Total(t) == TotalAt(t0, locals, slots, level)
  {
    SumSame(Len(t), CutTo(t0, locals, slots, level), t0.Keys);
  }

  lemma {:induction false} SumMonotone(f: Address -> nat, g: Address -> nat, s: set<Address>)
    requires forall a :: a in s ==> f(a) <= g(a)
    ensures Sum(f, s) <= Sum(g, s)
  {
    if s != {} {
      EmptyOrMember(s);
      var a :| a in s;
      SumPick(f, s, a);
      SumPick(g, s, a);
      SumMonotone(f, g, s - {a});
    }
  }

  /** Max-min fairness: no level that fits the limit gives any account more. */
  lemma FairIsMaximal(t0: Table, t: Table, locals: set<Address>, slots: nat, limit: nat, level: nat, other: nat,
                      a: Address)
    requires Fair(t0, t, locals, slots, limit, level)
    requires TotalAt(t0, locals, slots, other) <= limit
    ensures CutTo(t0, locals, slots, other)(a) <= Size(t, a)
  {
    if other > level && !SameSizes(t0, t) {
      SumMonotone(CutTo(t0, locals, slots, level + 1), CutTo(t0, locals, slots, other), t0.Keys);
      assert false;
    }
  }

  /** Within the limit nothing is cut. */
  lemma FairIsLenient(t0: Table, t: Table, locals: set<Address>, slots: nat, limit: nat, level: nat)
    requires Fair(t0, t, locals, slots, limit, level) && Total(t0) <= limit
    ensures SameSizes(t0, t)
  {
    SumMonotone(CutTo(t0, locals, slots, level + 1), Len(t0), t0.Keys);
  }

  lemma {:induction false} SumStep(f: Address -> nat, g: Address -> nat, s: set<Address>, c: set<Address>)
    requires forall a :: a in s ==> g(a) <= f(a) + if a in c then 1 else 0
    ensures Sum(g, s) <= Sum(f, s) + |s * c|
  {
    if s != {} {
      EmptyOrMember(s);
      var a :| a in s;
      SumPick(f, s, a);
      SumPick(g, s, a);
      SumStep(f, g, s - {a}, c);
      if a in c { assert s * c == (s - {a}) * c + {a}; } else { assert s * c == (s - {a}) * c; }
    }
  }

  /** Cutting in whole rounds overshoots the limit by less than the number of accounts cut. */
  lemma FairOvershoot(t0: Table, t: Table, locals: set<Address>, slots: nat, limit: nat, level: nat)
    requires Fair(t0, t, locals, slots, limit, level) && !SameSizes(t0, t)
    ensures limit < Total(t) + |set a | a in t0 && Size(t, a) < Size(t0, a)|
  {
    hide Sum, Total;
    var c := set a | a in t0 && Size(t, a) < Size(t0, a);
    LevelledTotal(t0, t, locals, slots, level);
    SumStep(CutTo(t0, locals, slots, level), CutTo(t0, locals, slots, level + 1), t0.Keys, c);
    assert t0.Keys * c == c;
  }

  /** v is v0 with some pending lists cut from the top. */
  ghost predicate CutDown(v0: View, v: View) {
    && v.chain == v0.chain && v.pending.Keys == v0.pending.Keys
    && forall a :: Size(v.pending, a) <= Size(v0.pending, a) && v.At(a) == CutPending(v0.At(a), Size(v.pending, a))
  }

  lemma CutDownStart(v: View, all: set<Tx>)
    requires Consistent(v, all)
    ensures CutDown(v, v)
  {
    hide CutPending, Complete;
    forall a ensures v.At(a) == CutPending(v.At(a), Size(v.pending, a)) {
      assert v.LooseAt(a);
      CutNothing(v.At(a), a, Size(v.pending, a));
    }
  }

  lemma CutDownStep(v0: View, v: View, w: View, a: Address)
    requires CutDown(v0, v) && SameBut(v, w, a) && w.pending.Keys == v.pending.Keys && v0.LooseAt(a)
    requires Size(w.pending, a) <= Size(v.pending, a)
    requires w.At(a) == CutPending(v.At(a), Size(w.pending, a))
    ensures CutDown(v0, w)
  {
    hide CutPending;
    forall b ensures Size(w.pending, b) <= Size(v0.pending, b) && w.At(b) == CutPending(v0.At(b), Size(w.pending, b)) {
      assert w.At(b).pending == ListOf(w.pending, b) && v.At(b).pending == ListOf(v.pending, b);
      if b == a { CutTwice(v0.At(a), a, Size(v.pending, a), Size(w.pending, a)); }
    }
  }

  lemma TotalDrop(t: Table, u: Table, a: Address)
    requires u.Keys == t.Keys && a in t && forall b :: b != a ==> Size(u, b) == Size(t, b)
    ensures Total(u) == Total(t) - Size(t, a) + Size(u, a)
  {
    assert forall b :: Len(t)(b) == Size(t, b) && Len(u)(b) == Size(u, b);
    SumChange(Len(t), Len(u), t.Keys, a);
  }

  /** A round takes a levelled table one level down, if everybody above the new level took part. */
  lemma RoundLevels(t0: Table, t: Table, u: Table, locals: set<Address>, slots: nat, level: nat, list: seq<Address>)
    requires Levelled(t0, t, locals, slots, level + 1) && u.Keys == t.Keys
    requires forall a :: a in list ==> Offends(t0, locals, slots, a) && Size(t, a) == level + 1
    requires forall a :: Offends(t0, locals, slots, a) && a !in list ==> Size(t0, a) <= level
    requires forall a :: Size(u, a) == if a in list then level else Size(t, a)
    ensures Levelled(t0, u, locals, slots, level)
  {}

  /** In the course of equalising: the accounts treated so far and those still to come. */
  ghost predicate Equalizing(t0: Table, t: Table, locals: set<Address>, slots: nat, limit: nat, level: nat,
                             total: int, offenders: seq<Address>, spammers: set<Address>)
  {
    && level >= slots && Levelled(t0, t, locals, slots, level) && Tight(t0, t, locals, slots, limit, level)
    && NoRepeat(offenders)
    && (forall a :: Offends(t0, locals, slots, a) <==> a in offenders || a in spammers)
    && (forall a :: a in spammers ==> a !in offenders && Size(t0, a) <= level)
    && (total > limit ==> forall a :: a in offenders ==> Size(t, a) == level)
    && (offenders == [] ==> SameSizes(t0, t))
  }

  /** No account has more than there is in total, so nothing is cut at that level. */
  lemma EqualizingStart(t: Table, locals: set<Address>, slots: nat, limit: nat, spammers: set<Address>)
    requires forall a :: a in spammers <==> Offends(t, locals, slots, a)
    ensures Equalizing(t, t, locals, slots, limit, Total(t) + slots, Total(t), [], spammers)
  {
    hide TotalAt;
    forall a ensures Size(t, a) <= Total(t) {
      if a in t { SumLeast(Len(t), t.Keys, a); }
    }
  }

  /** Before it is cut, an account to come still has its original size. */
  lemma SpammerUntouched(t0: Table, t: Table, locals: set<Address>, slots: nat, limit: nat, level: nat,
                         total: int, offenders: seq<Address>, spammers: set<Address>, a: Address)
    requires Equalizing(t0, t, locals, slots, limit, level, total, offenders, spammers) && a in spammers
    ensures Size(t, a) == Size(t0, a) && slots < Size(t0, a) <= level && Offends(t0, locals, slots, a)
  {}

  lemma FirstOffender(t0: Table, t: Table, locals: set<Address>, slots: nat, limit: nat, level: nat,
                      total: int, spammers: set<Address>, x: Address)
    requires Equalizing(t0, t, locals, slots, limit, level, total, [], spammers)
    requires x in spammers && forall b :: b in spammers ==> Size(t, b) <= Size(t, x)
    ensures Equalizing(t0, t, locals, slots, limit, Size(t, x), total, [x], spammers - {x})
  {
    hide TotalAt;
    forall a | a in spammers ensures Size(t0, a) <= Size(t, x) {
      SpammerUntouched(t0, t, locals, slots, limit, level, total, [], spammers, a);
      SpammerUntouched(t0, t, locals, slots, limit, level, total, [], spammers, x);
    }
  }

  lemma NextOffender(t0: Table, t: Table, u: Table, locals: set<Address>, slots: nat, limit: nat, level: nat, low: nat,
                     total: int, left: int, offenders: seq<Address>, spammers: set<Address>, x: Address)
    requires Equalizing(t0, t, locals, slots, limit, level, total, offenders, spammers) && offenders != []
    requires x in spammers && forall b :: b in spammers ==> Size(t, b) <= Size(t, x)
    requires Size(t, x) <= low <= level && Levelled(t0, u, locals, slots, low)
    requires forall a :: a in offenders ==> Size(u, a) == low
    requires left <= limit || low == Size(t, x)
    requires low == level ==> u == t
    requires low < level ==> TotalAt(t0, locals, slots, low + 1) > limit
    ensures Equalizing(t0, u, locals, slots, limit, low, left, offenders + [x], spammers - {x})
  {
    hide TotalAt;
    SpammerUntouched(t0, t, locals, slots, limit, level, total, offenders, spammers, x);
    forall a | a in spammers ensures Size(t0, a) <= low {
      SpammerUntouched(t0, t, locals, slots, limit, level, total, offenders, spammers, a);
    }
    forall a ensures a in offenders + [x] <==> a in offenders || a == x {}
  }

  lemma SpammersOffend(t: Table, locals: set<Address>, slots: nat)
    ensures forall a :: a in t && a !in locals && |t[a]| > slots <==> Offends(t, locals, slots, a)
  {}

  /** When the total is still too high, all accounts treated so far are at the level, and every
      other offender is no larger than the next one. */
  lemma Participants(t0: Table, t: Table, locals: set<Address>, slots: nat, limit: nat, level: nat,
                     total: int, offenders: seq<Address>, spammers: set<Address>, x: Address)
    requires Equalizing(t0, t, locals, slots, limit, level, total, offenders, spammers) && total > limit
    requires x in spammers && forall b :: b in spammers ==> Size(t, b) <= Size(t, x)
    ensures slots < Size(t, x) <= level && NoRepeat(offenders) && Levelled(t0, t, locals, slots, level)
    ensures forall a :: a in offenders ==> Offends(t0, locals, slots, a) && Size(t, a) == level
    ensures forall a :: Offends(t0, locals, slots, a) && a !in offenders ==> Size(t0, a) <= Size(t, x)
  {
    hide TotalAt;
    forall a | a in spammers ensures Size(t0, a) <= Size(t, x) {
      SpammerUntouched(t0, t, locals, slots, limit, level, total, offenders, spammers, a);
      SpammerUntouched(t0, t, locals, slots, limit, level, total, offenders, spammers, x);
    }
  }

  lemma LastStretch(t0: Table, t: Table, locals: set<Address>, slots: nat, limit: nat, level: nat,
                    total: int, offenders: seq<Address>)
    requires Equalizing(t0, t, locals, slots, limit, level, total, offenders, {}) && total > limit
    ensures slots <= level && NoRepeat(offenders) && Levelled(t0, t, locals, slots, level)
    ensures forall a :: a in offenders ==> Offends(t0, locals, slots, a) && Size(t, a) == level
    ensures forall a :: Offends(t0, locals, slots, a) && a !in offenders ==> Size(t0, a) <= slots
  {
    hide TotalAt;
  }

  lemma LastLevel(t0: Table, t: Table, u: Table, locals: set<Address>, slots: nat, limit: nat, level: nat, low: nat,
                  total: int, left: int, offenders: seq<Address>)
    requires Equalizing(t0, t, locals, slots, limit, level, total, offenders, {}) && offenders != []
    requires slots <= low <= level && Levelled(t0, u, locals, slots, low)
    requires forall a :: a in offenders ==> Size(u, a) == low
    requires low == level ==> u == t
    requires low < level ==> TotalAt(t0, locals, slots, low + 1) > limit
    ensures Equalizing(t0, u, locals, slots, limit, low, left, offenders, {})
  {
    hide TotalAt;
  }

  lemma EqualizedFair(t0: Table, t: Table, locals: set<Address>, slots: nat, limit: nat, level: nat,
                      offenders: seq<Address>, spammers: set<Address>)
    requires Equalizing(t0, t, locals, slots, limit, level, Total(t), offenders, spammers)
    requires Total(t) <= limit || (spammers == {} && (offenders == [] || level == slots))
    ensures Fair(t0, t, locals, slots, limit, level)
  {
    hide Total, TotalAt;
    if Total(t) > limit {
      forall a ensures !Offends(t, locals, slots, a) {
        if Offends(t0, locals, slots, a) { assert offenders != []; }
      }
    }
  }

  // ---- the queue ----------------------------------------------------------------------------------

  function Beat(beats: map<Address, int>, a: Address): int { if a in beats then beats[a] else 0 }

  function BeatLess(beats: map<Address, int>): (Address, Address) -> bool {
    (a, b) => Beat(beats, a) < Beat(beats, b)
  }

  ghost function LocalTotal(t: Table, locals: set<Address>): nat { Sum(Len(t), t.Keys * locals) }

  /** v is v0 with some queues cut from the top; nothing else has changed. */
  ghost predicate Trimmed(v0: View, v: View) {
    && v.chain == v0.chain
    && forall a :: Size(v.queue, a) <= Size(v0.queue, a)
                   && v.At(a) == v0.At(a).(queue := Lowest(v0.At(a).queue, Size(v.queue, a)))
  }

  /** Locals are spared, and nobody loses anything before those heard of more recently have lost all. */
  ghost predicate NewestFirst(t0: Table, t: Table, locals: set<Address>, beats: map<Address, int>) {
    && (forall a :: a in locals ==> ListOf(t, a) == ListOf(t0, a))
    && (forall a, b :: a !in locals && b !in locals && Size(t, a) < Size(t0, a) && Beat(beats, b) > Beat(beats, a) ==>
          Size(t, b) == 0)
  }

  /** The queue is cut to its limit, or to what the locals have. */
  ghost predicate WithinLimit(t0: Table, t: Table, locals: set<Address>, limit: nat) {
    Total(t) == if Total(t0) <= limit then Total(t0)
                else if LocalTotal(t0, locals) > limit then LocalTotal(t0, locals) else limit
  }

  lemma QueueTotalDrop(t: Table, u: Table, a: Address)
    requires NoneEmpty(u) && Size(t, a) > 0 && forall b :: b != a ==> ListOf(u, b) == ListOf(t, b)
    ensures Total(u) == Total(t) - Size(t, a) + Size(u, a)
  {
    forall b | b in u ensures b in t { if b != a { assert ListOf(u, b) == ListOf(t, b); } }
    TotalOver(u, t.Keys);
    assert forall b :: Len(t)(b) == Size(t, b) && Len(u)(b) == Size(u, b);
    SumChange(Len(t), Len(u), t.Keys, a);
  }

  lemma SameSums(f: Address -> nat, g: Address -> nat, s: set<Address>, a: Address)
    requires (forall b :: f(b) <= g(b)) && Sum(f, s) == Sum(g, s) && a in s
    ensures f(a) == g(a)
  {
    hide Sum;
    SumPick(f, s, a);
    SumPick(g, s, a);
    SumMonotone(f, g, s - {a});
  }

  /** If no list has grown and the total is the same, no list has shrunk. */
  lemma SameTotals(t: Table, u: Table)
    requires NoneEmpty(u) && (forall a :: Size(u, a) <= Size(t, a)) && Total(u) == Total(t)
    ensures SameSizes(t, u)
  {
    hide Sum;
    assert forall b :: Len(t)(b) == Size(t, b) && Len(u)(b) == Size(u, b);
    forall a | a in u ensures a in t { assert Size(u, a) <= Size(t, a); assert |u[a]| > 0; }
    TotalOver(u, t.Keys);
    forall a ensures Size(u, a) == Size(t, a) {
      assert Size(u, a) <= Size(t, a);
      if a in t { SameSums(Len(u), Len(t), t.Keys, a); }
    }
  }

  lemma TotalKeepsLocals(t0: Table, t: Table, locals: set<Address>)
    requires NoneEmpty(t) && forall a :: Size(t, a) <= Size(t0, a)
    requires forall a :: a in locals ==> Size(t, a) == Size(t0, a)
    ensures Total(t) >= LocalTotal(t0, locals)
    ensures (forall a :: a in t0 && a !in locals ==> Size(t, a) == 0) ==> Total(t) == LocalTotal(t0, locals)
  {
    forall b | b in t ensures b in t0 { assert Size(t, b) <= Size(t0, b); assert |t[b]| > 0; }
    TotalOver(t, t0.Keys);
    var r := t0.Keys * locals;
    SumSplit(Len(t), t0.Keys, r);
    assert forall b :: Len(t)(b) == Size(t, b) && Len(t0)(b) == Size(t0, b);
    SumSame(Len(t), Len(t0), r);
    if forall a :: a in t0 && a !in locals ==> Size(t, a) == 0 { SumZero(Len(t), t0.Keys - r); }
  }

  /** The remote accounts with queued transactions, least recently heard of first. */
  method ByHeartbeat(t: Table, locals: set<Address>, beats: map<Address, int>) returns (r: seq<Address>)
    ensures NoRepeat(r) && forall a :: a in r <==> a in t && a !in locals
    ensures forall i, j :: 0 <= i < j < |r| ==> Beat(beats, r[i]) <= Beat(beats, r[j])
  {
    var todo := t.Keys;
    var list: seq<Address> := [];
    while todo != {}
      invariant todo <= t.Keys && NoRepeat(list)
      invariant forall a :: a in list <==> a in t && a !in locals && a !in todo
    {
      EmptyOrMember(todo);
      var a :| a in todo;
      todo := todo - {a};
      if a !in locals { list := list + [a]; }
    }
    r := Sort(list, BeatLess(beats));
    PermutedDistinct(list, r);
    forall i, j | 0 <= i < j < |r| ensures Beat(beats, r[i]) <= Beat(beats, r[j]) {
      assert !BeatLess(beats)(r[j], r[i]);
    }
  }

  /** In the course of truncating: addresses[k..] have been dealt with. */
  ghost predicate Truncating(v0: View, v: View, addresses: seq<Address>, k: int, drop: int) {
    && 0 <= k <= |addresses| && Trimmed(v0, v)
    && (forall i :: 0 <= i < k ==> v.At(addresses[i]) == v0.At(addresses[i]))
    && (forall a :: a !in addresses ==> v.At(a) == v0.At(a))
    && (forall i :: k < i < |addresses| ==> Size(v.queue, addresses[i]) == 0)
    && (drop > 0 && k < |addresses| ==> Size(v.queue, addresses[k]) == 0)
  }

  lemma TruncatingStart(v: View, all: set<Tx>, addresses: seq<Address>, drop: int)
    requires Consistent(v, all)
    ensures Truncating(v, v, addresses, |addresses|, drop)
  {
    hide Complete, Lowest;
    forall a ensures v.At(a) == v.At(a).(queue := Lowest(v.At(a).queue, Size(v.queue, a))) {
      assert v.LooseAt(a);
      LowestAll(v.At(a).queue, Size(v.queue, a));
    }
  }

  lemma SameTables(t: Table, u: Table)
    requires NoneEmpty(t) && NoneEmpty(u) && forall b :: ListOf(u, b) == ListOf(t, b)
    ensures u.Keys == t.Keys && Total(u) == Total(t)
  {
    forall b ensures b in u <==> b in t { assert ListOf(u, b) == ListOf(t, b); }
    SumSame(Len(t), Len(u), t.Keys);
  }

  /** What emptying or trimming one queue means for the sizes and the total. */
  lemma QueueStep(v: View, w: View, a: Address, keep: nat)
    requires NoneEmpty(v.queue) && NoneEmpty(w.queue) && SameBut(v, w, a)
    requires Keyed(v.At(a).queue) && keep <= Size(v.queue, a)
    requires w.At(a) == v.At(a).(queue := Lowest(v.At(a).queue, keep))
    ensures Size(w.queue, a) == keep && Total(w.queue) == Total(v.queue) - Size(v.queue, a) + keep
  {
    hide Lowest, Total;
    assert w.At(a).queue == ListOf(w.queue, a) && v.At(a).queue == ListOf(v.queue, a);
    FlatLowest(v.At(a).queue, keep);
    forall b | b != a ensures ListOf(w.queue, b) == ListOf(v.queue, b) { assert w.At(b).queue == v.At(b).queue; }
    if Size(v.queue, a) > 0 { QueueTotalDrop(v.queue, w.queue, a); } else { SameTables(v.queue, w.queue); }
  }

  lemma LowestNone(m: TxMap)
    requires Keyed(m)
    ensures Lowest(m, 0) == map[]
  {
    FlatLowest(m, 0);
    assert Lowest(m, 0).Keys == {};
  }

  lemma TrimmedStep(v0: View, v: View, w: View, a: Address)
    requires Trimmed(v0, v) && SameBut(v, w, a) && v.At(a) == v0.At(a)
    requires Size(w.queue, a) <= Size(v.queue, a)
    requires w.At(a) == v.At(a).(queue := Lowest(v.At(a).queue, Size(w.queue, a)))
    ensures Trimmed(v0, w)
  {
    hide Lowest;
    forall b ensures Size(w.queue, b) <= Size(v0.queue, b)
                     && w.At(b) == v0.At(b).(queue := Lowest(v0.At(b).queue, Size(w.queue, b))) {
      assert w.At(b).queue == ListOf(w.queue, b) && v.At(b).queue == ListOf(v.queue, b);
    }
  }

  lemma TruncatingStep(v0: View, v: View, w: View, addresses: seq<Address>, k: int, drop: int, left: int)
    requires Truncating(v0, v, addresses, k + 1, drop) && drop > 0 && 0 <= k && NoRepeat(addresses)
    requires SameBut(v, w, addresses[k]) && Size(w.queue, addresses[k]) <= Size(v.queue, addresses[k])
    requires w.At(addresses[k])
             == v.At(addresses[k]).(queue := Lowest(v.At(addresses[k]).queue, Size(w.queue, addresses[k])))
    requires left > 0 ==> Size(w.queue, addresses[k]) == 0
    ensures Truncating(v0, w, addresses, k, left)
  {
    hide Lowest, Trimmed;
    TrimmedStep(v0, v, w, addresses[k]);
    forall i | k < i < |addresses| ensures Size(w.queue, addresses[i]) == 0 {
      assert addresses[i] != addresses[k];
      assert Size(v.queue, addresses[i]) == 0;
      assert w.At(addresses[i]).queue == v.At(addresses[i]).queue;
    }
  }

  lemma LaterIsEmpty(v0: View, v: View, addresses: seq<Address>, k: int, drop: int, a: Address, b: Address,
                     beats: map<Address, int>, locals: set<Address>)
    requires Truncating(v0, v, addresses, k, drop)
    requires forall x :: x in addresses <==> x in v0.queue && x !in locals
    requires forall i, j :: 0 <= i < j < |addresses| ==> Beat(beats, addresses[i]) <= Beat(beats, addresses[j])
    requires a !in locals && b !in locals && Size(v.queue, a) < Size(v0.queue, a) && Beat(beats, b) > Beat(beats, a)
    ensures Size(v.queue, b) == 0
  {
    hide Trimmed, Beat;
    assert v.At(a).queue == ListOf(v.queue, a) && v0.At(a).queue == ListOf(v0.queue, a);
    assert v.At(b).queue == ListOf(v.queue, b) && v0.At(b).queue == ListOf(v0.queue, b);
    assert a in addresses;
    var i :| 0 <= i < |addresses| && addresses[i] == a;
    assert k <= i;
    if b in addresses {
      var j :| 0 <= j < |addresses| && addresses[j] == b;
      assert i < j;
    }
  }

  lemma TruncatedNewest(v0: View, v: View, addresses: seq<Address>, k: int, drop: int,
                        locals: set<Address>, beats: map<Address, int>)
    requires Truncating(v0, v, addresses, k, drop) && (drop == 0 || k == 0)
    requires forall a :: a in addresses <==> a in v0.queue && a !in locals
    requires forall i, j :: 0 <= i < j < |addresses| ==> Beat(beats, addresses[i]) <= Beat(beats, addresses[j])
    ensures NewestFirst(v0.queue, v.queue, locals, beats)
    ensures k == 0 && drop > 0 ==> forall a :: a in addresses ==> Size(v.queue, a) == 0
  {
    hide Trimmed, Beat;
    forall a, b | a !in locals && b !in locals
                  && Size(v.queue, a) < Size(v0.queue, a) && Beat(beats, b) > Beat(beats, a)
      ensures Size(v.queue, b) == 0
    {
      LaterIsEmpty(v0, v, addresses, k, drop, a, b, beats, locals);
    }
    forall a | a in locals ensures ListOf(v.queue, a) == ListOf(v0.queue, a) {
      assert v.At(a).queue == v0.At(a).queue;
    }
  }

  lemma TruncatingDone(v0: View, v: View, addresses: seq<Address>, k: int, drop: int, limit: nat,
                       locals: set<Address>, beats: map<Address, int>)
    requires Truncating(v0, v, addresses, k, drop) && NoneEmpty(v.queue)
    requires forall a :: a in addresses <==> a in v0.queue && a !in locals
    requires forall i, j :: 0 <= i < j < |addresses| ==> Beat(beats, addresses[i]) <= Beat(beats, addresses[j])
    requires drop == Total(v.queue) - limit >= 0 && Total(v0.queue) > limit && (drop == 0 || k == 0)
    ensures NewestFirst(v0.queue, v.queue, locals, beats) && WithinLimit(v0.queue, v.queue, locals, limit)
  {
    hide Lowest, Total, LocalTotal;
    TruncatedNewest(v0, v, addresses, k, drop, locals, beats);
    TotalKeepsLocals(v0.queue, v.queue, locals);
  }
}
