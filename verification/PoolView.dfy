/** The pool's tables as one value, the invariant that ties them together, and sums over
    the accounts of a table. */
module PoolViews {
  import opened Sets
  import opened Transactions
  import opened AccountLists
  import opened PoolAccounts
  import opened PoolSteps

  type Table = map<Address, TxMap>

  function ListOf(t: Table, a: Address): TxMap { if a in t then t[a] else map[] }

  /** No list is kept once it is empty. */
  ghost predicate NoneEmpty(t: Table) { forall a :: a in t ==> t[a] != map[] }

  /** u is t, except that a's list is m. */
  ghost predicate Updated(t: Table, u: Table, a: Address, m: TxMap) {
    && (forall b :: ListOf(u, b) == if b == a then m else ListOf(t, b))
    && (NoneEmpty(t) ==> NoneEmpty(u))
  }

  lemma UpdatedTwice(t: Table, u: Table, w: Table, a: Address, m: TxMap, k: TxMap)
    requires Updated(t, u, a, m) && Updated(u, w, a, k)
    ensures Updated(t, w, a, k) && ListOf(u, a) == m
  {
    forall b ensures ListOf(w, b) == if b == a then k else ListOf(t, b) {
      assert ListOf(u, b) == if b == a then m else ListOf(t, b);
    }
  }

  function Store(t: Table, a: Address, m: TxMap): (u: Table)
    ensures Updated(t, u, a, m)
  {
    if m == map[] then t - {a} else t[a := m]
  }

  /** What the pool reads from the head of the chain. */
  datatype ChainState = ChainState(nonces: map<Address, int>, balances: map<Address, int>,
                                   powers: map<Address, int>, gasLimit: nat, homestead: bool)
  {
    function Nonce(a: Address): int { if a in nonces then nonces[a] else 0 }
    function Balance(a: Address): int { if a in balances then balances[a] else 0 }
    function Power(a: Address): int { if a in powers then powers[a] else 0 }
    function LimitsOf(a: Address): Limits { Limits(Balance(a), Power(a), gasLimit) }
  }

  /** Virtual nonces default to those of the chain. */
  function NextOf(nonces: map<Address, int>, chain: ChainState, a: Address): int {
    if a in nonces then nonces[a] else chain.Nonce(a)
  }

  datatype View = View(pending: Table, queue: Table, nonces: map<Address, int>, chain: ChainState) {
    function At(a: Address): Acct {
      Acct(ListOf(pending, a), ListOf(queue, a), NextOf(nonces, chain, a))
    }

    ghost predicate Tidy() { NoneEmpty(pending) && NoneEmpty(queue) }

    /** The account is in order. */
    ghost predicate SoundAt(a: Address) { Sound(At(a), a, chain.Nonce(a), chain.LimitsOf(a)) }

    ghost predicate GaplessAt(a: Address) { Gapless(At(a), a, chain.Nonce(a)) }

    ghost predicate LooseAt(a: Address) { Loose(At(a), a) }

    /** The transaction to be executed next is not left in the queue. */
    ghost predicate SettledAt(a: Address) { At(a).next !in At(a).queue }
  }

  ghost predicate Complete(v: View, all: set<Tx>) {
    forall t :: t in all <==> Carries(v.At(t.sender), t)
  }

  /** No account has a transaction in two places, and the lookup table is exactly the union of all lists. */
  ghost predicate Consistent(v: View, all: set<Tx>) {
    v.Tidy() && (forall a :: v.LooseAt(a)) && Complete(v, all)
  }

  ghost predicate AllSound(v: View) { forall a :: v.SoundAt(a) }

  ghost predicate AllGapless(v: View) { forall a :: v.GaplessAt(a) }

  /** What was settled is settled, except for the accounts in but. */
  ghost predicate StaysSettled(v: View, w: View, but: set<Address>) {
    forall a :: a !in but && v.SettledAt(a) ==> w.SettledAt(a)
  }

  /** The accounts given are settled, and what was settled still is. */
  ghost predicate Settles(v: View, w: View, accounts: set<Address>) {
    forall a :: a in accounts || v.SettledAt(a) ==> w.SettledAt(a)
  }

  lemma SettlesRest(u: View, v: View, w: View, accounts: set<Address>)
    requires StaysSettled(u, v, accounts) && Settles(v, w, accounts)
    ensures StaysSettled(u, w, {})
  {}

  lemma StaysAsIs(v: View)
    ensures forall but :: StaysSettled(v, v, but)
  {}

  lemma StaysOn(u: View, v: View, w: View)
    requires StaysSettled(u, v, {}) && StaysSettled(v, w, {})
    ensures StaysSettled(u, w, {})
  {}

  lemma StaysTwice(u: View, v: View, w: View, a: set<Address>, b: set<Address>)
    requires StaysSettled(u, v, a) && StaysSettled(v, w, b)
    ensures StaysSettled(u, w, a + b)
  {}

  /** The two views differ at most in account a. */
  ghost predicate SameBut(v: View, w: View, a: Address) {
    w.chain == v.chain && forall b :: b != a ==> w.At(b) == v.At(b)
  }

  lemma UpdatedTables(v: View, w: View, a: Address, p: TxMap, q: TxMap)
    requires Updated(v.pending, w.pending, a, p) && Updated(v.queue, w.queue, a, q) && w.chain == v.chain
    requires forall b :: b != a ==> NextOf(w.nonces, w.chain, b) == NextOf(v.nonces, v.chain, b)
    ensures SameBut(v, w, a) && w.At(a).pending == p && w.At(a).queue == q && (v.Tidy() ==> w.Tidy())
  {}

  lemma UpdatedComplete(v: View, w: View, all: set<Tx>, all': set<Tx>, a: Address)
    requires Complete(v, all) && SameBut(v, w, a)
    requires forall t: Tx :: t.sender != a ==> (t in all' <==> t in all)
    requires forall t: Tx :: t.sender == a ==> (t in all' <==> Carries(w.At(a), t))
    ensures Complete(w, all')
  {}

  lemma UpdatedConsistent(v: View, w: View, all: set<Tx>, all': set<Tx>, a: Address)
    requires Consistent(v, all) && SameBut(v, w, a) && w.Tidy() && w.LooseAt(a)
    requires forall t: Tx :: t.sender != a ==> (t in all' <==> t in all)
    requires forall t: Tx :: t.sender == a ==> (t in all' <==> Carries(w.At(a), t))
    ensures Consistent(w, all')
  {
    hide Loose, Carries;
    UpdatedComplete(v, w, all, all', a);
    forall b ensures w.LooseAt(b) { assert v.LooseAt(b); }
  }

  // ---- courses -----------------------------------------------------------------------------------

  /** Under an unchanged chain state, every account has gone through possible steps only. */
  ghost predicate Courses(v: View, w: View) {
    w.chain == v.chain && forall a :: Course(v.At(a), w.At(a), a, v.chain.Nonce(a), v.chain.LimitsOf(a))
  }

  lemma CoursesNone(v: View)
    ensures Courses(v, v)
  {
    hide Course;
    forall a ensures Course(v.At(a), v.At(a), a, v.chain.Nonce(a), v.chain.LimitsOf(a)) {
      CourseNone(v.At(a), a, v.chain.Nonce(a), v.chain.LimitsOf(a));
    }
  }

  lemma CoursesTwice(u: View, v: View, w: View)
    requires Courses(u, v) && Courses(v, w)
    ensures Courses(u, w)
  {
    hide Course;
    forall a ensures Course(u.At(a), w.At(a), a, u.chain.Nonce(a), u.chain.LimitsOf(a)) {
      assert Course(u.At(a), v.At(a), a, u.chain.Nonce(a), u.chain.LimitsOf(a));
      assert Course(v.At(a), w.At(a), a, v.chain.Nonce(a), v.chain.LimitsOf(a));
      CourseTwice(u.At(a), v.At(a), w.At(a), a, u.chain.Nonce(a), u.chain.LimitsOf(a));
    }
  }

  /** One account has taken a step. */
  lemma CoursesOne(v: View, w: View, a: Address, step: Step)
    requires SameBut(v, w, a) && Possible(a, v.chain.Nonce(a), v.chain.LimitsOf(a), step)
    requires w.At(a) == Do(v.At(a), v.chain.Nonce(a), v.chain.LimitsOf(a), step)
    ensures Courses(v, w)
  {
    hide Course, Do, Possible;
    forall b ensures Course(v.At(b), w.At(b), b, v.chain.Nonce(b), v.chain.LimitsOf(b)) {
      if b == a {
        CourseStep(v.At(a), a, v.chain.Nonce(a), v.chain.LimitsOf(a), step);
      } else {
        CourseNone(v.At(b), b, v.chain.Nonce(b), v.chain.LimitsOf(b));
      }
    }
  }

  lemma CoursesKeep(v: View, w: View, a: Address)
    requires Courses(v, w)
    ensures v.SoundAt(a) ==> w.SoundAt(a)
    ensures v.GaplessAt(a) ==> w.GaplessAt(a)
  {
    hide Course, Sound, Gapless;
    assert Course(v.At(a), w.At(a), a, v.chain.Nonce(a), v.chain.LimitsOf(a));
    CourseKeeps(v.At(a), w.At(a), a, v.chain.Nonce(a), v.chain.LimitsOf(a));
  }

  /** Whatever the courses, accounts in order remain in order, and no gap appears. */
  lemma CoursesKeepAll(v: View, w: View)
    requires Courses(v, w)
    ensures AllSound(v) ==> AllSound(w)
    ensures AllGapless(v) ==> AllGapless(w)
  {
    forall a ensures (v.SoundAt(a) ==> w.SoundAt(a)) && (v.GaplessAt(a) ==> w.GaplessAt(a)) { CoursesKeep(v, w, a); }
  }

  // ---- sums ------------------------------------------------------------------------------------

  ghost function Sum(f: Address -> nat, s: set<Address>): nat {
    if s == {} then 0 else
      EmptyOrMember(s);
      var a :| a in s;
      f(a) + Sum(f, s - {a})
  }

  lemma {:induction false} SumPick(f: Address -> nat, s: set<Address>, a: Address)
    requires a in s
    ensures Sum(f, s) == f(a) + Sum(f, s - {a})
  {
    var b :| b in s && Sum(f, s) == f(b) + Sum(f, s - {b});
    if b != a {
      SumPick(f, s - {b}, a);
      SumPick(f, s - {a}, b);
      assert s - {b} - {a} == s - {a} - {b};
    }
  }

  lemma {:induction false} SumSame(f: Address -> nat, g: Address -> nat, s: set<Address>)
    requires forall a :: a in s ==> f(a) == g(a)
    ensures Sum(f, s) == Sum(g, s)
  {
    if s != {} {
      EmptyOrMember(s);
      var a :| a in s;
      SumPick(f, s, a);
      SumPick(g, s, a);
      SumSame(f, g, s - {a});
    }
  }

  lemma {:induction false} SumLeast(f: Address -> nat, s: set<Address>, a: Address)
    requires a in s
    ensures f(a) <= Sum(f, s)
  {
    SumPick(f, s, a);
  }

  lemma SumChange(f: Address -> nat, g: Address -> nat, s: set<Address>, a: Address)
    requires a in s && forall b :: b in s && b != a ==> f(b) == g(b)
    ensures Sum(g, s) == Sum(f, s) - f(a) + g(a)
  {
    SumPick(f, s, a);
    SumPick(g, s, a);
    SumSame(f, g, s - {a});
  }

  function Len(t: Table): Address -> nat { a => |ListOf(t, a)| }

  /** The number of transactions in a table. */
  ghost function Total(t: Table): nat { Sum(Len(t), t.Keys) }

  method Count(t: Table) returns (n: nat)
    ensures n == Total(t)
  {
    n := 0;
    var todo := t.Keys;
    while todo != {}
      invariant todo <= t.Keys && n + Sum(Len(t), todo) == Total(t)
    {
      EmptyOrMember(todo);
      var a :| a in todo;
      SumPick(Len(t), todo, a);
      n := n + |t[a]|;
      todo := todo - {a};
    }
  }

  lemma {:induction false} SumSplit(f: Address -> nat, s: set<Address>, r: set<Address>)
    requires r <= s
    ensures Sum(f, s) == Sum(f, r) + Sum(f, s - r)
  {
    if r == {} {
      assert s - r == s;
    } else {
      EmptyOrMember(r);
      var a :| a in r;
      SumPick(f, r, a);
      SumPick(f, s, a);
      SumSplit(f, s - {a}, r - {a});
      assert s - {a} - (r - {a}) == s - r;
    }
  }

  lemma {:induction false} SumZero(f: Address -> nat, s: set<Address>)
    requires forall a :: a in s ==> f(a) == 0
    ensures Sum(f, s) == 0
  {
    if s != {} {
      EmptyOrMember(s);
      var a :| a in s;
      SumPick(f, s, a);
      SumZero(f, s - {a});
    }
  }

  /** The total of a table depends only on the sizes, wherever empty lists are kept. */
  lemma TotalOver(t: Table, s: set<Address>)
    requires t.Keys <= s
    ensures Total(t) == Sum(Len(t), s)
  {
    SumSplit(Len(t), s, t.Keys);
    SumZero(Len(t), s - t.Keys);
  }

  // ---- the number of transactions ------------------------------------------------------------------

  lemma {:induction false} HeldCard(own: set<Tx>, m: TxMap)
    requires Keyed(m) && forall t :: t in own <==> Holds(m, t)
    ensures |own| == |m|
    decreases |m|
  {
    if m == map[] {
      assert own == {};
    } else {
      var n := MinKey(m);
      assert Holds(m, m[n]);
      HeldCard(own - {m[n]}, m - {n});
    }
  }

  lemma AccountCard(own: set<Tx>, x: Acct, a: Address)
    requires Loose(x, a) && forall t :: t in own <==> Carries(x, t)
    ensures |own| == |x.pending| + |x.queue|
  {
    var p := set t | t in own && Holds(x.pending, t);
    HeldCard(p, x.pending);
    HeldCard(own - p, x.queue);
  }

  /** t is in own exactly if it is a transaction of one of the accounts s. */
  ghost predicate Owns(v: View, s: set<Address>, own: set<Tx>) {
    forall t :: t in own <==> t.sender in s && Carries(v.At(t.sender), t)
  }

  lemma OwnsOne(v: View, s: set<Address>, own: set<Tx>, a: Address) returns (mine: set<Tx>)
    requires Owns(v, s, own) && a in s && v.LooseAt(a)
    ensures mine <= own && |mine| == |ListOf(v.pending, a)| + |ListOf(v.queue, a)| && Owns(v, s - {a}, own - mine)
  {
    mine := set t | t in own && t.sender == a;
    assert forall t :: t in mine <==> Carries(v.At(a), t);
    AccountCard(mine, v.At(a), a);
  }

  lemma NobodyOwns(v: View, own: set<Tx>)
    requires Owns(v, {}, own)
    ensures own == {}
  {}

  lemma {:induction false} CountAccounts(v: View, s: set<Address>, own: set<Tx>)
    requires Owns(v, s, own) && forall a :: a in s ==> v.LooseAt(a)
    ensures |own| == Sum(Len(v.pending), s) + Sum(Len(v.queue), s)
    decreases |s|
  {
    hide Loose, Carries, Owns;
    if s == {} {
      NobodyOwns(v, own);
    } else {
      EmptyOrMember(s);
      var a :| a in s;
      var mine := OwnsOne(v, s, own, a);
      CountAccounts(v, s - {a}, own - mine);
      SumPick(Len(v.pending), s, a);
      SumPick(Len(v.queue), s, a);
    }
  }

  /** The lookup table holds as many transactions as the pending lists and the queue together. */
  lemma PoolCount(v: View, all: set<Tx>)
    requires Consistent(v, all)
    ensures |all| == Total(v.pending) + Total(v.queue)
  {
    hide Loose, Sum;
    var s := v.pending.Keys + v.queue.Keys;
    CountAccounts(v, s, all);
    TotalOver(v.pending, s);
    TotalOver(v.queue, s);
  }

  // ---- demotion ------------------------------------------------------------------------------------

  /** Account a as demotion leaves it. */
  function DemotedAt(v: View, a: Address): Acct { Demoted(v.At(a), v.chain.Nonce(a), v.chain.LimitsOf(a)) }

  /** The tables after the accounts in done have been demoted. */
  ghost predicate Demoting(v: View, p: Table, q: Table, all: set<Tx>, done: set<Address>) {
    && NoneEmpty(p) && NoneEmpty(q)
    && (forall a :: var x := if a in done then DemotedAt(v, a) else v.At(a);
          ListOf(p, a) == x.pending && ListOf(q, a) == x.queue)
    && (forall t :: t in all <==> Carries(if t.sender in done then DemotedAt(v, t.sender) else v.At(t.sender), t))
  }

  lemma DemotingStart(v: View, all: set<Tx>)
    requires Consistent(v, all)
    ensures Demoting(v, v.pending, v.queue, all, {})
  {
    hide Loose, Carries, Demoted;
  }

  lemma DemotingStep(v: View, p: Table, q: Table, all: set<Tx>, done: set<Address>,
                     a: Address, p': Table, q': Table, all': set<Tx>)
    requires Demoting(v, p, q, all, done) && a !in done
    requires Updated(p, p', a, DemotedAt(v, a).pending) && Updated(q, q', a, DemotedAt(v, a).queue)
    requires forall t: Tx :: if t.sender == a then t in all' <==> Carries(DemotedAt(v, a), t)
                             else t in all' <==> t in all
    ensures Demoting(v, p', q', all', done + {a})
  {
    hide Carries, Demoted;
    forall b ensures var x := if b in done + {a} then DemotedAt(v, b) else v.At(b);
                     ListOf(p', b) == x.pending && ListOf(q', b) == x.queue {
      assert ListOf(p', b) == if b == a then DemotedAt(v, a).pending else ListOf(p, b);
      assert ListOf(q', b) == if b == a then DemotedAt(v, a).queue else ListOf(q, b);
    }
  }

  /** Accounts without pending transactions are as demotion would leave them. */
  lemma DemotingAll(v: View, p: Table, q: Table, all: set<Tx>, done: set<Address>, a: Address)
    requires Demoting(v, p, q, all, done) && done == v.pending.Keys
    ensures ListOf(p, a) == DemotedAt(v, a).pending && ListOf(q, a) == DemotedAt(v, a).queue
    ensures forall t: Tx :: t.sender == a ==> (t in all <==> Carries(DemotedAt(v, a), t))
  {
    hide Carries, Demoted;
    if a !in done { DemotedNothing(v.At(a), v.chain.Nonce(a), v.chain.LimitsOf(a)); }
    var x := if a in done then DemotedAt(v, a) else v.At(a);
    assert ListOf(p, a) == x.pending && ListOf(q, a) == x.queue;
  }

  /** With every pending account demoted and the nonces recomputed, every account is as it must be. */
  lemma DemotingDone(v: View, w: View, all: set<Tx>)
    requires Demoting(v, w.pending, w.queue, all, v.pending.Keys) && w.chain == v.chain
    requires forall a :: NextOf(w.nonces, w.chain, a) == DemotedAt(v, a).next
    ensures w.Tidy() && Complete(w, all) && forall a :: w.At(a) == DemotedAt(v, a)
  {
    hide Carries, Demoted, NextOf, DemotedAt;
    forall a ensures w.At(a) == DemotedAt(v, a) { DemotingAll(v, w.pending, w.queue, all, v.pending.Keys, a); }
    forall t ensures t in all <==> Carries(w.At(t.sender), t) {
      DemotingAll(v, w.pending, w.queue, all, v.pending.Keys, t.sender);
    }
  }
}
