/** Transactions and nonce-keyed collections of them. Hashing is taken to be free of
    collisions, so a transaction stands for its own hash. */
module Transactions {
  import opened Sequences
  import opened Sets

  type Address = int
  type Byte = b: int | 0 <= b < 256

  datatype Tx = Tx(sender: Address, nonce: int, price: int, gas: nat, value: int,
                   data: seq<Byte>, creation: bool, size: nat, signed: bool)
  {
    /** What the sender's power has to cover; the transferred value is not part of it. */
    function Cost(): int { price * gas }
  }

  type TxMap = map<int, Tx>

  /** Every transaction is filed under its own nonce. */
  ghost predicate Keyed(m: TxMap) { forall n :: n in m ==> m[n].nonce == n }

  /** tx is filed in m. */
  predicate Holds(m: TxMap, tx: Tx) { tx.nonce in m && m[tx.nonce] == tx }

  ghost predicate SameMembers(s: seq<Tx>, m: TxMap) { forall tx :: tx in s <==> Holds(m, tx) }

  /** s lists each entry of m exactly once, in any order. */
  ghost predicate Lists(s: seq<Tx>, m: TxMap) { SameMembers(s, m) && NoRepeat(s) }

  ghost predicate Increasing(s: seq<Tx>) { forall i, j :: 0 <= i < j < |s| ==> s[i].nonce < s[j].nonce }

  // ---- the listing in nonce order -------------------------------------------------

  lemma SameEntries(a: TxMap, b: TxMap)
    requires forall n :: n in a <==> n in b
    requires forall n :: n in a ==> a[n] == b[n]
    ensures a == b
  {
    SameSets(a.Keys, b.Keys);
    assert forall n :: n in a ==> a[n] == b[n];
  }

  lemma {:induction false} LowestKey(m: TxMap) returns (n: int)
    requires m != map[]
    ensures n in m && forall k :: k in m ==> n <= k
    decreases |m|
  {
    EmptyOrMember(m.Keys);
    n :| n in m;
    var rest := m - {n};
    assert rest.Keys == m.Keys - {n};
    assert forall j :: j in m ==> j == n || j in rest;
    if rest != map[] {
      var r := LowestKey(rest);
      if r < n { n := r; }
    }
  }

  lemma LowestKeyExists(m: TxMap)
    requires m != map[]
    ensures exists n :: n in m && forall k :: k in m ==> n <= k
  {
    var n := LowestKey(m);
  }

  function MinKey(m: TxMap): (n: int)
    requires m != map[]
    ensures n in m && forall k :: k in m ==> n <= k
  {
    LowestKeyExists(m);
    var n :| n in m && forall k :: k in m ==> n <= k;
    n
  }

  /** The transactions of m in increasing nonce order. */
  function Flat(m: TxMap): seq<Tx>
    decreases |m|
  {
    if m == map[] then [] else
      var n := MinKey(m);
      assert (m - {n}).Keys == m.Keys - {n};
      [m[n]] + Flat(m - {n})
  }

  lemma FlatStep(m: TxMap)
    ensures m == map[] ==> Flat(m) == []
    ensures m != map[] ==> Flat(m) == [m[MinKey(m)]] + Flat(m - {MinKey(m)}) && |m - {MinKey(m)}| == |m| - 1
  {
    if m != map[] { assert (m - {MinKey(m)}).Keys == m.Keys - {MinKey(m)}; }
  }

  lemma {:induction false} FlatMembers(m: TxMap)
    requires Keyed(m)
    ensures SameMembers(Flat(m), m)
    decreases |m|
  {
    if m != map[] {
      var n := MinKey(m);
      var rest := m - {n};
      assert rest.Keys == m.Keys - {n};
      FlatMembers(rest);
      forall tx ensures tx in Flat(m) <==> Holds(m, tx) {
        assert tx in Flat(m) <==> tx == m[n] || tx in Flat(rest);
        assert Holds(m, tx) <==> tx == m[n] || Holds(rest, tx);
      }
    }
  }

  lemma {:induction false} FlatIncreases(m: TxMap)
    requires Keyed(m)
    ensures Increasing(Flat(m)) && |Flat(m)| == |m|
    decreases |m|
  {
    if m != map[] {
      var n := MinKey(m);
      var rest := m - {n};
      assert rest.Keys == m.Keys - {n};
      FlatIncreases(rest);
      FlatMembers(rest);
      var s, t := Flat(m), Flat(rest);
      assert s == [m[n]] + t;
      forall i, j | 0 <= i < j < |s| ensures s[i].nonce < s[j].nonce {
        assert s[j] == t[j - 1];
        if i == 0 { assert t[j - 1] in t && Holds(rest, t[j - 1]); } else { assert s[i] == t[i - 1]; }
      }
    }
  }

  lemma FlatLists(m: TxMap)
    requires Keyed(m)
    ensures Increasing(Flat(m)) && |Flat(m)| == |m| && Lists(Flat(m), m)
  {
    FlatMembers(m);
    FlatIncreases(m);
  }

  lemma SomeMember<T>(s: seq<T>)
    ensures s == [] || exists x :: x in s
  {
    if s != [] { assert s[0] in s; }
  }

  /** An increasing listing starts with the lowest nonce and goes on with the rest. */
  lemma FlatHead(m: TxMap, s: seq<Tx>)
    requires Keyed(m) && Increasing(s) && SameMembers(s, m) && m != map[]
    ensures s != [] && s[0] == m[MinKey(m)]
    ensures SameMembers(s[1..], m - {MinKey(m)})
  {
    var n := MinKey(m);
    assert Holds(m, m[n]) && m[n] in s;
    assert Holds(m, s[0]);
    assert s[0] == m[n];
    forall tx ensures tx in s[1..] <==> Holds(m - {n}, tx) {
      assert tx in s <==> tx == s[0] || tx in s[1..];
      if tx in s[1..] { var j :| 1 <= j < |s| && s[j] == tx; }
    }
  }

  /** There is only one increasing listing. */
  lemma {:induction false} FlatUnique(m: TxMap, s: seq<Tx>)
    requires Keyed(m) && Increasing(s) && SameMembers(s, m)
    ensures s == Flat(m)
    decreases |m|
  {
    if m == map[] {
      SomeMember(s);
    } else {
      var n := MinKey(m);
      assert (m - {n}).Keys == m.Keys - {n};
      FlatHead(m, s);
      FlatUnique(m - {n}, s[1..]);
      assert s == [s[0]] + s[1..];
    }
  }

  // ---- parts of a map ---------------------------------------------------------------

  function Below(m: TxMap, t: int): TxMap { map n | n in m && n < t :: m[n] }
  function From(m: TxMap, t: int): TxMap { map n | n in m && n >= t :: m[n] }
  function Keep(m: TxMap, p: Tx -> bool): TxMap { map n | n in m && p(m[n]) :: m[n] }
  function Drop(m: TxMap, p: Tx -> bool): TxMap { map n | n in m && !p(m[n]) :: m[n] }

  lemma AppendIncreasing(a: seq<Tx>, b: seq<Tx>, t: int)
    requires Increasing(a) && Increasing(b)
    requires forall tx :: tx in a ==> tx.nonce < t
    requires forall tx :: tx in b ==> tx.nonce >= t
    ensures Increasing(a + b)
  {
    var s := a + b;
    forall i, j | 0 <= i < j < |s| ensures s[i].nonce < s[j].nonce {
      if i < |a| <= j { assert a[i] in a && b[j - |a|] in b; }
    }
  }

  lemma FlatSplit(m: TxMap, t: int)
    requires Keyed(m)
    ensures Flat(m) == Flat(Below(m, t)) + Flat(From(m, t))
  {
    FlatLists(Below(m, t));
    FlatLists(From(m, t));
    var a, b := Flat(Below(m, t)), Flat(From(m, t));
    AppendIncreasing(a, b, t);
    forall tx ensures tx in a + b <==> Holds(m, tx) {
      assert tx in a + b <==> Holds(Below(m, t), tx) || Holds(From(m, t), tx);
    }
    FlatUnique(m, a + b);
  }

  /** The k entries of m with the lowest nonces, or all of them if there are no more. */
  function Lowest(m: TxMap, k: nat): TxMap
  {
    if k < |Flat(m)| then Below(m, Flat(m)[k].nonce) else m
  }

  /** s from its end down to position k. */
  ghost function TopDown(s: seq<Tx>, k: nat): (r: seq<Tx>)
    ensures |r| == if k < |s| then |s| - k else 0
    ensures forall i :: 0 <= i < |r| ==> r[i] == s[|s| - 1 - i]
  {
    if k < |s| then seq(|s| - k, i requires 0 <= i < |s| - k => s[|s| - 1 - i]) else []
  }

  lemma SplitPrefix(m: TxMap, t: int, a: seq<Tx>)
    requires Keyed(m) && Flat(m) == a + Flat(From(m, t))
    ensures a == Flat(Below(m, t))
  {
    FlatSplit(m, t);
    var b := Flat(From(m, t));
    assert |a| == |Flat(Below(m, t))|;
    assert a == (a + b)[..|a|];
    assert Flat(Below(m, t)) == (Flat(Below(m, t)) + b)[..|a|];
  }

  lemma FlatLowest(m: TxMap, k: nat)
    requires Keyed(m) && k <= |m|
    ensures |Flat(m)| == |m| && Flat(Lowest(m, k)) == Flat(m)[..k] && |Lowest(m, k)| == k
    ensures Keyed(Lowest(m, k))
  {
    hide Flat, NoRepeat;
    FlatLists(m);
    var s := Flat(m);
    if k < |m| {
      var t := s[k].nonce;
      FlatSplit(m, t);
      var a, b := Flat(Below(m, t)), Flat(From(m, t));
      FlatLists(Below(m, t));
      FlatLists(From(m, t));
      assert s[k] in s && Holds(From(m, t), s[k]);
      assert s[k] !in a;
      assert |a| <= k by { assert a == s[..|a|]; }
      FlatHead(From(m, t), b);
      assert s[|a|] == b[0] == s[k];
    }
  }

  lemma LowestAll(m: TxMap, k: nat)
    requires Keyed(m) && |m| <= k
    ensures Lowest(m, k) == m && TopDown(Flat(m), k) == []
  {
    FlatLists(m);
  }

  lemma LowestStep(m: TxMap, k: nat)
    requires Keyed(m) && k < |m|
    ensures |Flat(m)| == |m| && Holds(Lowest(m, k + 1), Flat(m)[k])
    ensures Lowest(m, k) == Lowest(m, k + 1) - {Flat(m)[k].nonce}
  {
    hide Flat;
    FlatLists(m);
    var s := Flat(m);
    assert s[k] in s && Holds(m, s[k]);
    forall n | n in m && n > s[k].nonce ensures k + 1 < |s| && n >= s[k + 1].nonce {
      assert Holds(m, m[n]) && m[n] in s;
      var i :| 0 <= i < |s| && s[i] == m[n];
    }
  }

  // ---- runs of consecutive nonces ---------------------------------------------------

  /** m holds exactly the nonces from lo up to, but not including, hi. */
  ghost predicate Interval(m: TxMap, lo: int, hi: int) {
    lo <= hi && forall n :: n in m <==> lo <= n < hi
  }

  /** The first nonce at or above n that m does not hold: where the run starting at n ends. */
  function RunEnd(m: TxMap, n: int): (e: int)
    ensures n <= e && e !in m && forall k :: n <= k < e ==> k in m
    decreases |m|
  {
    if n in m then
      var rest := m - {n};
      assert rest.Keys == m.Keys - {n};
      assert forall k :: k in m <==> k == n || k in rest;
      RunEnd(rest, n + 1)
    else n
  }

  lemma RunEndUnique(m: TxMap, n: int, e: int)
    requires n <= e && e !in m && forall k :: n <= k < e ==> k in m
    ensures e == RunEnd(m, n)
  {}
}
