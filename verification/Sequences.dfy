/** Sequences whose order or repetitions matter. */
module Sequences {
  ghost predicate NoRepeat<T>(s: seq<T>) { forall i, j :: 0 <= i < j < |s| ==> s[i] != s[j] }

  function Elems<T>(s: seq<T>): set<T> { set x | x in s }

  /** s without the element at i. */
  function Omit<T>(s: seq<T>, i: nat): seq<T>
    requires i < |s|
  {
    s[..i] + s[i + 1..]
  }

  lemma OmitOne<T>(s: seq<T>, i: nat)
    requires i < |s|
    ensures multiset(s) == multiset(Omit(s, i)) + multiset{s[i]}
  {
    assert s == s[..i] + [s[i]] + s[i + 1..];
  }

  lemma TwiceMember<T>(s: seq<T>, i: nat, j: nat)
    requires i < j < |s| && s[i] == s[j]
    ensures multiset(s)[s[i]] >= 2
  {
    assert s == s[..j] + [s[j]] + s[j + 1..];
    assert s[i] in s[..j];
  }

  lemma {:induction false} NoRepeatOnce<T>(s: seq<T>, x: T)
    requires NoRepeat(s)
    ensures multiset(s)[x] <= 1
  {
    if s != [] {
      assert s == [s[0]] + s[1..];
      NoRepeatOnce(s[1..], x);
      if x == s[0] { assert x !in s[1..]; }
    }
  }

  lemma OnceEach<T(!new)>(s: seq<T>)
    ensures NoRepeat(s) <==> forall x :: multiset(s)[x] <= 1
  {
    if NoRepeat(s) {
      forall x ensures multiset(s)[x] <= 1 { NoRepeatOnce(s, x); }
    } else {
      var i, j :| 0 <= i < j < |s| && s[i] == s[j];
      TwiceMember(s, i, j);
    }
  }

  lemma PermutedDistinct<T>(a: seq<T>, b: seq<T>)
    requires multiset(a) == multiset(b) && NoRepeat(a)
    ensures NoRepeat(b) && forall x :: x in a <==> x in b
  {
    forall x ensures x in a <==> x in b {
      assert x in a <==> x in multiset(a);
      assert x in b <==> x in multiset(b);
    }
    forall i, j | 0 <= i < j < |b| ensures b[i] != b[j] {
      if b[i] == b[j] {
        TwiceMember(b, i, j);
        NoRepeatOnce(a, b[i]);
      }
    }
  }

  /** A sequence has fewer elements than positions exactly if something is repeated. */
  lemma {:induction false} ElemsSize<T>(s: seq<T>)
    ensures |Elems(s)| <= |s| && (|Elems(s)| == |s| <==> NoRepeat(s))
  {
    if s != [] {
      var t := s[1..];
      assert s == [s[0]] + t;
      ElemsSize(t);
      assert NoRepeat(s) <==> s[0] !in t && NoRepeat(t);
      assert Elems(s) == Elems(t) + {s[0]};
    }
  }

  // ---- counting ----------------------------------------------------------------------------------

  /** How many elements satisfy p. */
  ghost function Number<T>(s: seq<T>, p: T -> bool): nat {
    if s == [] then 0 else Number(s[..|s| - 1], p) + if p(s[|s| - 1]) then 1 else 0
  }

  lemma {:induction false} NumberAppend<T>(s: seq<T>, t: seq<T>, p: T -> bool)
    ensures Number(s + t, p) == Number(s, p) + Number(t, p)
    decreases |t|
  {
    if t == [] {
      assert s + t == s;
    } else {
      var n := |t| - 1;
      assert (s + t)[..|s| + n] == s + t[..n];
      NumberAppend(s, t[..n], p);
    }
  }

  lemma NumberOfOne<T>(x: T, p: T -> bool)
    ensures Number([x], p) == if p(x) then 1 else 0
  {
    assert [x][..0] == [];
  }

  /** Leaving out one element changes the number by whether it counts. */
  lemma NumberOmit<T>(s: seq<T>, i: nat, p: T -> bool)
    requires i < |s|
    ensures Number(s, p) == Number(Omit(s, i), p) + if p(s[i]) then 1 else 0
  {
    hide Number;
    var a, b := s[..i], s[i + 1..];
    assert s == a + [s[i]] + b;
    NumberAppend(a + [s[i]], b, p);
    NumberAppend(a, [s[i]], p);
    NumberOfOne(s[i], p);
    NumberAppend(a, b, p);
  }

  lemma {:induction false} NumberPermuted<T>(s: seq<T>, t: seq<T>, p: T -> bool)
    requires multiset(s) == multiset(t)
    ensures Number(s, p) == Number(t, p)
    decreases |s|
  {
    hide Number, Omit;
    assert |multiset(s)| == |s| && |multiset(t)| == |t|;
    if s == [] {
      assert s == t;
    } else {
      assert s[0] in multiset(t);
      var i :| 0 <= i < |t| && t[i] == s[0];
      OmitOne(s, 0);
      OmitOne(t, i);
      assert multiset(Omit(s, 0)) == multiset(s) - multiset{s[0]};
      assert multiset(Omit(t, i)) == multiset(t) - multiset{s[0]};
      NumberOmit(s, 0, p);
      NumberOmit(t, i, p);
      NumberPermuted(Omit(s, 0), Omit(t, i), p);
    }
  }

  lemma {:induction false} NumberAll<T>(s: seq<T>, p: T -> bool)
    ensures Number(s, p) <= |s|
    ensures (forall x :: x in s ==> p(x)) ==> Number(s, p) == |s|
    ensures (forall x :: x in s ==> !p(x)) ==> Number(s, p) == 0
    ensures (exists x :: x in s && p(x)) ==> Number(s, p) > 0
  {
    if s != [] {
      var n := |s| - 1;
      assert s == s[..n] + [s[n]];
      NumberAll(s[..n], p);
    }
  }

  ghost function Is<T>(x: T): T -> bool { y => y == x }

  lemma {:induction false} NumberOf<T>(s: seq<T>, x: T)
    ensures Number(s, Is(x)) == multiset(s)[x]
  {
    if s != [] {
      var n := |s| - 1;
      assert s == s[..n] + [s[n]];
      NumberOf(s[..n], x);
    }
  }

  lemma {:induction false} NumberApart<T>(s: seq<T>, p: T -> bool, q: T -> bool)
    requires forall x :: x in s ==> !(p(x) && q(x))
    ensures Number(s, p) + Number(s, q) <= |s|
  {
    if s != [] {
      var n := |s| - 1;
      assert s == s[..n] + [s[n]];
      NumberApart(s[..n], p, q);
    }
  }

  lemma {:induction false} NumberWeaker<T>(s: seq<T>, p: T -> bool, q: T -> bool)
    requires forall x :: x in s && p(x) ==> q(x)
    ensures Number(s, p) <= Number(s, q)
  {
    if s != [] {
      var n := |s| - 1;
      assert s == s[..n] + [s[n]];
      NumberWeaker(s[..n], p, q);
    }
  }

  lemma {:induction false} NumberSplit<T>(s: seq<T>, p: T -> bool, q: T -> bool, r: T -> bool)
    requires forall x :: x in s ==> (p(x) <==> q(x) || r(x)) && !(q(x) && r(x))
    ensures Number(s, p) == Number(s, q) + Number(s, r)
  {
    if s != [] {
      var n := |s| - 1;
      assert s == s[..n] + [s[n]];
      NumberSplit(s[..n], p, q, r);
    }
  }

  lemma NoRepeatParts<T>(s: seq<T>, t: seq<T>)
    ensures NoRepeat(s + t) ==> NoRepeat(s) && NoRepeat(t)
  {
    if NoRepeat(s + t) {
      assert forall i :: 0 <= i < |s| ==> (s + t)[i] == s[i];
      assert forall i :: 0 <= i < |t| ==> (s + t)[|s| + i] == t[i];
    }
  }

  lemma NoRepeatApart<T>(s: seq<T>, t: seq<T>, x: T)
    requires NoRepeat(s + t) && x in t
    ensures x !in s
  {
    var j :| 0 <= j < |t| && t[j] == x;
    assert (s + t)[|s| + j] == x;
    forall i | 0 <= i < |s| ensures s[i] != x { assert (s + t)[i] == s[i]; }
  }

  lemma NoElems<T>(s: seq<T>)
    ensures Elems(s[..0]) == {}
  {}

  lemma NextElem<T>(s: seq<T>, i: nat)
    requires i < |s|
    ensures Elems(s[..i + 1]) == Elems(s[..i]) + {s[i]}
    ensures s[i] in Elems(s) && (NoRepeat(s) ==> s[i] !in Elems(s[..i]))
  {
    assert s[..i + 1] == s[..i] + [s[i]];
    assert s[i] in s;
  }
}
