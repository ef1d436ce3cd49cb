/** Finite sets of integers. */
module Sets {
  lemma SameSets(a: set<int>, b: set<int>)
    requires forall n :: n in a <==> n in b
    ensures a == b
  {
    assert forall n :: n in a <==> n in b;
  }

  lemma EmptyOrMember(s: set<int>)
    ensures s == {} || exists n :: n in s
  {
    if forall n :: n !in s { assert s == {}; }
  }

  lemma SubsetSize<T>(a: set<T>, b: set<T>)
    requires a <= b
    ensures |a| <= |b|
  {
    assert b == a + (b - a);
  }
}
