/** Cardinality facts about finite sets that the counting proofs rely on. */
module Sets {

  /** A set is empty exactly when nothing is in it. */
  lemma EmptyIff(s: set<int>)
    ensures s == {} <==> forall x :: x !in s
  {
    if forall x :: x !in s {
      assert s == {};
    }
  }

  /** A non-empty set has a member, so that `:|` can pick one. */
  lemma NonEmpty(s: set<int>)
    requires s != {}
    ensures exists x :: x in s
  {
    EmptyIff(s);
  }

  /** A subset is never larger than the set that contains it. */
  lemma SubsetCard<T>(a: set<T>, b: set<T>)
    requires a <= b
    ensures |a| <= |b|
  {
    assert b == a + (b - a);
  }

  /** Two disjoint subsets of `c` have at most `|c|` elements together. */
  lemma DisjointSubsetsCard<T>(a: set<T>, b: set<T>, c: set<T>)
    requires a <= c && b <= c && a !! b
    ensures |a| + |b| <= |c|
  {
    assert |a + b| == |a| + |b|;
    SubsetCard(a + b, c);
  }

  /** The members of a sequence are no more numerous than its positions. */
  lemma {:induction false} SeqMembersCard(s: seq<int>)
    ensures |(set x | x in s)| <= |s|
    decreases |s|
  {
    if s != [] {
      SeqMembersCard(s[1..]);
      assert (set x | x in s) == {s[0]} + (set x | x in s[1..]);
    }
  }
}
