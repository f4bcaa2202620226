/** Python list operations the scripts rely on: range, list.index, and the
    test sorted(s) == range(1, len(s) + 1) applied to every order list. */
module PyList {

  /** Python's range(1, n + 1). */
  function Iota(n: nat): (r: seq<int>)
    ensures |r| == n
    ensures forall i :: 0 <= i < n ==> r[i] == i + 1
  {
    seq(n, i => i + 1)
  }

  /** sorted(s) == range(1, len(s) + 1): two lists sort to the same list
      exactly when they hold the same multiset of values. */
  predicate IsPermutation(s: seq<int>)
  {
    multiset(s) == multiset(Iota(|s|))
  }

  predicate Distinct<T(==)>(s: seq<T>)
  {
    forall i, j :: 0 <= i < j < |s| ==> s[i] != s[j]
  }

  /** Python's list.index: the first position holding x. */
  function IndexOf<T(==)>(s: seq<T>, x: T): (i: nat)
    requires x in s
    ensures i < |s| && s[i] == x
    ensures forall j :: 0 <= j < i ==> s[j] != x
  {
    if s[0] == x then 0 else 1 + IndexOf(s[1..], x)
  }

  lemma {:induction false} DistinctCounts(s: seq<int>)
    requires Distinct(s)
    ensures forall x :: multiset(s)[x] == if x in s then 1 else 0
  {
    if s != [] {
      var t := s[..|s| - 1];
      assert s == t + [s[|s| - 1]];
      assert Distinct(t);
      DistinctCounts(t);
      assert s[|s| - 1] !in t;
      forall x ensures multiset(s)[x] == if x in s then 1 else 0 {
        assert multiset(s) == multiset(t) + multiset{s[|s| - 1]};
      }
    }
  }

  lemma IotaFacts(n: nat)
    ensures Distinct(Iota(n))
    ensures forall x :: x in Iota(n) <==> 1 <= x <= n
  {
    forall x | 1 <= x <= n ensures x in Iota(n) {
      assert Iota(n)[x - 1] == x;
    }
  }

  /** A duplicate-free list whose values are exactly 1..len is a permutation. */
  lemma BijectionIsPermutation(s: seq<int>)
    requires Distinct(s)
    requires forall x :: x in s <==> 1 <= x <= |s|
    ensures IsPermutation(s)
  {
    DistinctCounts(s);
    IotaFacts(|s|);
    DistinctCounts(Iota(|s|));
    assert forall x :: multiset(s)[x] == multiset(Iota(|s|))[x];
  }

  /** Conversely, a permutation holds every value 1..len exactly once. */
  lemma PermutationIsBijection(s: seq<int>)
    requires IsPermutation(s)
    ensures Distinct(s)
    ensures forall x :: x in s <==> 1 <= x <= |s|
  {
    IotaFacts(|s|);
    DistinctCounts(Iota(|s|));
    forall x ensures x in s <==> 1 <= x <= |s| {
      assert x in s <==> x in multiset(s);
      assert x in Iota(|s|) <==> x in multiset(Iota(|s|));
    }
    forall i, j | 0 <= i < j < |s| ensures s[i] != s[j] {
      var x := s[j];
      assert s == s[..j] + s[j..];
      assert multiset(s)[x] == multiset(s[..j])[x] + multiset(s[j..])[x];
      assert s[j..][0] == x;
      assert s[..j][i] == s[i];
      assert multiset(s)[x] <= 1;
    }
  }

  /** In a duplicate-free list, list.index undoes indexing. */
  lemma IndexOfDistinct<T>(s: seq<T>, p: nat)
    requires Distinct(s) && p < |s|
    ensures IndexOf(s, s[p]) == p
  {
  }
}
