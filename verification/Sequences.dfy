/** Facts about lists that several components rely on: distinctness by counting, and permutations. */
module Sequences {

  predicate Distinct<T(==)>(s: seq<T>) {
    forall i, j :: 0 <= i < j < |s| ==> s[i] != s[j]
  }

  function Elements<T(==)>(s: seq<T>): set<T> {
    set x | x in s
  }

  /** The two lists hold the same values, each equally often. */
  ghost predicate Permutation<T>(a: seq<T>, b: seq<T>) {
    multiset(a) == multiset(b)
  }

  /** A set collected from a list is never larger than the list, and equally large exactly when nothing repeats. */
  lemma {:induction false} DistinctByCounting<T>(s: seq<T>)
    ensures |Elements(s)| <= |s|
    ensures |Elements(s)| == |s| <==> Distinct(s)
  {
    if s == [] {
      assert Elements(s) == {};
    } else {
      var last := |s| - 1;
      var front := s[..last];
      DistinctByCounting(front);
      assert Elements(s) == Elements(front) + {s[last]};
      if s[last] in front {
        var i :| 0 <= i < last && front[i] == s[last];
        assert s[i] == s[last];
        assert Elements(s) == Elements(front);
      } else {
        assert |Elements(s)| == |Elements(front)| + 1;
      }
    }
  }

  lemma PermutationMembers<T>(a: seq<T>, b: seq<T>)
    requires Permutation(a, b)
    ensures |a| == |b|
    ensures forall x :: x in a <==> x in b
  {
    assert |multiset(a)| == |multiset(b)|;
    forall x ensures x in a <==> x in b {
      assert x in a <==> x in multiset(a);
      assert x in b <==> x in multiset(b);
    }
  }

  lemma PermutationDistinct<T>(a: seq<T>, b: seq<T>)
    requires Permutation(a, b) && Distinct(a)
    ensures Distinct(b)
  {
    PermutationMembers(a, b);
    assert Elements(a) == Elements(b);
    DistinctByCounting(a);
    DistinctByCounting(b);
  }

  function Map<T, U>(f: T -> U, s: seq<T>): (r: seq<U>)
    ensures |r| == |s|
    ensures forall i :: 0 <= i < |s| ==> r[i] == f(s[i])
  {
    seq(|s|, i requires 0 <= i < |s| => f(s[i]))
  }

  /** The ranks of the list's elements are pairwise different. */
  predicate DistinctBy<T, K(==)>(rank: T -> K, s: seq<T>) {
    forall i, j :: 0 <= i < j < |s| ==> rank(s[i]) != rank(s[j])
  }

  lemma PermutationDistinctBy<T, K>(rank: T -> K, a: seq<T>, b: seq<T>)
    requires Permutation(a, b) && DistinctBy(rank, a)
    ensures DistinctBy(rank, b)
  {
    PermutationMembers(a, b);
    assert Distinct(a) by {
      forall i, j | 0 <= i < j < |a| ensures a[i] != a[j] {
        assert rank(a[i]) != rank(a[j]);
      }
    }
    PermutationDistinct(a, b);
    forall i, j | 0 <= i < j < |b| ensures rank(b[i]) != rank(b[j]) {
      assert b[i] in a && b[j] in a && b[i] != b[j];
      var k, l :| 0 <= k < |a| && 0 <= l < |a| && a[k] == b[i] && a[l] == b[j];
      assert k < l || l < k;
    }
  }

  function RemoveAt<T>(s: seq<T>, k: nat): seq<T>
    requires k < |s|
  {
    s[..k] + s[k + 1..]
  }

  lemma MultisetOfRemoveAt<T>(s: seq<T>, k: nat)
    requires k < |s|
    ensures multiset(RemoveAt(s, k)) == multiset(s) - multiset{s[k]}
  {
    assert s == s[..k] + [s[k]] + s[k + 1..];
  }

  function Sum<T>(weight: T -> nat, s: seq<T>): nat {
    if s == [] then 0 else Sum(weight, s[..|s| - 1]) + weight(s[|s| - 1])
  }

  lemma {:induction false} SumOfRemoveAt<T>(weight: T -> nat, s: seq<T>, k: nat)
    requires k < |s|
    ensures Sum(weight, s) == Sum(weight, RemoveAt(s, k)) + weight(s[k])
  {
    var last := |s| - 1;
    if k == last {
      assert RemoveAt(s, k) == s[..last];
    } else {
      SumOfRemoveAt(weight, s[..last], k);
      assert RemoveAt(s, k)[..last - 1] == RemoveAt(s[..last], k);
    }
  }

  /** A sum does not depend on the order of its terms. */
  lemma {:induction false} SumPermutes<T>(weight: T -> nat, a: seq<T>, b: seq<T>)
    requires Permutation(a, b)
    ensures Sum(weight, a) == Sum(weight, b)
    decreases |a|
  {
    PermutationMembers(a, b);
    if a != [] {
      var last := |a| - 1;
      assert a[last] in b;
      var k :| 0 <= k < |b| && b[k] == a[last];
      MultisetOfRemoveAt(a, last);
      MultisetOfRemoveAt(b, k);
      assert RemoveAt(a, last) == a[..last];
      SumPermutes(weight, RemoveAt(a, last), RemoveAt(b, k));
      SumOfRemoveAt(weight, b, k);
    }
  }
}
