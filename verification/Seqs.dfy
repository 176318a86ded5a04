/** Lists without repetition and lists with one element taken out. */
module Seqs {
  predicate Distinct<T(==)>(s: seq<T>) {
    forall i, j :: 0 <= i < j < |s| ==> s[i] != s[j]
  }

  function Without<T>(s: seq<T>, j: nat): seq<T>
    requires j < |s|
  {
    s[..j] + s[j + 1..]
  }

  lemma WithoutMultiset<T>(s: seq<T>, j: nat)
    requires j < |s|
    ensures multiset(s) == multiset(Without(s, j)) + multiset{s[j]}
    ensures multiset(Without(s, j)) == multiset(s) - multiset{s[j]}
  {
    assert s == s[..j] + [s[j]] + s[j + 1..];
  }

  function SumBy<T>(s: seq<T>, f: T -> int): int {
    if s == [] then 0 else SumBy(s[..|s| - 1], f) + f(s[|s| - 1])
  }

  lemma {:induction false} SumByWithout<T>(s: seq<T>, j: nat, f: T -> int)
    requires j < |s|
    ensures SumBy(s, f) == SumBy(Without(s, j), f) + f(s[j])
  {
    var n := |s| - 1;
    if j == n {
      assert Without(s, j) == s[..n];
    } else {
      SumByWithout(s[..n], j, f);
      assert Without(s, j)[..n - 1] == Without(s[..n], j);
    }
  }

  /** A sum does not depend on the order of its terms. */
  lemma {:induction false} SumByPermuted<T>(a: seq<T>, b: seq<T>, f: T -> int)
    requires multiset(a) == multiset(b)
    ensures SumBy(a, f) == SumBy(b, f)
  {
    assert |multiset(a)| == |a| && |multiset(b)| == |b|;
    if a != [] {
      assert a[0] in multiset(b);
      var j :| 0 <= j < |b| && b[j] == a[0];
      WithoutMultiset(a, 0);
      WithoutMultiset(b, j);
      SumByPermuted(Without(a, 0), Without(b, j), f);
      SumByWithout(a, 0, f);
      SumByWithout(b, j, f);
    }
  }

  lemma {:induction false} DistinctCount<T>(s: seq<T>, x: T)
    requires Distinct(s)
    ensures multiset(s)[x] == if x in s then 1 else 0
  {
    if s == [] {
    } else {
      var front, last := s[..|s| - 1], s[|s| - 1];
      DistinctCount(front, x);
      assert s == front + [last];
      assert last !in front;
    }
  }

  lemma SameCounts<T>(a: multiset<T>, b: multiset<T>)
    requires forall x :: a[x] == b[x]
    ensures a == b
  {
  }

  /** Lists without repetition and with the same elements are permutations of each other. */
  lemma SameElementsPermuted<T>(a: seq<T>, b: seq<T>)
    requires Distinct(a) && Distinct(b) && forall x :: x in a <==> x in b
    ensures multiset(a) == multiset(b)
  {
    forall x ensures multiset(a)[x] == multiset(b)[x] {
      DistinctCount(a, x);
      DistinctCount(b, x);
    }
  }
}
