/** Types shared by every component. */
module Common {

  /** A uid, guid, Common Name, token or other string that the modelled code only ever
      compares for equality. */
  type Name(==, !new, 0)

  datatype Option<+T> = None | Some(value: T)

  datatype Result<+T, +E> = Ok(value: T) | Err(error: E)

  ghost predicate Distinct<T>(s: seq<T>) {
    forall i, j :: 0 <= i < j < |s| ==> s[i] != s[j]
  }

  /** In a distinct sequence an element occurs at most once. */
  lemma {:induction false} DistinctMultiplicity<T>(s: seq<T>, x: T)
    requires Distinct(s)
    ensures multiset(s)[x] <= 1
  {
    if s != [] {
      var rest := s[..|s| - 1];
      assert s == rest + [s[|s| - 1]];
      DistinctMultiplicity(rest, x);
      if x == s[|s| - 1] {
        assert x !in rest;
      }
    }
  }

  /** An element held at two indices has multiplicity at least two. */
  lemma RepeatedMultiplicity<T>(s: seq<T>, i: nat, j: nat)
    requires i < j < |s| && s[i] == s[j]
    ensures multiset(s)[s[i]] >= 2
  {
    var front, back := s[..j], s[j..];
    assert s == front + back;
    assert front[i] == s[i] && back[0] == s[i];
    assert s[i] in front && s[i] in back;
    assert multiset(s) == multiset(front) + multiset(back);
  }

  /** Permutations of a distinct sequence are distinct. */
  lemma DistinctPermutation<T>(s: seq<T>, t: seq<T>)
    requires Distinct(s) && multiset(s) == multiset(t)
    ensures Distinct(t) && |s| == |t|
  {
    assert |s| == |multiset(s)| && |t| == |multiset(t)|;
    forall i, j | 0 <= i < j < |t|
      ensures t[i] != t[j]
    {
      DistinctMultiplicity(s, t[i]);
      if t[i] == t[j] {
        RepeatedMultiplicity(t, i, j);
      }
    }
  }

  /** Membership is unchanged by permutation. */
  lemma SameElements<T>(s: seq<T>, t: seq<T>, x: T)
    requires multiset(s) == multiset(t)
    ensures x in s <==> x in t
  {
    assert x in s <==> multiset(s)[x] > 0;
    assert x in t <==> multiset(t)[x] > 0;
  }

  ghost predicate Increasing(s: seq<int>) {
    forall i, j :: 0 <= i < j < |s| ==> s[i] < s[j]
  }

  ghost predicate SameElementsAs(a: seq<int>, b: seq<int>) {
    forall x :: x in a <==> x in b
  }

  lemma {:induction false} SameIncreasingAt(a: seq<int>, b: seq<int>, n: nat)
    requires Increasing(a) && Increasing(b) && SameElementsAs(a, b) && n < |a|
    ensures n < |b| && a[n] == b[n]
    decreases n
  {
    forall k | 0 <= k < n
      ensures k < |b| && a[k] == b[k]
    {
      SameIncreasingAt(a, b, k);
    }
    assert a[n] in a && a[n] in b;
    var m :| 0 <= m < |b| && b[m] == a[n];
    assert m >= n;
    assert b[n] in b && b[n] in a;
    var j :| 0 <= j < |a| && a[j] == b[n];
    assert j >= n;
  }

  /** Increasing sequences with the same elements are the same sequence. */
  lemma SameIncreasing(a: seq<int>, b: seq<int>)
    requires Increasing(a) && Increasing(b) && SameElementsAs(a, b)
    ensures a == b
  {
    forall n | 0 <= n < |a|
      ensures n < |b| && a[n] == b[n]
    {
      SameIncreasingAt(a, b, n);
    }
    if |a| < |b| { SameIncreasingAt(b, a, |a|); }
    if |b| < |a| { SameIncreasingAt(a, b, |b|); }
  }

  /** A part of a set is no larger. */
  lemma SubsetSize<T>(a: set<T>, b: set<T>)
    requires a <= b
    ensures |a| <= |b|
  {
    assert b == a + (b - a);
  }
}
